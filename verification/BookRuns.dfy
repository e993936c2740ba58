/** What the book store converges to, block after block. One vested market of known shape is
    followed; `rows` remembers its positions, what the settler accepted of each, and whether
    the refused remainder has been withdrawn. */
module BookRuns {
  import opened Numbers
  import opened Tallies
  import opened BookKeys
  import opened BookStores

  /** A position of the market: accepted is what the settler decided, which no log carries. */
  datatype Held = Held(outcome: nat, offered: nat, accepted: nat, withdrawn: bool)

  type Rows = map<nat, Held>

  /** The market followed. */
  datatype Focus = Focus(settler: string, marketId: nat, shape: Shape)

  function BookOf(m: Focus, w: nat): BookId {
    BookId(m.settler, m.marketId, w)
  }

  /** What a position counts for: what was accepted, and what was refused until it is withdrawn. */
  function Left(h: Held): int {
    if h.withdrawn then h.accepted else h.offered
  }

  function LeftOn(w: nat): Held -> int {
    (h: Held) => if h.outcome == w then Left(h) else 0
  }

  function LeftOff(w: nat): Held -> int {
    (h: Held) => if h.outcome == w then 0 else Left(h)
  }

  function AcceptedOn(w: nat): Held -> int {
    (h: Held) => if h.outcome == w then h.accepted else 0
  }

  /** What was refused and has not been withdrawn yet. */
  function OutstandingOn(w: nat): Held -> int {
    (h: Held) => if h.outcome == w && !h.withdrawn then h.offered - h.accepted else 0
  }

  // ------------------------------------------------------------------ what one stake moves

  lemma {:induction false} VestTally(own: BookId, n: nat, amount: int, ordinal: nat, b: BookId, f: Field)
    ensures Tally(VestAdds(own, n, amount, ordinal), b, f) ==
            if f == Vested && b == own.(outcome := b.outcome) && b.outcome < n && b.outcome != own.outcome then amount else 0
    decreases n
  {
    if n > 0 {
      VestTally(own, n - 1, amount, ordinal, b, f);
      TallyPush(VestAdds(own, n - 1, amount, ordinal), BookAdd(own.(outcome := n - 1), Vested, amount, ordinal), b, f);
    }
  }

  /** A stake of a vested market moves its own principal and capacity and every other book's
      vested total, and nothing else. */
  lemma StakeTally(own: BookId, shape: Shape, amount: nat, back: bool, ordinal: nat, b: BookId, f: Field)
    requires shape.rule == VestedRule
    ensures Tally(StakeAdds(own, shape, amount, back, ordinal), b, f) ==
            match f
            case Principal => if b == own then Signed(amount, back) else 0
            case Capacity => if b == own && shape.kappa != UNBOUNDED then Signed(shape.kappa * amount, back) else 0
            case Vested => if b == own.(outcome := b.outcome) && b.outcome < shape.outcomes && b.outcome != own.outcome
                           then Signed(amount, back) else 0
  {
    var principal := [BookAdd(own, Principal, Signed(amount, back), ordinal)];
    var vested := VestAdds(own, shape.outcomes, Signed(amount, back), ordinal);
    VestTally(own, shape.outcomes, Signed(amount, back), ordinal, b, f);
    assert principal[..0] == [];
    assert Tally(principal, b, f) == Worth(principal[0], b, f);
    match CapacityFor(shape.kappa, amount)
    case None => TallyAppend(principal, vested, b, f);
    case Some(c) =>
      var capacity := BookAdd(own, Capacity, Signed(c, back), ordinal);
      TallyPush(principal, capacity, b, f);
      TallyAppend(principal + [capacity], vested, b, f);
  }

  /** No stake moves a book of another market. */
  lemma StakeElsewhere(own: BookId, shape: Shape, amount: nat, back: bool, ordinal: nat, b: BookId, f: Field)
    requires (own.settler, own.marketId) != (b.settler, b.marketId)
    ensures Tally(StakeAdds(own, shape, amount, back, ordinal), b, f) == 0
  {
    var principal := [BookAdd(own, Principal, Signed(amount, back), ordinal)];
    assert principal[..0] == [] && Tally(principal, b, f) == Worth(principal[0], b, f);
    if shape.rule == VestedRule { StakeTally(own, shape, amount, back, ordinal, b, f); }
  }

  // ------------------------------------------------------------------ one row at a time

  function RowsEntered(rows: Rows, e: EntryRow, m: Focus, accepted: nat -> nat): Rows {
    if e.enters && e.settler == m.settler && e.marketId == m.marketId
    then rows[e.positionId := Held(e.outcome, e.offered, accepted(e.positionId), false)]
    else rows
  }

  function RowsSettled(rows: Rows, s: Settlement, m: Focus): Rows {
    if s.settler == m.settler && s.refund > 0 && s.positionId in rows
    then rows[s.positionId := rows[s.positionId].(withdrawn := true)]
    else rows
  }

  /** The shape an entry finds: that of the market's creation, when that is in the same block, else
      the one stored. */
  ghost predicate Finds(e: EntryRow, markets: Markets, shape: Shape) {
    if e.outcomesHint > 0 && e.kappaHint.Some?
    then shape.outcomes == e.outcomesHint && e.kappaHint == Some(shape.kappa) && shape.rule == e.rule
    else (e.settler, e.marketId) in markets && markets[(e.settler, e.marketId)] == shape
  }

  /** An entry of the market is new, names one of its outcomes and finds its shape. */
  ghost predicate GoodEntry(e: EntryRow, rows: Rows, m: Focus, markets: Markets, accepted: nat -> nat) {
    e.enters && e.settler == m.settler && e.marketId == m.marketId ==>
      && e.positionId !in rows && e.outcome < m.shape.outcomes && Finds(e, markets, m.shape)
      && accepted(e.positionId) <= e.offered
  }

  /** A refund of one of the market's positions is its refused remainder, paid once. */
  ghost predicate GoodSettlement(s: Settlement, rows: Rows, m: Focus, markets: Markets, refs: Refs) {
    var at := (s.settler, s.positionId);
    s.refund > 0 && s.settler == m.settler ==>
      if s.positionId in rows then
        var h := rows[s.positionId];
        && !h.withdrawn && s.refund == h.offered - h.accepted
        && at in refs && refs[at] == Ref(m.marketId, h.outcome)
        && (m.settler, m.marketId) in markets && markets[(m.settler, m.marketId)] == m.shape
      else at in refs ==> refs[at].marketId != m.marketId
  }

  function Total(store: Store, adds: seq<BookAdd>, b: BookId, f: Field): int {
    Value(store, b, f) + Tally(adds, b, f)
  }

  /** Outcome w's totals are what the rows make them. */
  ghost predicate MatchAt(store: Store, adds: seq<BookAdd>, rows: Rows, m: Focus, w: nat) {
    && Total(store, adds, BookOf(m, w), Principal) == Sum(rows, LeftOn(w))
    && Total(store, adds, BookOf(m, w), Vested) == Sum(rows, LeftOff(w))
    && (m.shape.kappa != UNBOUNDED ==>
          Total(store, adds, BookOf(m, w), Capacity) == m.shape.kappa * Sum(rows, LeftOn(w)))
  }

  ghost predicate Match(store: Store, adds: seq<BookAdd>, rows: Rows, m: Focus) {
    forall w :: 0 <= w < m.shape.outcomes ==> MatchAt(store, adds, rows, m, w)
  }

  lemma MulShift(k: int, a: int, x: int)
    ensures k * (a + x) == k * a + k * x && k * (a - x) == k * a - k * x
  {
  }

  predicate Enters(e: EntryRow, m: Focus) {
    e.enters && e.settler == m.settler && e.marketId == m.marketId
  }

  predicate Refunds(s: Settlement, rows: Rows, m: Focus) {
    s.refund > 0 && s.settler == m.settler && s.positionId in rows
  }

  /** What one stake of the market, on outcome o, changes of outcome w's totals. */
  ghost predicate Changes(adds: seq<BookAdd>, m: Focus, o: nat, amount: nat, back: bool, w: nat) {
    && Tally(adds, BookOf(m, w), Principal) == (if w == o then Signed(amount, back) else 0)
    && Tally(adds, BookOf(m, w), Vested) == (if w == o then 0 else Signed(amount, back))
    && (m.shape.kappa != UNBOUNDED ==>
          Tally(adds, BookOf(m, w), Capacity) == if w == o then Signed(m.shape.kappa * amount, back) else 0)
  }

  ghost predicate ChangesNothing(adds: seq<BookAdd>, m: Focus, w: nat) {
    forall f :: Tally(adds, BookOf(m, w), f) == 0
  }

  lemma StakeChanges(m: Focus, o: nat, amount: nat, back: bool, ordinal: nat, w: nat)
    requires m.shape.rule == VestedRule && w < m.shape.outcomes
    ensures Changes(StakeAdds(BookOf(m, o), m.shape, amount, back, ordinal), m, o, amount, back, w)
  {
    StakeTally(BookOf(m, o), m.shape, amount, back, ordinal, BookOf(m, w), Principal);
    StakeTally(BookOf(m, o), m.shape, amount, back, ordinal, BookOf(m, w), Vested);
    StakeTally(BookOf(m, o), m.shape, amount, back, ordinal, BookOf(m, w), Capacity);
  }

  lemma OtherChangesNothing(own: BookId, shape: Shape, amount: nat, back: bool, ordinal: nat, m: Focus, w: nat)
    requires (own.settler, own.marketId) != (m.settler, m.marketId)
    ensures ChangesNothing(StakeAdds(own, shape, amount, back, ordinal), m, w)
  {
    forall f ensures Tally(StakeAdds(own, shape, amount, back, ordinal), BookOf(m, w), f) == 0 {
      StakeElsewhere(own, shape, amount, back, ordinal, BookOf(m, w), f);
    }
  }

  lemma EntryChanges(rows: Rows, m: Focus, e: EntryRow, markets: Markets, accepted: nat -> nat, w: nat)
    requires m.shape.rule == VestedRule && w < m.shape.outcomes && GoodEntry(e, rows, m, markets, accepted)
    ensures if Enters(e, m) then Changes(EntryAdds(e, markets), m, e.outcome, e.offered, false, w)
            else ChangesNothing(EntryAdds(e, markets), m, w)
  {
    if Enters(e, m) {
      StakeChanges(m, e.outcome, e.offered, false, e.ordinal, w);
    } else if e.enters && ShapeFor(e, markets).Some? {
      OtherChangesNothing(BookId(e.settler, e.marketId, e.outcome), ShapeFor(e, markets).value, e.offered, false, e.ordinal, m, w);
    }
  }

  lemma RefundChanges(rows: Rows, m: Focus, s: Settlement, markets: Markets, refs: Refs, w: nat)
    requires m.shape.rule == VestedRule && w < m.shape.outcomes && GoodSettlement(s, rows, m, markets, refs)
    ensures if Refunds(s, rows, m) then Changes(RefundAdds(s, markets, refs), m, rows[s.positionId].outcome, s.refund, true, w)
            else ChangesNothing(RefundAdds(s, markets, refs), m, w)
  {
    var at := (s.settler, s.positionId);
    if Refunds(s, rows, m) {
      StakeChanges(m, rows[s.positionId].outcome, s.refund, true, s.ordinal, w);
    } else if s.refund > 0 && at in refs && (s.settler, refs[at].marketId) in markets {
      OtherChangesNothing(BookId(s.settler, refs[at].marketId, refs[at].outcome), markets[(s.settler, refs[at].marketId)],
                          s.refund, true, s.ordinal, m, w);
    }
  }

  /** A change of the store and the same change of the rows keep them matched. */
  lemma MatchMoves(store: Store, adds: seq<BookAdd>, more: seq<BookAdd>, rows: Rows, rows': Rows, m: Focus, w: nat,
                   o: nat, amount: nat, back: bool)
    requires MatchAt(store, adds, rows, m, w) && Changes(more, m, o, amount, back, w)
    requires Sum(rows', LeftOn(w)) == Sum(rows, LeftOn(w)) + if w == o then Signed(amount, back) else 0
    requires Sum(rows', LeftOff(w)) == Sum(rows, LeftOff(w)) + if w == o then 0 else Signed(amount, back)
    ensures MatchAt(store, adds + more, rows', m, w)
  {
    TallyAppend(adds, more, BookOf(m, w), Principal);
    TallyAppend(adds, more, BookOf(m, w), Vested);
    TallyAppend(adds, more, BookOf(m, w), Capacity);
    MulShift(m.shape.kappa, Sum(rows, LeftOn(w)), amount);
  }

  lemma MatchStays(store: Store, adds: seq<BookAdd>, more: seq<BookAdd>, rows: Rows, m: Focus, w: nat)
    requires MatchAt(store, adds, rows, m, w) && ChangesNothing(more, m, w)
    ensures MatchAt(store, adds + more, rows, m, w)
  {
    TallyAppend(adds, more, BookOf(m, w), Principal);
    TallyAppend(adds, more, BookOf(m, w), Vested);
    TallyAppend(adds, more, BookOf(m, w), Capacity);
  }

  lemma EntryMatches(store: Store, adds: seq<BookAdd>, rows: Rows, m: Focus, e: EntryRow, markets: Markets,
                     accepted: nat -> nat, w: nat)
    requires m.shape.rule == VestedRule && w < m.shape.outcomes && GoodEntry(e, rows, m, markets, accepted)
    requires MatchAt(store, adds, rows, m, w)
    ensures MatchAt(store, adds + EntryAdds(e, markets), RowsEntered(rows, e, m, accepted), m, w)
  {
    EntryChanges(rows, m, e, markets, accepted, w);
    if Enters(e, m) {
      var h := Held(e.outcome, e.offered, accepted(e.positionId), false);
      SumPut(rows, LeftOn(w), e.positionId, h);
      SumPut(rows, LeftOff(w), e.positionId, h);
      MatchMoves(store, adds, EntryAdds(e, markets), rows, RowsEntered(rows, e, m, accepted), m, w, e.outcome, e.offered, false);
    } else {
      MatchStays(store, adds, EntryAdds(e, markets), rows, m, w);
    }
  }

  lemma SettlementMatches(store: Store, adds: seq<BookAdd>, rows: Rows, m: Focus, s: Settlement, markets: Markets,
                          refs: Refs, w: nat)
    requires m.shape.rule == VestedRule && w < m.shape.outcomes && GoodSettlement(s, rows, m, markets, refs)
    requires MatchAt(store, adds, rows, m, w)
    ensures MatchAt(store, adds + RefundAdds(s, markets, refs), RowsSettled(rows, s, m), m, w)
  {
    RefundChanges(rows, m, s, markets, refs, w);
    if Refunds(s, rows, m) {
      var h := rows[s.positionId];
      SumPut(rows, LeftOn(w), s.positionId, h.(withdrawn := true));
      SumPut(rows, LeftOff(w), s.positionId, h.(withdrawn := true));
      MatchMoves(store, adds, RefundAdds(s, markets, refs), rows, RowsSettled(rows, s, m), m, w, h.outcome, s.refund, true);
    } else {
      MatchStays(store, adds, RefundAdds(s, markets, refs), rows, m, w);
    }
  }

  // ------------------------------------------------------------------ a block

  function Entered(rows: Rows, entries: seq<EntryRow>, m: Focus, accepted: nat -> nat, n: nat): Rows
    requires n <= |entries|
  {
    if n == 0 then rows else RowsEntered(Entered(rows, entries, m, accepted, n - 1), entries[n - 1], m, accepted)
  }

  function Settled(rows: Rows, settlements: seq<Settlement>, m: Focus, n: nat): Rows
    requires n <= |settlements|
  {
    if n == 0 then rows else RowsSettled(Settled(rows, settlements, m, n - 1), settlements[n - 1], m)
  }

  /** One block and what the market and position stores answer in it. */
  datatype Feed = Feed(b: Block, markets: Markets, refs: Refs)

  function RowsAfter(rows: Rows, d: Feed, m: Focus, accepted: nat -> nat): Rows {
    Settled(Entered(rows, d.b.entries, m, accepted, |d.b.entries|), d.b.settlements, m, |d.b.settlements|)
  }

  function StoreAfter(store: Store, d: Feed): Store {
    Applied(store, BookAdds(d.b, d.markets, d.refs))
  }

  ghost predicate GoodEntries(rows: Rows, d: Feed, m: Focus, accepted: nat -> nat) {
    forall i :: 0 <= i < |d.b.entries| ==>
      GoodEntry(d.b.entries[i], Entered(rows, d.b.entries, m, accepted, i), m, d.markets, accepted)
  }

  ghost predicate GoodSettlements(rows: Rows, d: Feed, m: Focus) {
    forall i :: 0 <= i < |d.b.settlements| ==>
      GoodSettlement(d.b.settlements[i], Settled(rows, d.b.settlements, m, i), m, d.markets, d.refs)
  }

  /** Settlers are addresses and ids have the chain's widths. */
  ghost predicate WellNamed(d: Feed) {
    && (forall i :: 0 <= i < |d.b.entries| ==> NamedEntry(d.b.entries[i]))
    && (forall i :: 0 <= i < |d.b.settlements| ==> ':' !in d.b.settlements[i].settler)
    && (forall k :: k in d.markets ==> d.markets[k].outcomes <= U32)
    && (forall k :: k in d.refs ==> d.refs[k].marketId < U64 && d.refs[k].outcome < U32)
  }

  predicate NamedEntry(e: EntryRow) {
    Named(BookId(e.settler, e.marketId, e.outcome)) && e.outcomesHint <= U32
  }

  ghost predicate GoodFeed(rows: Rows, d: Feed, m: Focus, accepted: nat -> nat) {
    && WellNamed(d) && GoodEntries(rows, d, m, accepted)
    && GoodSettlements(Entered(rows, d.b.entries, m, accepted, |d.b.entries|), d, m)
  }

  lemma {:induction false} VestNamed(own: BookId, n: nat, amount: int, ordinal: nat)
    requires Named(own) && n <= U32
    ensures AllNamed(VestAdds(own, n, amount, ordinal))
    decreases n
  {
    if n > 0 { VestNamed(own, n - 1, amount, ordinal); }
  }

  lemma StakeNamed(own: BookId, shape: Shape, amount: nat, back: bool, ordinal: nat)
    requires Named(own) && shape.outcomes <= U32
    ensures AllNamed(StakeAdds(own, shape, amount, back, ordinal))
  {
    VestNamed(own, shape.outcomes, Signed(amount, back), ordinal);
  }

  lemma {:induction false} EntriesNamed(d: Feed, n: nat)
    requires WellNamed(d) && n <= |d.b.entries|
    ensures AllNamed(EntryPart(d.b.entries, d.markets, n))
    decreases n
  {
    if n > 0 {
      EntriesNamed(d, n - 1);
      var e := d.b.entries[n - 1];
      assert NamedEntry(e);
      if ShapeFor(e, d.markets).Some? {
        StakeNamed(BookId(e.settler, e.marketId, e.outcome), ShapeFor(e, d.markets).value, e.offered, false, e.ordinal);
      }
    }
  }

  lemma {:induction false} RefundsNamed(d: Feed, n: nat)
    requires WellNamed(d) && n <= |d.b.settlements|
    ensures AllNamed(RefundPart(d.b.settlements, d.markets, d.refs, n))
    decreases n
  {
    if n > 0 {
      RefundsNamed(d, n - 1);
      var s := d.b.settlements[n - 1];
      var at := (s.settler, s.positionId);
      if at in d.refs && (s.settler, d.refs[at].marketId) in d.markets {
        StakeNamed(BookId(s.settler, d.refs[at].marketId, d.refs[at].outcome), d.markets[(s.settler, d.refs[at].marketId)],
                   s.refund, true, s.ordinal);
      }
    }
  }

  lemma SortedNamed(s: seq<BookAdd>)
    requires AllNamed(s)
    ensures AllNamed(Sorted(s))
  {
    SortedInOrder(s);
    forall i | 0 <= i < |Sorted(s)| ensures Named(Sorted(s)[i].book) {
      assert Sorted(s)[i] in multiset(Sorted(s));
      assert Sorted(s)[i] in s;
    }
  }

  lemma {:induction false} EntriesMatch(store: Store, rows: Rows, d: Feed, m: Focus, accepted: nat -> nat, w: nat, n: nat)
    requires m.shape.rule == VestedRule && w < m.shape.outcomes && n <= |d.b.entries|
    requires GoodEntries(rows, d, m, accepted) && MatchAt(store, [], rows, m, w)
    ensures MatchAt(store, EntryPart(d.b.entries, d.markets, n), Entered(rows, d.b.entries, m, accepted, n), m, w)
    decreases n
  {
    hide MatchAt;
    if n > 0 {
      EntriesMatch(store, rows, d, m, accepted, w, n - 1);
      EntryMatches(store, EntryPart(d.b.entries, d.markets, n - 1), Entered(rows, d.b.entries, m, accepted, n - 1), m,
                   d.b.entries[n - 1], d.markets, accepted, w);
    }
  }

  lemma {:induction false} SettlementsMatch(store: Store, adds: seq<BookAdd>, rows: Rows, d: Feed, m: Focus, w: nat, n: nat)
    requires m.shape.rule == VestedRule && w < m.shape.outcomes && n <= |d.b.settlements|
    requires GoodSettlements(rows, d, m) && MatchAt(store, adds, rows, m, w)
    ensures MatchAt(store, adds + RefundPart(d.b.settlements, d.markets, d.refs, n), Settled(rows, d.b.settlements, m, n), m, w)
    decreases n
  {
    hide MatchAt, RefundAdds, RowsSettled, GoodSettlement;
    var part := RefundPart(d.b.settlements, d.markets, d.refs, n);
    if n == 0 {
      assert adds + part == adds;
    } else {
      var before, more := RefundPart(d.b.settlements, d.markets, d.refs, n - 1),
                          RefundAdds(d.b.settlements[n - 1], d.markets, d.refs);
      SettlementsMatch(store, adds, rows, d, m, w, n - 1);
      SettlementMatches(store, adds + before, Settled(rows, d.b.settlements, m, n - 1), m, d.b.settlements[n - 1],
                        d.markets, d.refs, w);
      Associates(adds, before, more);
    }
  }

  lemma Associates(a: seq<BookAdd>, b: seq<BookAdd>, c: seq<BookAdd>)
    ensures a + (b + c) == (a + b) + c
  {
  }

  lemma AppliedTotal(store: Store, adds: seq<BookAdd>, b: BookId, f: Field)
    requires AllNamed(adds) && Named(b)
    ensures Total(Applied(store, Sorted(adds)), [], b, f) == Total(store, adds, b, f)
  {
    SortedNamed(adds);
    SortedKeeps(adds, b, f);
    AppliedValue(store, Sorted(adds), b, f);
  }

  predicate NamedFocus(m: Focus) {
    ':' !in m.settler && m.marketId < U64 && m.shape.outcomes <= U32 && m.shape.rule == VestedRule
  }

  /** A block keeps the market's books matched with its positions. */
  lemma FeedMatches(store: Store, rows: Rows, d: Feed, m: Focus, accepted: nat -> nat, w: nat)
    requires NamedFocus(m) && w < m.shape.outcomes && GoodFeed(rows, d, m, accepted) && MatchAt(store, [], rows, m, w)
    ensures MatchAt(StoreAfter(store, d), [], RowsAfter(rows, d, m, accepted), m, w)
  {
    var entered := Entered(rows, d.b.entries, m, accepted, |d.b.entries|);
    var adds := Unsorted(d.b, d.markets, d.refs);
    EntriesMatch(store, rows, d, m, accepted, w, |d.b.entries|);
    SettlementsMatch(store, EntryPart(d.b.entries, d.markets, |d.b.entries|), entered, d, m, w, |d.b.settlements|);
    EntriesNamed(d, |d.b.entries|);
    RefundsNamed(d, |d.b.settlements|);
    AppliedTotal(store, adds, BookOf(m, w), Principal);
    AppliedTotal(store, adds, BookOf(m, w), Vested);
    AppliedTotal(store, adds, BookOf(m, w), Capacity);
  }

  // ------------------------------------------------------------------ whole runs

  function StoreRun(store: Store, run: seq<Feed>): Store {
    if run == [] then store else StoreAfter(StoreRun(store, run[..|run| - 1]), run[|run| - 1])
  }

  function RowsRun(rows: Rows, run: seq<Feed>, m: Focus, accepted: nat -> nat): Rows {
    if run == [] then rows else RowsAfter(RowsRun(rows, run[..|run| - 1], m, accepted), run[|run| - 1], m, accepted)
  }

  ghost predicate GoodRun(run: seq<Feed>, m: Focus, accepted: nat -> nat) {
    run == [] ||
    (GoodRun(run[..|run| - 1], m, accepted)
     && GoodFeed(RowsRun(map[], run[..|run| - 1], m, accepted), run[|run| - 1], m, accepted))
  }

  lemma {:induction false} RunMatches(run: seq<Feed>, m: Focus, accepted: nat -> nat, w: nat)
    requires NamedFocus(m) && w < m.shape.outcomes && GoodRun(run, m, accepted)
    ensures MatchAt(StoreRun(map[], run), [], RowsRun(map[], run, m, accepted), m, w)
    decreases |run|
  {
    if run != [] {
      hide MatchAt, GoodFeed;
      RunMatches(run[..|run| - 1], m, accepted, w);
      FeedMatches(StoreRun(map[], run[..|run| - 1]), RowsRun(map[], run[..|run| - 1], m, accepted), run[|run| - 1], m, accepted, w);
    }
  }

  predicate SoundRow(h: Held, m: Focus) {
    h.outcome < m.shape.outcomes && h.accepted <= h.offered
  }

  ghost predicate SoundRows(rows: Rows, m: Focus) {
    forall id :: id in rows ==> SoundRow(rows[id], m)
  }

  lemma {:induction false} EnteredSound(rows: Rows, d: Feed, m: Focus, accepted: nat -> nat, n: nat)
    requires SoundRows(rows, m) && GoodEntries(rows, d, m, accepted) && n <= |d.b.entries|
    ensures SoundRows(Entered(rows, d.b.entries, m, accepted, n), m)
    decreases n
  {
    if n > 0 {
      EnteredSound(rows, d, m, accepted, n - 1);
      assert GoodEntry(d.b.entries[n - 1], Entered(rows, d.b.entries, m, accepted, n - 1), m, d.markets, accepted);
    }
  }

  lemma {:induction false} SettledSound(rows: Rows, settlements: seq<Settlement>, m: Focus, n: nat)
    requires SoundRows(rows, m) && n <= |settlements|
    ensures SoundRows(Settled(rows, settlements, m, n), m)
    decreases n
  {
    if n > 0 { SettledSound(rows, settlements, m, n - 1); }
  }

  lemma {:induction false} RunSound(run: seq<Feed>, m: Focus, accepted: nat -> nat)
    requires GoodRun(run, m, accepted)
    ensures SoundRows(RowsRun(map[], run, m, accepted), m)
    decreases |run|
  {
    if run != [] {
      var d, rows := run[|run| - 1], RowsRun(map[], run[..|run| - 1], m, accepted);
      RunSound(run[..|run| - 1], m, accepted);
      EnteredSound(rows, d, m, accepted, |d.b.entries|);
      SettledSound(Entered(rows, d.b.entries, m, accepted, |d.b.entries|), d.b.settlements, m, |d.b.settlements|);
    }
  }

  // ------------------------------------------------------------------ what the store says

  /** The principal of the first n outcomes other than w. */
  function Opposing(store: Store, m: Focus, w: nat, n: nat): int {
    if n == 0 then 0
    else if n - 1 == w then Opposing(store, m, w, n - 1)
    else Opposing(store, m, w, n - 1) + Value(store, BookOf(m, n - 1), Principal)
  }

  function LeftBelow(w: nat, n: nat): Held -> int {
    (h: Held) => if h.outcome < n && h.outcome != w then Left(h) else 0
  }

  lemma {:induction false} OpposingSum(store: Store, rows: Rows, m: Focus, w: nat, n: nat)
    requires Match(store, [], rows, m) && n <= m.shape.outcomes
    ensures Opposing(store, m, w, n) == Sum(rows, LeftBelow(w, n))
    decreases n
  {
    if n == 0 {
      SumZero(rows, LeftBelow(w, 0));
    } else {
      OpposingSum(store, rows, m, w, n - 1);
      assert MatchAt(store, [], rows, m, n - 1);
      if n - 1 == w {
        SumAgree(rows, rows, LeftBelow(w, n), LeftBelow(w, n - 1));
      } else {
        SumSplit(rows, LeftBelow(w, n), LeftBelow(w, n - 1), LeftOn(n - 1));
      }
    }
  }

  /** In every state the books reach: a book's vested total is the principal of all the others,
      its capacity is kappa times its own principal, and its principal is what was accepted on it
      plus exactly what was refused and not yet withdrawn. */
  lemma {:induction false} BooksConverge(run: seq<Feed>, m: Focus, accepted: nat -> nat, w: nat)
    requires NamedFocus(m) && w < m.shape.outcomes && GoodRun(run, m, accepted)
    ensures var s, rows, b := StoreRun(map[], run), RowsRun(map[], run, m, accepted), BookOf(m, w);
            && Value(s, b, Vested) == Opposing(s, m, w, m.shape.outcomes)
            && (m.shape.kappa != UNBOUNDED ==> Value(s, b, Capacity) == m.shape.kappa * Value(s, b, Principal))
            && Value(s, b, Principal) == Sum(rows, AcceptedOn(w)) + Sum(rows, OutstandingOn(w))
            && Sum(rows, OutstandingOn(w)) >= 0
  {
    var s, rows := StoreRun(map[], run), RowsRun(map[], run, m, accepted);
    RunSound(run, m, accepted);
    forall o | 0 <= o < m.shape.outcomes ensures MatchAt(s, [], rows, m, o) { RunMatches(run, m, accepted, o); }
    assert MatchAt(s, [], rows, m, w);
    OpposingSum(s, rows, m, w, m.shape.outcomes);
    forall id | id in rows ensures SoundRow(rows[id], m) {}
    SumAgree(rows, rows, LeftOff(w), LeftBelow(w, m.shape.outcomes));
    SumSplit(rows, LeftOn(w), AcceptedOn(w), OutstandingOn(w));
    SumNonNegative(rows, OutstandingOn(w));
  }

  /** Once every refused remainder on an outcome is withdrawn its principal is exact; before, it
      is not. */
  lemma {:induction false} ExactOnceWithdrawn(run: seq<Feed>, m: Focus, accepted: nat -> nat, w: nat)
    requires NamedFocus(m) && w < m.shape.outcomes && GoodRun(run, m, accepted)
    ensures var rows := RowsRun(map[], run, m, accepted);
            Value(StoreRun(map[], run), BookOf(m, w), Principal) == Sum(rows, AcceptedOn(w)) <==>
            forall id :: id in rows && rows[id].outcome == w && rows[id].accepted < rows[id].offered ==> rows[id].withdrawn
  {
    var rows := RowsRun(map[], run, m, accepted);
    BooksConverge(run, m, accepted, w);
    RunSound(run, m, accepted);
    forall id | id in rows ensures OutstandingOn(w)(rows[id]) >= 0 { assert SoundRow(rows[id], m); }
    SumNonNegative(rows, OutstandingOn(w));
    if forall id :: id in rows ==> OutstandingOn(w)(rows[id]) == 0 {
      SumZero(rows, OutstandingOn(w));
    }
  }
}
