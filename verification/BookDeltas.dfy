/** The rows written for a block: for each book the block touched its totals afterwards, and how far
    they moved, recovered from the store's log of changes. */
module BookDeltas {
  import opened Numbers
  import opened BookKeys
  import opened BookStores
  import opened BookRuns

  datatype KeyDelta = KeyDelta(key: string, oldValue: int, newValue: int)

  datatype Movement = Movement(principal: int, vested: int)

  const STILL := Movement(0, 0)

  /** A row leaves both capacity columns empty for a book without a bound. */
  datatype BookRow = BookRow(book: BookId, principal: int, vested: int, capacity: Option<int>, headroom: Option<int>,
                             unbounded: bool, principalDelta: int, vestedDelta: int, rule: Rule)

  // ------------------------------------------------------------------ the order of books

  predicate TextLess(s: string, t: string) {
    t != "" && (s == "" || s[0] < t[0] || (s[0] == t[0] && TextLess(s[1..], t[1..])))
  }

  predicate Less(b: BookId, c: BookId) {
    if b.settler != c.settler then TextLess(b.settler, c.settler)
    else if b.marketId != c.marketId then b.marketId < c.marketId
    else b.outcome < c.outcome
  }

  lemma {:induction false} TextLessTrans(s: string, t: string, u: string)
    requires TextLess(s, t) && TextLess(t, u)
    ensures TextLess(s, u) && s != u
    decreases |s|
  {
    if s != "" && s[0] == t[0] == u[0] { TextLessTrans(s[1..], t[1..], u[1..]); }
  }

  lemma {:induction false} TextLessTotal(s: string, t: string)
    ensures TextLess(s, t) || s == t || TextLess(t, s)
    decreases |s|
  {
    if s != "" && t != "" && s[0] == t[0] {
      TextLessTotal(s[1..], t[1..]);
      assert s == [s[0]] + s[1..] && t == [t[0]] + t[1..];
    }
  }

  lemma {:induction false} TextLessIrreflexive(s: string)
    ensures !TextLess(s, s)
    decreases |s|
  {
    if s != "" { TextLessIrreflexive(s[1..]); }
  }

  lemma LessTrans(a: BookId, b: BookId, c: BookId)
    requires Less(a, b) && Less(b, c)
    ensures Less(a, c)
  {
    TextLessIrreflexive(a.settler);
    if a.settler != b.settler && b.settler != c.settler { TextLessTrans(a.settler, b.settler, c.settler); }
  }

  lemma LessTotal(a: BookId, b: BookId)
    ensures Less(a, b) || a == b || Less(b, a)
    ensures !(Less(a, b) && Less(b, a)) && !Less(a, a)
  {
    TextLessTotal(a.settler, b.settler);
    if TextLess(a.settler, b.settler) && TextLess(b.settler, a.settler) {
      TextLessTrans(a.settler, b.settler, a.settler);
    }
  }

  /** s comes before t as dictionaries have it: at the first place they differ s has the lesser letter
      or has ended. */
  ghost predicate Precedes(s: string, t: string) {
    exists n: nat :: n <= |s| && n < |t| && s[..n] == t[..n] && (n == |s| || s[n] < t[n])
  }

  lemma {:induction false} TextLessPrecedes(s: string, t: string)
    ensures TextLess(s, t) <==> Precedes(s, t)
    decreases |s|
  {
    if t != "" && (s == "" || s[0] < t[0]) {
      assert s[..0] == t[..0];
    } else if t != "" && s[0] == t[0] {
      TextLessPrecedes(s[1..], t[1..]);
      if n: nat :| n <= |s[1..]| && n < |t[1..]| && s[1..][..n] == t[1..][..n] && (n == |s[1..]| || s[1..][n] < t[1..][n]) {
        assert s[..n + 1] == [s[0]] + s[1..][..n] && t[..n + 1] == [t[0]] + t[1..][..n];
        assert s[..n + 1] == t[..n + 1];
      }
      if n: nat :| n <= |s| && n < |t| && s[..n] == t[..n] && (n == |s| || s[n] < t[n]) {
        assert n > 0;
        assert s[1..][..n - 1] == s[..n][1..] && t[1..][..n - 1] == t[..n][1..];
      }
    } else if t != "" {
      assert forall n: nat :: 0 < n <= |s| && n < |t| ==> s[..n][0] == s[0] && t[..n][0] == t[0];
    }
  }

  /** Books are ordered by the settler's name, then by the market's number, then by the outcome. */
  lemma LessIs(b: BookId, c: BookId)
    ensures Less(b, c) <==>
            || (b.settler != c.settler && Precedes(b.settler, c.settler))
            || (b.settler == c.settler && b.marketId < c.marketId)
            || (b.settler == c.settler && b.marketId == c.marketId && b.outcome < c.outcome)
  {
    TextLessPrecedes(b.settler, c.settler);
  }

  // ------------------------------------------------------------------ movements, kept in order

  type Moved = seq<(BookId, Movement)>

  ghost predicate Ordered(moved: Moved) {
    forall i, j :: 0 <= i < j < |moved| ==> Less(moved[i].0, moved[j].0)
  }

  function Shifted(x: Movement, f: Field, change: int): Movement {
    match f
    case Principal => x.(principal := x.principal + change)
    case Vested => x.(vested := x.vested + change)
    case Capacity => x
  }

  /** A change booked under its book, which gets its place in the order if it is new. */
  function Bump(moved: Moved, b: BookId, f: Field, change: int): Moved {
    if moved == [] || Less(b, moved[0].0) then [(b, Shifted(STILL, f, change))] + moved
    else if moved[0].0 == b then [(b, Shifted(moved[0].1, f, change))] + moved[1..]
    else [moved[0]] + Bump(moved[1..], b, f, change)
  }

  /** One delta taken up; a key of any other shape is passed over. */
  function Took(moved: Moved, d: KeyDelta): Moved {
    match ParseBookKey(d.key)
    case None => moved
    case Some((b, f)) => Bump(moved, b, f, d.newValue - d.oldValue)
  }

  function Movements(deltas: seq<KeyDelta>, n: nat): Moved
    requires n <= |deltas|
  {
    if n == 0 then [] else Took(Movements(deltas, n - 1), deltas[n - 1])
  }

  // ------------------------------------------------------------------ rows

  function Headroom(capacity: int, vested: int): int {
    if capacity > vested then capacity - vested else 0
  }

  function RowFor(b: BookId, x: Movement, store: Store, markets: Markets): BookRow {
    var at := (b.settler, b.marketId);
    var rule := if at in markets then markets[at].rule else UnspecifiedRule;
    var unbounded := at in markets && markets[at].kappa == UNBOUNDED;
    var principal, vested := Value(store, b, Principal), Value(store, b, Vested);
    if at !in markets || unbounded || rule == ClassicRule
    then BookRow(b, principal, vested, None, None, unbounded, x.principal, x.vested, rule)
    else
      var capacity := Value(store, b, Capacity);
      BookRow(b, principal, vested, Some(capacity), Some(Headroom(capacity, vested)), unbounded, x.principal, x.vested, rule)
  }

  function RowsFor(moved: Moved, store: Store, markets: Markets, n: nat): seq<BookRow>
    requires n <= |moved|
  {
    if n == 0 then [] else RowsFor(moved, store, markets, n - 1) + [RowFor(moved[n - 1].0, moved[n - 1].1, store, markets)]
  }

  function MapDeltas(deltas: seq<KeyDelta>, store: Store, markets: Markets): seq<BookRow> {
    var moved := Movements(deltas, |deltas|);
    RowsFor(moved, store, markets, |moved|)
  }

  /** The rows of a block, from its deltas. */
  method CollectRows(deltas: seq<KeyDelta>, store: Store, markets: Markets) returns (rows: seq<BookRow>)
    ensures rows == MapDeltas(deltas, store, markets)
  {
    var moved: Moved := [];
    for i := 0 to |deltas|
      invariant moved == Movements(deltas, i)
    {
      var parsed := ParseBookKey(deltas[i].key);
      if parsed.None? { continue; }
      var (book, field) := parsed.value;
      moved := Bump(moved, book, field, deltas[i].newValue - deltas[i].oldValue);
    }
    rows := [];
    for i := 0 to |moved|
      invariant rows == RowsFor(moved, store, markets, i)
    {
      rows := rows + [RowFor(moved[i].0, moved[i].1, store, markets)];
    }
  }

  // ------------------------------------------------------------------ what movements add up to

  /** The movement booked under b. */
  function At(moved: Moved, b: BookId): Option<Movement> {
    if moved == [] then None else if moved[0].0 == b then Some(moved[0].1) else At(moved[1..], b)
  }

  function OrStill(x: Option<Movement>): Movement {
    match x case None => STILL case Some(m) => m
  }

  lemma {:induction false} BumpOrders(moved: Moved, b: BookId, f: Field, change: int)
    requires Ordered(moved)
    ensures Ordered(Bump(moved, b, f, change))
    ensures forall x :: x in Bump(moved, b, f, change) ==> x.0 == b || x in moved
    decreases |moved|
  {
    if moved != [] {
      LessTotal(b, moved[0].0);
      if Less(b, moved[0].0) {
        forall i | 0 <= i < |moved| ensures Less(b, moved[i].0) {
          if i > 0 { LessTrans(b, moved[0].0, moved[i].0); }
        }
      } else if moved[0].0 != b {
        BumpOrders(moved[1..], b, f, change);
      }
    }
  }

  lemma {:induction false} AtBump(moved: Moved, b: BookId, f: Field, change: int, c: BookId)
    requires Ordered(moved)
    ensures At(Bump(moved, b, f, change), c) ==
            if c == b then Some(Shifted(OrStill(At(moved, b)), f, change)) else At(moved, c)
    decreases |moved|
  {
    if moved == [] {
    } else if Less(b, moved[0].0) {
      NotAt(moved, b);
      assert ([(b, Shifted(STILL, f, change))] + moved)[1..] == moved;
    } else if moved[0].0 != b {
      AtBump(moved[1..], b, f, change, c);
    }
  }

  lemma {:induction false} NotAt(moved: Moved, b: BookId)
    requires Ordered(moved) && moved != [] && Less(b, moved[0].0)
    ensures At(moved, b) == None
    decreases |moved|
  {
    LessTotal(b, moved[0].0);
    if |moved| > 1 {
      LessTrans(b, moved[0].0, moved[1].0);
      NotAt(moved[1..], b);
    }
  }

  // ------------------------------------------------------------------ the store's own deltas

  function DeltaOf(store: Store, a: BookAdd): KeyDelta {
    KeyDelta(BookKey(a.book, a.field), Value(store, a.book, a.field), Value(store, a.book, a.field) + a.amount)
  }

  /** What an additive store reports as it takes the writes one after another. */
  function DeltasOf(store: Store, adds: seq<BookAdd>): (deltas: seq<KeyDelta>)
    ensures |deltas| == |adds|
  {
    if adds == [] then []
    else
      var front := adds[..|adds| - 1];
      DeltasOf(store, front) + [DeltaOf(Applied(store, front), adds[|adds| - 1])]
  }

  /** The movements the writes themselves make. */
  function MovedBy(adds: seq<BookAdd>): Moved {
    if adds == [] then []
    else var a := adds[|adds| - 1]; Bump(MovedBy(adds[..|adds| - 1]), a.book, a.field, a.amount)
  }

  lemma {:induction false} MovementsPrefix(s: seq<KeyDelta>, t: seq<KeyDelta>, n: nat)
    requires n <= |s|
    ensures Movements(s + t, n) == Movements(s, n)
    decreases n
  {
    if n > 0 { MovementsPrefix(s, t, n - 1); }
  }

  lemma MovementsPush(s: seq<KeyDelta>, d: KeyDelta)
    ensures Movements(s + [d], |s| + 1) == Took(Movements(s, |s|), d)
  {
    hide Took;
    MovementsPrefix(s, [d], |s|);
  }

  lemma TookWrite(moved: Moved, store: Store, a: BookAdd)
    requires Named(a.book)
    ensures Took(moved, DeltaOf(store, a)) == Bump(moved, a.book, a.field, a.amount)
  {
    hide BookKey, ParseBookKey, Bump;
    KeyRoundTrip(a.book, a.field);
  }

  /** Reading the keys back out of the deltas recovers the writes. */
  lemma {:induction false} MovementsAreWrites(store: Store, adds: seq<BookAdd>)
    requires AllNamed(adds)
    ensures Movements(DeltasOf(store, adds), |adds|) == MovedBy(adds)
    decreases |adds|
  {
    if adds != [] {
      hide Took, DeltaOf, Bump, Applied, Movements;
      var front, a := adds[..|adds| - 1], adds[|adds| - 1];
      MovementsAreWrites(store, front);
      MovementsPush(DeltasOf(store, front), DeltaOf(Applied(store, front), a));
      TookWrite(MovedBy(front), Applied(store, front), a);
    }
  }

  ghost predicate Touches(adds: seq<BookAdd>, b: BookId) {
    exists i :: 0 <= i < |adds| && adds[i].book == b
  }

  lemma TouchesPush(adds: seq<BookAdd>, b: BookId)
    requires adds != []
    ensures Touches(adds, b) <==> Touches(adds[..|adds| - 1], b) || adds[|adds| - 1].book == b
  {
    if Touches(adds[..|adds| - 1], b) {
      var i :| 0 <= i < |adds| - 1 && adds[..|adds| - 1][i].book == b;
      assert adds[i].book == b;
    }
    if Touches(adds, b) && adds[|adds| - 1].book != b {
      var i :| 0 <= i < |adds| && adds[i].book == b;
      assert adds[..|adds| - 1][i].book == b;
    }
  }

  lemma {:induction false} UntouchedTally(adds: seq<BookAdd>, b: BookId, f: Field)
    requires !Touches(adds, b)
    ensures Tally(adds, b, f) == 0
    decreases |adds|
  {
    if adds != [] {
      TouchesPush(adds, b);
      UntouchedTally(adds[..|adds| - 1], b, f);
    }
  }

  /** A book's movement is the sum of the writes to it; a book no write touches has none. */
  lemma {:induction false} MovedSums(adds: seq<BookAdd>, b: BookId)
    ensures Ordered(MovedBy(adds))
    ensures At(MovedBy(adds), b) == if Touches(adds, b)
                                    then Some(Movement(Tally(adds, b, Principal), Tally(adds, b, Vested))) else None
    decreases |adds|
  {
    if adds != [] {
      var front, a := adds[..|adds| - 1], adds[|adds| - 1];
      MovedSums(front, b);
      MovedSums(front, a.book);
      TouchesPush(adds, b);
      BumpOrders(MovedBy(front), a.book, a.field, a.amount);
      AtBump(MovedBy(front), a.book, a.field, a.amount, b);
      if !Touches(front, b) {
        UntouchedTally(front, b, Principal);
        UntouchedTally(front, b, Vested);
      }
    }
  }

  lemma {:induction false} AtNth(moved: Moved, i: nat)
    requires Ordered(moved) && i < |moved|
    ensures At(moved, moved[i].0) == Some(moved[i].1)
    decreases i
  {
    if i > 0 {
      LessTotal(moved[0].0, moved[i].0);
      AtNth(moved[1..], i - 1);
    }
  }

  lemma {:induction false} AtSomewhere(moved: Moved, b: BookId) returns (i: nat)
    requires At(moved, b).Some?
    ensures i < |moved| && moved[i].0 == b
    decreases |moved|
  {
    if moved[0].0 == b {
      i := 0;
    } else {
      var j := AtSomewhere(moved[1..], b);
      i := j + 1;
    }
  }

  lemma {:induction false} RowsNth(moved: Moved, store: Store, markets: Markets, n: nat)
    requires n <= |moved|
    ensures |RowsFor(moved, store, markets, n)| == n
    ensures forall i :: 0 <= i < n ==> RowsFor(moved, store, markets, n)[i] == RowFor(moved[i].0, moved[i].1, store, markets)
    decreases n
  {
    if n > 0 { RowsNth(moved, store, markets, n - 1); }
  }

  // ------------------------------------------------------------------ what the rows say

  /** The rows a block's writes lead to. */
  function RowsOf(store: Store, adds: seq<BookAdd>, markets: Markets): seq<BookRow> {
    MapDeltas(DeltasOf(store, adds), Applied(store, adds), markets)
  }

  lemma RowIs(store: Store, adds: seq<BookAdd>, markets: Markets, i: nat)
    requires AllNamed(adds) && i < |RowsOf(store, adds, markets)|
    ensures var b := RowsOf(store, adds, markets)[i].book;
            && Touches(adds, b) && Named(b)
            && RowsOf(store, adds, markets)[i] ==
               RowFor(b, Movement(Tally(adds, b, Principal), Tally(adds, b, Vested)), Applied(store, adds), markets)
  {
    hide Tally;
    var moved := MovedBy(adds);
    MovementsAreWrites(store, adds);
    RowsNth(moved, Applied(store, adds), markets, |moved|);
    var b := moved[i].0;
    MovedSums(adds, b);
    AtNth(moved, i);
    var k :| 0 <= k < |adds| && adds[k].book == b;
  }

  /** Row i snapshots the book after the block, and its deltas are the snapshot less the one
      before; capacity and headroom are reported exactly when the market is known, bounded and
      not of the classic rule. */
  lemma RowIsDifference(store: Store, adds: seq<BookAdd>, markets: Markets, i: nat)
    requires AllNamed(adds) && i < |RowsOf(store, adds, markets)|
    ensures var r, after := RowsOf(store, adds, markets)[i], Applied(store, adds);
            var at := (r.book.settler, r.book.marketId);
            && Touches(adds, r.book)
            && r.principal == Value(after, r.book, Principal) && r.vested == Value(after, r.book, Vested)
            && r.principalDelta == r.principal - Value(store, r.book, Principal)
            && r.vestedDelta == r.vested - Value(store, r.book, Vested)
            && (r.capacity.Some? <==> at in markets && markets[at].kappa != UNBOUNDED && markets[at].rule != ClassicRule)
            && (r.capacity.Some? ==> r.capacity.value == Value(after, r.book, Capacity)
                                     && r.headroom == Some(Headroom(r.capacity.value, r.vested)))
            && (r.capacity.None? ==> r.headroom.None?)
  {
    hide RowsOf, Tally, Applied, BookKey;
    RowIs(store, adds, markets, i);
    var b := RowsOf(store, adds, markets)[i].book;
    AppliedValue(store, adds, b, Principal);
    AppliedValue(store, adds, b, Vested);
  }

  lemma RowBooks(moved: Moved, store: Store, markets: Markets)
    ensures var rows := RowsFor(moved, store, markets, |moved|);
            |rows| == |moved| && forall i :: 0 <= i < |rows| ==> rows[i].book == moved[i].0
  {
    hide Value;
    RowsNth(moved, store, markets, |moved|);
  }

  /** The rows come in the order of books, one for each book a write touched. */
  lemma RowsInOrder(store: Store, adds: seq<BookAdd>, markets: Markets)
    requires AllNamed(adds)
    ensures var rows := RowsOf(store, adds, markets);
            && (forall i, j :: 0 <= i < j < |rows| ==> Less(rows[i].book, rows[j].book))
            && (forall k :: 0 <= k < |adds| ==> exists i :: 0 <= i < |rows| && rows[i].book == adds[k].book)
  {
    hide RowFor, RowsFor, Less, Bump, Applied, Movements, DeltasOf;
    var moved, rows := MovedBy(adds), RowsOf(store, adds, markets);
    MovementsAreWrites(store, adds);
    assert |DeltasOf(store, adds)| == |adds|;
    RowBooks(moved, Applied(store, adds), markets);
    MovedSums(adds, BookId("", 0, 0));
    forall k | 0 <= k < |adds| ensures exists i :: 0 <= i < |rows| && rows[i].book == adds[k].book {
      MovedSums(adds, adds[k].book);
      assert Touches(adds, adds[k].book);
      var i := AtSomewhere(moved, adds[k].book);
      assert rows[i].book == adds[k].book;
    }
  }

  lemma RowHasRoom(run: seq<Feed>, m: Focus, accepted: nat -> nat, i: nat)
    requires NamedFocus(m) && m.shape.kappa != UNBOUNDED && run != [] && GoodRun(run, m, accepted)
    requires var d, before := run[|run| - 1], StoreRun(map[], run[..|run| - 1]);
             var rows := RowsOf(before, BookAdds(d.b, d.markets, d.refs), d.markets);
             && i < |rows| && rows[i].book == BookOf(m, rows[i].book.outcome) && rows[i].book.outcome < m.shape.outcomes
             && (m.settler, m.marketId) in d.markets && d.markets[(m.settler, m.marketId)] == m.shape
    ensures var d, before := run[|run| - 1], StoreRun(map[], run[..|run| - 1]);
            var r := RowsOf(before, BookAdds(d.b, d.markets, d.refs), d.markets)[i];
            && r.capacity == Some(m.shape.kappa * r.principal)
            && r.vested == Opposing(StoreRun(map[], run), m, r.book.outcome, m.shape.outcomes)
            && r.headroom == Some(Headroom(m.shape.kappa * r.principal, r.vested))
  {
    var d, before := run[|run| - 1], StoreRun(map[], run[..|run| - 1]);
    var adds := BookAdds(d.b, d.markets, d.refs);
    FeedNamed(run, m, accepted);
    RowIsDifference(before, adds, d.markets, i);
    BooksConverge(run, m, accepted, RowsOf(before, adds, d.markets)[i].book.outcome);
  }

  /** Over any run a row of the market followed reports the room the mechanism itself has on
      the books as rebuilt: kappa times the principal less the principal of the other outcomes,
      not below zero. */
  lemma RowReportsRoom(run: seq<Feed>, m: Focus, accepted: nat -> nat, i: nat)
    requires NamedFocus(m) && m.shape.kappa != UNBOUNDED && run != [] && GoodRun(run, m, accepted)
    requires var d, before := run[|run| - 1], StoreRun(map[], run[..|run| - 1]);
             var rows := RowsOf(before, BookAdds(d.b, d.markets, d.refs), d.markets);
             && i < |rows| && rows[i].book == BookOf(m, rows[i].book.outcome) && rows[i].book.outcome < m.shape.outcomes
             && (m.settler, m.marketId) in d.markets && d.markets[(m.settler, m.marketId)] == m.shape
    ensures var d, before := run[|run| - 1], StoreRun(map[], run[..|run| - 1]);
            var r := RowsOf(before, BookAdds(d.b, d.markets, d.refs), d.markets)[i];
            && r.capacity == Some(m.shape.kappa * r.principal)
            && r.vested == Opposing(StoreRun(map[], run), m, r.book.outcome, m.shape.outcomes)
            && r.headroom == Some(if m.shape.kappa * r.principal > r.vested then m.shape.kappa * r.principal - r.vested else 0)
  {
    hide GoodRun, RowsOf, BookAdds, StoreRun, Opposing, Headroom;
    RowHasRoom(run, m, accepted, i);
    var d, before := run[|run| - 1], StoreRun(map[], run[..|run| - 1]);
    var r := RowsOf(before, BookAdds(d.b, d.markets, d.refs), d.markets)[i];
    RoomLeft(m.shape.kappa * r.principal, r.vested);
  }

  lemma RoomLeft(capacity: int, vested: int)
    ensures Headroom(capacity, vested) == if capacity > vested then capacity - vested else 0
  {
  }

  lemma FeedNamed(run: seq<Feed>, m: Focus, accepted: nat -> nat)
    requires run != [] && GoodRun(run, m, accepted)
    ensures var d := run[|run| - 1]; AllNamed(BookAdds(d.b, d.markets, d.refs))
  {
    var d := run[|run| - 1];
    EntriesNamed(d, |d.b.entries|);
    RefundsNamed(d, |d.b.settlements|);
    SortedNamed(Unsorted(d.b, d.markets, d.refs));
  }
}
