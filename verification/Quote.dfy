/** The client's quote: joint demand rebuilt from the open vintage, the room of each opposing
    book, and the largest stake it promises is accepted whole. */
module Quote {
  import opened Numbers
  import opened Rationing
  import opened Vintages
  import Sorting
  import VestedWorld

  // ------------------------------------------------------------------ the open vintage

  /** What the index answers about a market's open vintage. */
  datatype VintageField =
    | NotAsked
    | NoVintage
    | RawVintage(block: int, offered: nat, entryCount: int, entries: seq<Entry>)

  datatype Offers = Offers(offered: int, byOutcome: map<nat, int>)

  datatype OpenVintage = OpenVintage(open: bool, block: Option<int>, offers: Option<Offers>)

  /** Everything offered in the vintage. */
  function OfferedIn(entries: seq<Entry>): nat {
    if |entries| == 0 then 0 else OfferedIn(entries[..|entries| - 1]) + entries[|entries| - 1].offered
  }

  /** Everything offered on outcome w. */
  function OfferedOn(entries: seq<Entry>, w: nat): nat {
    if |entries| == 0 then 0
    else
      var e := entries[|entries| - 1];
      OfferedOn(entries[..|entries| - 1], w) + if e.outcome == w then e.offered else 0
  }

  function Lookup(m: map<nat, int>, w: nat): int {
    if w in m then m[w] else 0
  }

  /** The vintage was read whole: every entry is there and they add up. */
  predicate Whole(f: VintageField) {
    f.RawVintage? && |f.entries| == f.entryCount && OfferedIn(f.entries) == f.offered
  }

  method DecodeOpenVintage(f: VintageField) returns (read: bool, v: OpenVintage)
    ensures read == !f.NotAsked?
    ensures !f.RawVintage? ==> !v.open && v.block == None
    ensures f.NotAsked? ==> v.offers == None
    ensures f.NoVintage? ==> v.offers == Some(Offers(0, map[]))
    ensures f.RawVintage? ==>
              && v.open && v.block == Some(f.block)
              && (v.offers.Some? <==> Whole(f))
              && (Whole(f) ==> v.offers.value.offered == f.offered &&
                               forall w: nat :: Lookup(v.offers.value.byOutcome, w) == OfferedOn(f.entries, w))
  {
    if f.NotAsked? { return false, OpenVintage(false, None, None); }
    if f.NoVintage? { return true, OpenVintage(false, None, Some(Offers(0, map[]))); }
    var byOutcome: map<nat, int> := map[];
    var seen := 0;
    for k := 0 to |f.entries|
      invariant seen == OfferedIn(f.entries[..k])
      invariant forall w: nat :: Lookup(byOutcome, w) == OfferedOn(f.entries[..k], w)
    {
      var e := f.entries[k];
      assert f.entries[..k + 1][..k] == f.entries[..k];
      byOutcome := byOutcome[e.outcome := Lookup(byOutcome, e.outcome) + e.offered];
      seen := seen + e.offered;
    }
    assert f.entries[..|f.entries|] == f.entries;
    var whole := |f.entries| == f.entryCount && seen == f.offered;
    v := OpenVintage(true, Some(f.block), if whole then Some(Offers(f.offered, byOutcome)) else None);
    read := true;
  }

  /** Everything offered but on this outcome; nothing can be said of a vintage not read whole. */
  function DemandFor(v: OpenVintage, outcome: nat): Option<int> {
    if v.offers.None? then None
    else Some(v.offers.value.offered - Lookup(v.offers.value.byOutcome, outcome))
  }

  /** Total less own is the sum of the entries on other outcomes. */
  lemma {:induction false} DemandRebuilt(entries: seq<Entry>, w: nat)
    ensures OfferedIn(entries) - OfferedOn(entries, w) == Demand(entries, w)
  {
    if |entries| > 0 { DemandRebuilt(entries[..|entries| - 1], w); }
  }

  // ------------------------------------------------------------------ rooms

  /** capacity is None when unbounded, demand None when the vintage was not read whole. */
  datatype Book = Book(outcome: nat, capacity: Option<int>, vested: int, demand: Option<int>)

  datatype Market = Market(vintageOpen: Option<bool>, vintageBlock: Option<int>, books: seq<Book>)

  datatype Room = Room(outcome: nat, headroom: Option<int>, competing: int, allowance: Option<int>)

  datatype Headroom = Headroom(outcome: nat, own: Option<int>, bindingHeadroom: Option<int>, bindingOutcome: Option<nat>,
                               maxFullyAccepted: Option<int>, competing: int, opposing: seq<Room>)

  function Max0(x: int): int {
    if x > 0 then x else 0
  }

  function BookHeadroom(b: Book): Option<int> {
    if b.capacity.None? then None else Some(Max0(b.capacity.value - b.vested))
  }

  /** An open vintage counts against a quote only if it belongs to the head block. */
  function CompetingDemand(m: Market, b: Book, headBlock: int): int {
    if m.vintageOpen != Some(true) || m.vintageBlock != Some(headBlock) then 0
    else if b.demand.None? then 0 else b.demand.value
  }

  function RoomOf(m: Market, b: Book, headBlock: int): Room {
    var headroom, demand := BookHeadroom(b), CompetingDemand(m, b, headBlock);
    Room(b.outcome, headroom, demand, if headroom.None? then None else Some(Max0(headroom.value - demand)))
  }

  /** The rooms of the first k books that oppose `outcome`. */
  function Rooms(m: Market, outcome: nat, headBlock: int, k: nat): seq<Room>
    requires k <= |m.books|
  {
    if k == 0 then []
    else
      var before := Rooms(m, outcome, headBlock, k - 1);
      if m.books[k - 1].outcome != outcome then before + [RoomOf(m, m.books[k - 1], headBlock)] else before
  }

  /** Room k is the first with the least allowance among the first n. */
  predicate Tightest(rooms: seq<Room>, n: nat, k: nat)
    requires n <= |rooms|
  {
    && k < n && rooms[k].allowance.Some?
    && (forall j :: 0 <= j < n && rooms[j].allowance.Some? ==> rooms[k].allowance.value <= rooms[j].allowance.value)
    && (forall j :: 0 <= j < k && rooms[j].allowance.Some? ==> rooms[k].allowance.value < rooms[j].allowance.value)
  }

  predicate NoLimit(rooms: seq<Room>, n: nat)
    requires n <= |rooms|
  {
    forall j :: 0 <= j < n ==> rooms[j].allowance.None?
  }

  /** The answer about an outcome: everything describing the binding book comes from the one
      book with the least room, the first such in book order. */
  ghost predicate Answers(m: Market, h: Headroom, headBlock: int) {
    && h.opposing == Rooms(m, h.outcome, headBlock, |m.books|)
    && (|h.opposing| == 0 ==>
          h.maxFullyAccepted == Some(0) && h.bindingHeadroom == Some(0) && h.bindingOutcome == None && h.competing == 0)
    && (|h.opposing| > 0 && NoLimit(h.opposing, |h.opposing|) ==>
          h.maxFullyAccepted == None && h.bindingHeadroom == None && h.bindingOutcome == None && h.competing == 0)
    && (|h.opposing| > 0 && !NoLimit(h.opposing, |h.opposing|) ==>
          exists k :: 0 <= k < |h.opposing| && Tightest(h.opposing, |h.opposing|, k)
                      && Answered(h, h.opposing[k]))
  }

  predicate Answered(h: Headroom, r: Room) {
    && h.maxFullyAccepted == r.allowance && h.bindingHeadroom == r.headroom
    && h.bindingOutcome == Some(r.outcome) && h.competing == r.competing
  }

  /** Book k is the first on this outcome. */
  ghost predicate FirstOn(books: seq<Book>, outcome: nat, k: nat) {
    k < |books| && books[k].outcome == outcome && forall j :: 0 <= j < k ==> books[j].outcome != outcome
  }

  method OutcomeHeadroom(m: Market, outcome: nat, headBlock: int) returns (h: Headroom)
    ensures h.outcome == outcome && Answers(m, h, headBlock)
    ensures (forall b :: b in m.books ==> b.outcome != outcome) ==> h.own == Some(0)
    ensures forall k :: 0 <= k < |m.books| && FirstOn(m.books, outcome, k) ==> h.own == BookHeadroom(m.books[k])
  {
    hide RoomOf, BookHeadroom;
    var own := OwnHeadroom(m, outcome);
    var opposing := OpposingRooms(m, outcome, headBlock);
    if |opposing| == 0 { return Headroom(outcome, own, Some(0), None, Some(0), 0, opposing); }
    var binding: Option<Room> := None;
    ghost var at := 0;
    for k := 0 to |opposing|
      invariant binding.None? ==> NoLimit(opposing, k)
      invariant binding.Some? ==> Tightest(opposing, k, at) && opposing[at] == binding.value
    {
      var room := opposing[k];
      if room.allowance.None? { continue; }
      if binding.None? || room.allowance.value < binding.value.allowance.value {
        binding := Some(room);
        at := k;
      }
    }
    if binding.None? { return Headroom(outcome, own, None, None, None, 0, opposing); }
    h := Headroom(outcome, own, binding.value.headroom, Some(binding.value.outcome), binding.value.allowance,
                  binding.value.competing, opposing);
    assert Tightest(opposing, |opposing|, at) && Answered(h, opposing[at]);
  }

  /** The headroom of the first book on this outcome; none reads as zero. */
  method OwnHeadroom(m: Market, outcome: nat) returns (own: Option<int>)
    ensures (forall b :: b in m.books ==> b.outcome != outcome) ==> own == Some(0)
    ensures forall k :: 0 <= k < |m.books| && FirstOn(m.books, outcome, k) ==> own == BookHeadroom(m.books[k])
  {
    hide BookHeadroom;
    for k := 0 to |m.books|
      invariant forall j :: 0 <= j < k ==> m.books[j].outcome != outcome
    {
      if m.books[k].outcome == outcome { return BookHeadroom(m.books[k]); }
    }
    own := Some(0);
  }

  method OpposingRooms(m: Market, outcome: nat, headBlock: int) returns (opposing: seq<Room>)
    ensures opposing == Rooms(m, outcome, headBlock, |m.books|)
  {
    opposing := [];
    for k := 0 to |m.books|
      invariant opposing == Rooms(m, outcome, headBlock, k)
    {
      if m.books[k].outcome == outcome { continue; }
      opposing := opposing + [RoomOf(m, m.books[k], headBlock)];
    }
  }

  // ------------------------------------------------------------------ the quote is exact

  /** A room as the rationing rule takes it. */
  function AsRule(r: Room): OpposingBook {
    OpposingBook(if r.headroom.None? then UNBOUNDED else r.headroom.value, r.competing)
  }

  function AsRules(rooms: seq<Room>): (rules: seq<OpposingBook>)
    ensures |rules| == |rooms|
  {
    seq(|rooms|, j requires 0 <= j < |rooms| => AsRule(rooms[j]))
  }

  /** A room is as RoomOf makes it, with a bounded headroom below the sentinel. */
  ghost predicate Plain(r: Room) {
    && r.competing >= 0
    && (r.headroom.Some? ==> 0 <= r.headroom.value < UNBOUNDED && r.allowance == Some(Max0(r.headroom.value - r.competing)))
    && (r.headroom.None? ==> r.allowance == None)
  }

  /** One book takes a positive stake whole exactly when it is within the allowance. */
  lemma RoomTakes(r: Room, c: int)
    requires Plain(r) && c > 0
    ensures Sound(AsRule(r))
    ensures !Binds(AsRule(r), c) <==> r.allowance.None? || c <= r.allowance.value
  {
  }

  /** The exact quote, for plain rooms: a stake is accepted whole by the rationing rule exactly
      when it is at most the least allowance, or no room has one. */
  lemma QuoteIsExact(rooms: seq<Room>, c: int)
    requires c >= 0 && forall j :: 0 <= j < |rooms| ==> Plain(rooms[j])
    ensures AllSound(AsRules(rooms))
    ensures Accepts(AsRules(rooms), c) == c <==>
            c == 0 || forall j :: 0 <= j < |rooms| && rooms[j].allowance.Some? ==> c <= rooms[j].allowance.value
  {
    assert AllSound(AsRules(rooms)) by {
      forall j | 0 <= j < |rooms| ensures Sound(AsRules(rooms)[j]) { RoomTakes(rooms[j], 1); }
    }
    AcceptedInFullIff(AsRules(rooms), c);
    if c > 0 {
      forall j | 0 <= j < |rooms|
        ensures !Binds(AsRules(rooms)[j], c) <==> rooms[j].allowance.None? || c <= rooms[j].allowance.value
      {
        RoomTakes(rooms[j], c);
      }
      assert (forall j :: 0 <= j < |rooms| && rooms[j].allowance.Some? ==> c <= rooms[j].allowance.value)
        <==> (forall j :: 0 <= j < |rooms| ==> !Binds(AsRules(rooms)[j], c));
    }
  }

  /** A book as the index answers it. */
  datatype RawBook = RawBook(outcome: nat, capacity: nat, capacityIsUnbounded: bool, vested: nat)

  /** The demand a book of the market is given: its share of a whole vintage, zero when none
      is open, nothing when the vintage was not asked for or not read whole. */
  function DemandFrom(f: VintageField, outcome: nat): Option<int> {
    if f.NoVintage? then Some(0)
    else if Whole(f) then Some(OfferedIn(f.entries) - OfferedOn(f.entries, outcome))
    else None
  }

  function CapacityFrom(b: RawBook, kappaUnbounded: bool): Option<int> {
    if kappaUnbounded || b.capacityIsUnbounded then None else Some(b.capacity)
  }

  function BookFrom(f: VintageField, b: RawBook, kappaUnbounded: bool): Book {
    Book(b.outcome, CapacityFrom(b, kappaUnbounded), b.vested, DemandFrom(f, b.outcome))
  }

  function BooksFrom(f: VintageField, raw: seq<RawBook>, kappaUnbounded: bool): (books: seq<Book>)
    ensures |books| == |raw|
  {
    seq(|raw|, k requires 0 <= k < |raw| => BookFrom(f, raw[k], kappaUnbounded))
  }

  function OutcomeOf(b: Book): int {
    b.outcome
  }

  /** The parts of a decoded market that a quote reads: its books sorted by outcome, whatever order
      the index answered them in. */
  function MarketFrom(f: VintageField, raw: seq<RawBook>, kappaUnbounded: bool): Market {
    Market(if f.NotAsked? then None else Some(f.RawVintage?), if f.RawVintage? then Some(f.block) else None,
           Sorting.Sorted(BooksFrom(f, raw, kappaUnbounded), OutcomeOf))
  }

  method DecodeMarket(f: VintageField, raw: seq<RawBook>, kappaUnbounded: bool) returns (m: Market)
    ensures m == MarketFrom(f, raw, kappaUnbounded)
  {
    var read, vintage := DecodeOpenVintage(f);
    var books: seq<Book> := [];
    for k := 0 to |raw|
      invariant books == BooksFrom(f, raw, kappaUnbounded)[..k]
    {
      var b := raw[k];
      books := books + [Book(b.outcome, CapacityFrom(b, kappaUnbounded), b.vested, DemandFor(vintage, b.outcome))];
    }
    assert books == BooksFrom(f, raw, kappaUnbounded);
    books := Sorting.Sorted(books, OutcomeOf);
    m := Market(if read then Some(vintage.open) else None, vintage.block, books);
  }

  /** A decoded market has every book that was answered, and no other, in outcome order; books of
      one outcome stay in the order they were answered in. */
  lemma DecodedBooks(f: VintageField, raw: seq<RawBook>, kappaUnbounded: bool, outcome: nat)
    ensures var books := MarketFrom(f, raw, kappaUnbounded).books;
            && Sorting.InOrder(books, OutcomeOf)
            && multiset(books) == multiset(BooksFrom(f, raw, kappaUnbounded))
            && Sorting.Of(books, OutcomeOf, outcome) == Sorting.Of(BooksFrom(f, raw, kappaUnbounded), OutcomeOf, outcome)
  {
    Sorting.SortedInOrder(BooksFrom(f, raw, kappaUnbounded), OutcomeOf);
    Sorting.SortedStable(BooksFrom(f, raw, kappaUnbounded), OutcomeOf, outcome);
  }

  /** The books of the decoded market are those of the raw answer. */
  lemma DecodedBook(f: VintageField, raw: seq<RawBook>, kappaUnbounded: bool, b: Book)
    ensures b in MarketFrom(f, raw, kappaUnbounded).books <==> exists r :: r in raw && b == BookFrom(f, r, kappaUnbounded)
  {
    hide BookFrom, Sorting.Sorted, Sorting.Of, Sorting.InOrder;
    var books, sorted := BooksFrom(f, raw, kappaUnbounded), MarketFrom(f, raw, kappaUnbounded).books;
    DecodedBooks(f, raw, kappaUnbounded, 0);
    assert b in sorted <==> b in multiset(sorted);
    assert b in books <==> b in multiset(books);
    if r :| r in raw && b == BookFrom(f, r, kappaUnbounded) {
      var k :| 0 <= k < |raw| && raw[k] == r;
      assert books[k] == b;
    }
  }

  /** The market was decoded from a vintage read whole and open in the head block, its
      capacities below the sentinel. */
  ghost predicate Decoded(m: Market, f: VintageField, headBlock: int) {
    && Whole(f) && f.block == headBlock
    && m.vintageOpen == Some(true) && m.vintageBlock == Some(headBlock)
    && forall k :: 0 <= k < |m.books| ==>
         && m.books[k].demand == DemandFrom(f, m.books[k].outcome)
         && m.books[k].vested >= 0
         && (m.books[k].capacity.Some? ==> 0 <= m.books[k].capacity.value < UNBOUNDED)
  }

  lemma {:induction false} RoomsDecoded(m: Market, f: VintageField, outcome: nat, headBlock: int, k: nat, j: nat)
    requires Decoded(m, f, headBlock) && k <= |m.books| && j < |Rooms(m, outcome, headBlock, k)|
    ensures var r := Rooms(m, outcome, headBlock, k)[j];
            Plain(r) && r.outcome != outcome && r.competing == Demand(f.entries, r.outcome)
  {
    var before := Rooms(m, outcome, headBlock, k - 1);
    if j < |before| {
      RoomsDecoded(m, f, outcome, headBlock, k - 1, j);
    } else {
      DemandRebuilt(f.entries, m.books[k - 1].outcome);
    }
  }

  /** The client's promise: with at least one opposing book, a stake is accepted whole by the
      rule, against everything else in the vintage, exactly when it is at most
      maxFullyAccepted, and always when that is unbounded. */
  lemma PromiseIsExact(m: Market, f: VintageField, h: Headroom, headBlock: int, c: int)
    requires Decoded(m, f, headBlock) && Answers(m, h, headBlock) && |h.opposing| > 0 && c >= 0
    ensures AllSound(AsRules(h.opposing))
    ensures Accepts(AsRules(h.opposing), c) == c <==> h.maxFullyAccepted.None? || c <= h.maxFullyAccepted.value
    ensures forall j :: 0 <= j < |h.opposing| ==>
              AsRules(h.opposing)[j].otherDemand == Demand(f.entries, h.opposing[j].outcome)
  {
    forall j | 0 <= j < |h.opposing|
      ensures Plain(h.opposing[j]) && h.opposing[j].competing == Demand(f.entries, h.opposing[j].outcome)
    {
      RoomsDecoded(m, f, h.outcome, headBlock, |m.books|, j);
    }
    QuoteIsExact(h.opposing, c);
    if NoLimit(h.opposing, |h.opposing|) {
      assert h.maxFullyAccepted == None;
    } else {
      var k :| 0 <= k < |h.opposing| && Tightest(h.opposing, |h.opposing|, k) && Answered(h, h.opposing[k]);
      assert Plain(h.opposing[k]);
    }
  }

  // ------------------------------------------------------------------ from the raw answer to the quote

  /** A raw book as the rationing rule takes it: its headroom, and everything offered against it. */
  function RuleFrom(f: VintageField, b: RawBook, kappaUnbounded: bool): OpposingBook
    requires f.RawVintage?
  {
    var capacity := CapacityFrom(b, kappaUnbounded);
    OpposingBook(if capacity.None? then UNBOUNDED else Max0(capacity.value - b.vested), Demand(f.entries, b.outcome))
  }

  /** The rules of the raw books against `outcome`, in the order they were answered. */
  function RulesFrom(f: VintageField, raw: seq<RawBook>, kappaUnbounded: bool, outcome: nat): seq<OpposingBook>
    requires f.RawVintage?
  {
    if raw == [] then []
    else
      var front, b := RulesFrom(f, raw[..|raw| - 1], kappaUnbounded, outcome), raw[|raw| - 1];
      if b.outcome != outcome then front + [RuleFrom(f, b, kappaUnbounded)] else front
  }

  lemma {:induction false} RulesAre(f: VintageField, raw: seq<RawBook>, kappaUnbounded: bool, outcome: nat, x: OpposingBook)
    requires f.RawVintage?
    ensures x in RulesFrom(f, raw, kappaUnbounded, outcome) <==>
            exists b :: b in raw && b.outcome != outcome && x == RuleFrom(f, b, kappaUnbounded)
  {
    if raw != [] {
      RulesAre(f, raw[..|raw| - 1], kappaUnbounded, outcome, x);
      assert raw == raw[..|raw| - 1] + [raw[|raw| - 1]];
    }
  }

  lemma {:induction false} RoomsAre(m: Market, outcome: nat, headBlock: int, k: nat, r: Room)
    requires k <= |m.books|
    ensures r in Rooms(m, outcome, headBlock, k) <==>
            exists b :: b in m.books[..k] && b.outcome != outcome && r == RoomOf(m, b, headBlock)
  {
    if k > 0 {
      RoomsAre(m, outcome, headBlock, k - 1, r);
      assert m.books[..k] == m.books[..k - 1] + [m.books[k - 1]];
    }
  }

  /** Every bounded capacity answered is a number and not the sentinel. */
  ghost predicate Numeric(raw: seq<RawBook>) {
    forall b :: b in raw && !b.capacityIsUnbounded ==> b.capacity < UNBOUNDED
  }

  lemma DecodesWell(f: VintageField, raw: seq<RawBook>, kappaUnbounded: bool, headBlock: int)
    requires Whole(f) && f.block == headBlock && Numeric(raw)
    ensures Decoded(MarketFrom(f, raw, kappaUnbounded), f, headBlock)
  {
    var m := MarketFrom(f, raw, kappaUnbounded);
    forall k | 0 <= k < |m.books|
      ensures m.books[k].demand == DemandFrom(f, m.books[k].outcome) && m.books[k].vested >= 0
      ensures m.books[k].capacity.Some? ==> 0 <= m.books[k].capacity.value < UNBOUNDED
    {
      DecodedBook(f, raw, kappaUnbounded, m.books[k]);
    }
  }

  lemma RoomIsRule(f: VintageField, m: Market, b: RawBook, kappaUnbounded: bool, headBlock: int)
    requires Whole(f) && f.block == headBlock && m.vintageOpen == Some(true) && m.vintageBlock == Some(headBlock)
    ensures AsRule(RoomOf(m, BookFrom(f, b, kappaUnbounded), headBlock)) == RuleFrom(f, b, kappaUnbounded)
  {
    DemandRebuilt(f.entries, b.outcome);
  }

  /** The rules the quote goes by are those of the raw books. */
  lemma SameRules(f: VintageField, raw: seq<RawBook>, kappaUnbounded: bool, headBlock: int, outcome: nat, x: OpposingBook)
    requires f.RawVintage? && Whole(f) && f.block == headBlock
    ensures var m := MarketFrom(f, raw, kappaUnbounded);
            x in AsRules(Rooms(m, outcome, headBlock, |m.books|)) <==> x in RulesFrom(f, raw, kappaUnbounded, outcome)
  {
    hide RoomOf, RuleFrom, AsRule, BookFrom, MarketFrom, Rooms, RulesFrom, Whole;
    var m := MarketFrom(f, raw, kappaUnbounded);
    var rooms := Rooms(m, outcome, headBlock, |m.books|);
    MarketParts(f, raw, kappaUnbounded);
    assert m.books[..|m.books|] == m.books;
    RulesAre(f, raw, kappaUnbounded, outcome, x);
    if x in AsRules(rooms) {
      var j :| 0 <= j < |rooms| && AsRules(rooms)[j] == x;
      RoomsAre(m, outcome, headBlock, |m.books|, rooms[j]);
      var b :| b in m.books && b.outcome != outcome && rooms[j] == RoomOf(m, b, headBlock);
      DecodedBook(f, raw, kappaUnbounded, b);
      var r :| r in raw && b == BookFrom(f, r, kappaUnbounded);
      RoomIsRule(f, m, r, kappaUnbounded, headBlock);
      BookOutcome(f, r, kappaUnbounded);
    }
    if x in RulesFrom(f, raw, kappaUnbounded, outcome) {
      var r :| r in raw && r.outcome != outcome && x == RuleFrom(f, r, kappaUnbounded);
      var b := BookFrom(f, r, kappaUnbounded);
      BookOutcome(f, r, kappaUnbounded);
      DecodedBook(f, raw, kappaUnbounded, b);
      RoomIsRule(f, m, r, kappaUnbounded, headBlock);
      RoomsAre(m, outcome, headBlock, |m.books|, RoomOf(m, b, headBlock));
      var j :| 0 <= j < |rooms| && rooms[j] == RoomOf(m, b, headBlock);
      assert AsRules(rooms)[j] == x;
    }
  }

  lemma BookOutcome(f: VintageField, r: RawBook, kappaUnbounded: bool)
    ensures BookFrom(f, r, kappaUnbounded).outcome == r.outcome
  {
  }

  lemma MarketParts(f: VintageField, raw: seq<RawBook>, kappaUnbounded: bool)
    requires Whole(f)
    ensures MarketFrom(f, raw, kappaUnbounded).vintageOpen == Some(true)
    ensures MarketFrom(f, raw, kappaUnbounded).vintageBlock == Some(f.block)
  {
  }

  /** The exact quote, from what the index answered: with the vintage read whole and open in the
      head block and some book against the outcome, a stake is accepted whole by the rule, set
      against all that is offered, exactly when it is at most maxFullyAccepted, and always when
      that is unbounded. */
  lemma QuoteFromAnswer(f: VintageField, raw: seq<RawBook>, kappaUnbounded: bool, headBlock: int, h: Headroom, c: int)
    requires f.RawVintage? && Whole(f) && f.block == headBlock && Numeric(raw) && c >= 0
    requires Answers(MarketFrom(f, raw, kappaUnbounded), h, headBlock)
    requires exists b :: b in raw && b.outcome != h.outcome
    ensures var rules := RulesFrom(f, raw, kappaUnbounded, h.outcome);
            && AllSound(rules)
            && (Accepts(rules, c) == c <==> h.maxFullyAccepted.None? || c <= h.maxFullyAccepted.value)
  {
    hide MarketFrom, RulesFrom, Rooms, RuleFrom, Whole, Decoded, Accepts, Binds, Sound;
    var m, rules := MarketFrom(f, raw, kappaUnbounded), RulesFrom(f, raw, kappaUnbounded, h.outcome);
    var quoted := AsRules(h.opposing);
    DecodesWell(f, raw, kappaUnbounded, headBlock);
    forall x ensures x in quoted <==> x in rules { SameRules(f, raw, kappaUnbounded, headBlock, h.outcome, x); }
    var b :| b in raw && b.outcome != h.outcome;
    RulesAre(f, raw, kappaUnbounded, h.outcome, RuleFrom(f, b, kappaUnbounded));
    assert RuleFrom(f, b, kappaUnbounded) in quoted;
    PromiseIsExact(m, f, h, headBlock, c);
    SameFate(quoted, rules, c);
  }

  /** Books in another order accept a stake whole alike. */
  lemma SameFate(these: seq<OpposingBook>, those: seq<OpposingBook>, c: int)
    requires AllSound(these) && c >= 0 && forall x :: x in these <==> x in those
    ensures AllSound(those) && (Accepts(these, c) == c <==> Accepts(those, c) == c)
  {
    hide Accepts, Binds;
    forall k | 0 <= k < |those| ensures Sound(those[k]) { assert those[k] in these; }
    AcceptedInFullIff(these, c);
    AcceptedInFullIff(those, c);
    assert (forall j :: 0 <= j < |these| ==> !Binds(these[j], c)) <==> (forall x :: x in these ==> !Binds(x, c));
    assert (forall j :: 0 <= j < |those| ==> !Binds(those[j], c)) <==> (forall x :: x in those ==> !Binds(x, c));
  }

  lemma BindingRoom(m: Market, h: Headroom, headBlock: int) returns (k: nat)
    requires Answers(m, h, headBlock) && h.bindingOutcome.Some?
    ensures h.opposing == Rooms(m, h.outcome, headBlock, |m.books|)
    ensures Tightest(h.opposing, |h.opposing|, k)
    ensures h.maxFullyAccepted == h.opposing[k].allowance && h.bindingOutcome == Some(h.opposing[k].outcome)
  {
    hide RoomOf, Rooms;
    k :| 0 <= k < |h.opposing| && Tightest(h.opposing, |h.opposing|, k) && Answered(h, h.opposing[k]);
  }

  /** Of the books with the least allowance the quote names the one with the lowest outcome. */
  lemma BindsLowest(f: VintageField, raw: seq<RawBook>, kappaUnbounded: bool, headBlock: int, h: Headroom, j: nat)
    requires Answers(MarketFrom(f, raw, kappaUnbounded), h, headBlock) && h.bindingOutcome.Some?
    requires j < |h.opposing| && h.opposing[j].allowance == h.maxFullyAccepted
    ensures h.bindingOutcome.value <= h.opposing[j].outcome
  {
    hide RoomOf, MarketFrom, Rooms, Answers, Sorting.Of, Sorting.InOrder;
    var m := MarketFrom(f, raw, kappaUnbounded);
    DecodedBooks(f, raw, kappaUnbounded, 0);
    var k := BindingRoom(m, h, headBlock);
    if k < j { RoomsInOrder(m, h.outcome, headBlock, |m.books|, k, j); }
  }

  lemma {:induction false} RoomsInOrder(m: Market, outcome: nat, headBlock: int, n: nat, i: nat, j: nat)
    requires n <= |m.books| && Sorting.InOrder(m.books, OutcomeOf) && i < j < |Rooms(m, outcome, headBlock, n)|
    ensures Rooms(m, outcome, headBlock, n)[i].outcome <= Rooms(m, outcome, headBlock, n)[j].outcome
    decreases n
  {
    var before := Rooms(m, outcome, headBlock, n - 1);
    if j < |before| {
      RoomsInOrder(m, outcome, headBlock, n - 1, i, j);
    } else {
      RoomsAre(m, outcome, headBlock, n - 1, before[i]);
      var b :| b in m.books[..n - 1] && b.outcome != outcome && before[i] == RoomOf(m, b, headBlock);
      var k :| 0 <= k < n - 1 && m.books[k] == b;
      assert OutcomeOf(m.books[k]) <= OutcomeOf(m.books[n - 1]);
    }
  }

  // ------------------------------------------------------------------ three previews of one payout

  /** floor(s * (A_now - A_entry) / SCALE), nothing for a delta or a stake of zero or less. */
  function EarnedVesting(accepted: int, entryAcc: int, acc: int): int {
    if acc - entryAcc <= 0 || accepted <= 0 then 0 else (accepted * (acc - entryAcc)) / SCALE
  }

  function ClientPayout(accepted: int, entryAcc: int, acc: int): int {
    accepted + EarnedVesting(accepted, entryAcc, acc)
  }

  /** The venue index's preview of a position on the side that wins. */
  function IndexPayout(accepted: int, entryAcc: int, acc: int): int {
    if accepted == 0 then 0
    else if acc < entryAcc then accepted
    else TruncDiv(accepted * (SCALE + acc - entryAcc), SCALE)
  }

  /** Client, index and settler pay alike any stake of zero or more once its entry
      accumulator is not ahead of the book's. */
  lemma PreviewsAgree(accepted: int, entryAcc: int, acc: int)
    requires accepted >= 0 && entryAcc <= acc
    ensures ClientPayout(accepted, entryAcc, acc) == IndexPayout(accepted, entryAcc, acc)
            == VestedWorld.PayoutIfWins(accepted, entryAcc, acc)
  {
    var d := acc - entryAcc;
    assert accepted * (SCALE + acc - entryAcc) == accepted * SCALE + accepted * d;
    MulMono(0, d, accepted);
    FloorShift(accepted * d, accepted, SCALE);
    if d == 0 { assert accepted * d == 0; }
  }

  /** With the entry accumulator ahead of the book's, the settler's formula falls below the
      principal both previews promise, for every stake above zero. */
  lemma PreviewsClamp(accepted: int, entryAcc: int, acc: int)
    requires accepted > 0 && acc < entryAcc
    ensures ClientPayout(accepted, entryAcc, acc) == IndexPayout(accepted, entryAcc, acc) == accepted
    ensures VestedWorld.PayoutIfWins(accepted, entryAcc, acc) < accepted
  {
    var x := SCALE + acc - entryAcc;
    MulMono(x, SCALE - 1, accepted);
    if accepted * x >= 0 {
      FloorIsGreatest(accepted, accepted * x, SCALE);
    } else {
      DivNonNegative(-(accepted * x), SCALE);
    }
  }
}
