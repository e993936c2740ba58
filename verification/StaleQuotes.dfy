/** A quote while no vintage is open, or the one that is belongs to an earlier block: the next entry
    rolls it, so nothing offered in it counts against that entry. */
module StaleQuotes {
  import opened Numbers
  import opened Rationing
  import opened Quote

  /** The open vintage is the one a new entry would join. */
  ghost predicate Joins(f: VintageField, headBlock: int) {
    f.RawVintage? && f.block == headBlock
  }

  /** What a book leaves room for with nothing else offered against it. */
  function Alone(b: RawBook, kappaUnbounded: bool): OpposingBook {
    OpposingBook(if kappaUnbounded || b.capacityIsUnbounded then UNBOUNDED
                 else if b.capacity > b.vested then b.capacity - b.vested else 0, 0)
  }

  /** The books against `outcome`, with nothing offered against any. */
  function AgainstAlone(raw: seq<RawBook>, outcome: nat, kappaUnbounded: bool): seq<OpposingBook> {
    if raw == [] then []
    else if raw[0].outcome == outcome then AgainstAlone(raw[1..], outcome, kappaUnbounded)
    else [Alone(raw[0], kappaUnbounded)] + AgainstAlone(raw[1..], outcome, kappaUnbounded)
  }

  lemma {:induction false} AgainstAre(raw: seq<RawBook>, outcome: nat, kappaUnbounded: bool, x: OpposingBook)
    ensures x in AgainstAlone(raw, outcome, kappaUnbounded) <==>
            exists b :: b in raw && b.outcome != outcome && x == Alone(b, kappaUnbounded)
  {
    hide Alone;
    if raw != [] {
      AgainstAre(raw[1..], outcome, kappaUnbounded, x);
      assert raw == [raw[0]] + raw[1..];
    }
  }

  /** A room with nothing competing allows all of its headroom. */
  ghost predicate Idle(r: Room) {
    r.competing == 0 && r.allowance == r.headroom
  }

  lemma RoomIsAlone(f: VintageField, raw: seq<RawBook>, b: RawBook, kappaUnbounded: bool, headBlock: int)
    requires !Joins(f, headBlock) && b in raw && Numeric(raw)
    ensures var r := RoomOf(MarketFrom(f, raw, kappaUnbounded), BookFrom(f, b, kappaUnbounded), headBlock);
            Idle(r) && Plain(r) && AsRule(r) == Alone(b, kappaUnbounded)
  {
  }

  /** Every room of a stale quote is idle and is that of some book answered. */
  lemma StaleRoom(f: VintageField, raw: seq<RawBook>, kappaUnbounded: bool, headBlock: int, outcome: nat, j: nat)
    returns (b: RawBook)
    requires !Joins(f, headBlock) && Numeric(raw)
    requires var m := MarketFrom(f, raw, kappaUnbounded); j < |Rooms(m, outcome, headBlock, |m.books|)|
    ensures var m := MarketFrom(f, raw, kappaUnbounded);
            var r := Rooms(m, outcome, headBlock, |m.books|)[j];
            Idle(r) && Plain(r) && b in raw && b.outcome != outcome && AsRule(r) == Alone(b, kappaUnbounded)
  {
    hide RoomOf, AsRule, Alone, BookFrom, MarketFrom, Rooms, Idle, Plain, Numeric;
    var m := MarketFrom(f, raw, kappaUnbounded);
    var room := Rooms(m, outcome, headBlock, |m.books|)[j];
    assert m.books[..|m.books|] == m.books;
    RoomsAre(m, outcome, headBlock, |m.books|, room);
    var book :| book in m.books && book.outcome != outcome && room == RoomOf(m, book, headBlock);
    DecodedBook(f, raw, kappaUnbounded, book);
    b :| b in raw && book == BookFrom(f, b, kappaUnbounded);
    BookOutcome(f, b, kappaUnbounded);
    RoomIsAlone(f, raw, b, kappaUnbounded, headBlock);
  }

  lemma StaleRules(f: VintageField, raw: seq<RawBook>, kappaUnbounded: bool, headBlock: int, outcome: nat, x: OpposingBook)
    requires !Joins(f, headBlock) && Numeric(raw)
    ensures var m := MarketFrom(f, raw, kappaUnbounded);
            x in AsRules(Rooms(m, outcome, headBlock, |m.books|)) <==> x in AgainstAlone(raw, outcome, kappaUnbounded)
  {
    hide RoomOf, AsRule, Alone, BookFrom, MarketFrom, Rooms, Idle, Plain, Numeric, AgainstAlone;
    var m := MarketFrom(f, raw, kappaUnbounded);
    var rooms := Rooms(m, outcome, headBlock, |m.books|);
    AgainstAre(raw, outcome, kappaUnbounded, x);
    if x in AsRules(rooms) {
      var j :| 0 <= j < |rooms| && AsRules(rooms)[j] == x;
      var b := StaleRoom(f, raw, kappaUnbounded, headBlock, outcome, j);
    }
    if x in AgainstAlone(raw, outcome, kappaUnbounded) {
      var r :| r in raw && r.outcome != outcome && x == Alone(r, kappaUnbounded);
      var b := BookFrom(f, r, kappaUnbounded);
      BookOutcome(f, r, kappaUnbounded);
      DecodedBook(f, raw, kappaUnbounded, b);
      RoomIsAlone(f, raw, r, kappaUnbounded, headBlock);
      assert m.books[..|m.books|] == m.books;
      RoomsAre(m, outcome, headBlock, |m.books|, RoomOf(m, b, headBlock));
      var j :| 0 <= j < |rooms| && rooms[j] == RoomOf(m, b, headBlock);
      assert AsRules(rooms)[j] == x;
    }
  }

  /** With no vintage open in the head block the quote is as if nothing were offered: every room
      allows its whole headroom, and a stake is accepted whole by the rule, alone in its vintage,
      exactly when it is at most maxFullyAccepted, and always when that is unbounded. */
  lemma StaleQuoteIsExact(f: VintageField, raw: seq<RawBook>, kappaUnbounded: bool, headBlock: int, h: Headroom, c: int)
    requires !Joins(f, headBlock) && Numeric(raw) && c >= 0
    requires Answers(MarketFrom(f, raw, kappaUnbounded), h, headBlock)
    requires exists b :: b in raw && b.outcome != h.outcome
    ensures h.competing == 0 && h.maxFullyAccepted == h.bindingHeadroom
    ensures forall j :: 0 <= j < |h.opposing| ==> Idle(h.opposing[j])
    ensures var rules := AgainstAlone(raw, h.outcome, kappaUnbounded);
            && AllSound(rules)
            && (Accepts(rules, c) == c <==> h.maxFullyAccepted.None? || c <= h.maxFullyAccepted.value)
  {
    hide MarketFrom, AgainstAlone, Rooms, Alone, Accepts, Binds, Sound, Numeric, Joins;
    var m, rules := MarketFrom(f, raw, kappaUnbounded), AgainstAlone(raw, h.outcome, kappaUnbounded);
    var quoted := AsRules(h.opposing);
    forall x ensures x in quoted <==> x in rules { StaleRules(f, raw, kappaUnbounded, headBlock, h.outcome, x); }
    forall j | 0 <= j < |h.opposing| ensures Idle(h.opposing[j]) && Plain(h.opposing[j]) {
      var b := StaleRoom(f, raw, kappaUnbounded, headBlock, h.outcome, j);
    }
    var b :| b in raw && b.outcome != h.outcome;
    AgainstAre(raw, h.outcome, kappaUnbounded, Alone(b, kappaUnbounded));
    assert Alone(b, kappaUnbounded) in quoted;
    QuoteIsExact(h.opposing, c);
    SameFate(quoted, rules, c);
    if NoLimit(h.opposing, |h.opposing|) {
      assert h.maxFullyAccepted == None;
    } else {
      var k :| 0 <= k < |h.opposing| && Tightest(h.opposing, |h.opposing|, k) && Answered(h, h.opposing[k]);
      assert Plain(h.opposing[k]) && Idle(h.opposing[k]);
    }
  }
}
