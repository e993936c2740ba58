/** Books rebuilt from logs: entries add what was offered, withdrawn refunds take back what was
    refused, and every change is one additive write to one key of the store. */
module BookStores {
  import opened Numbers
  import opened BookKeys
  import Sorting

  datatype Rule = UnspecifiedRule | VestedRule | ClassicRule

  datatype Shape = Shape(outcomes: nat, kappa: nat, rule: Rule)

  datatype BookAdd = BookAdd(book: BookId, field: Field, amount: int, ordinal: nat)

  /** A position row of a block; only rows that enter move books. The hints are set when the
      market was created in the same block. */
  datatype EntryRow = EntryRow(enters: bool, positionId: nat, settler: string, marketId: nat, outcome: nat, offered: nat,
                               rule: Rule, outcomesHint: nat, kappaHint: Option<nat>, ordinal: nat)

  datatype Settlement = Settlement(settler: string, positionId: nat, refund: nat, ordinal: nat)

  datatype Ref = Ref(marketId: nat, outcome: nat)

  type Markets = map<(string, nat), Shape>
  type Refs = map<(string, nat), Ref>
  type Store = map<string, int>

  // ------------------------------------------------------------------ one row's changes

  /** kappa times amount, or None when it would be the unbounded sentinel. */
  function CapacityFor(kappa: nat, amount: nat): Option<nat> {
    if kappa == UNBOUNDED then if amount == 0 then Some(0) else None else Some(kappa * amount)
  }

  /** A stake vests into the first n books other than its own. */
  function VestAdds(own: BookId, n: nat, amount: int, ordinal: nat): seq<BookAdd> {
    if n == 0 then []
    else if n - 1 == own.outcome then VestAdds(own, n - 1, amount, ordinal)
    else VestAdds(own, n - 1, amount, ordinal) + [BookAdd(own.(outcome := n - 1), Vested, amount, ordinal)]
  }

  function Signed(amount: int, back: bool): int {
    if back then -amount else amount
  }

  /** Everything one stake moves, or, going back, everything one refund takes out again. */
  function StakeAdds(own: BookId, shape: Shape, amount: nat, back: bool, ordinal: nat): seq<BookAdd> {
    var principal := [BookAdd(own, Principal, Signed(amount, back), ordinal)];
    if shape.rule != VestedRule then principal
    else
      var vested := VestAdds(own, shape.outcomes, Signed(amount, back), ordinal);
      match CapacityFor(shape.kappa, amount)
      case None => principal + vested
      case Some(c) => principal + [BookAdd(own, Capacity, Signed(c, back), ordinal)] + vested
  }

  /** The hint of the block's own creation wins over the store. */
  function ShapeFor(e: EntryRow, markets: Markets): Option<Shape> {
    if e.outcomesHint > 0 && e.kappaHint.Some? then Some(Shape(e.outcomesHint, e.kappaHint.value, e.rule))
    else if (e.settler, e.marketId) in markets then Some(markets[(e.settler, e.marketId)])
    else None
  }

  function EntryAdds(e: EntryRow, markets: Markets): seq<BookAdd> {
    if !e.enters || ShapeFor(e, markets) == None || e.offered == 0 then []
    else StakeAdds(BookId(e.settler, e.marketId, e.outcome), ShapeFor(e, markets).value, e.offered, false, e.ordinal)
  }

  function RefundAdds(s: Settlement, markets: Markets, refs: Refs): seq<BookAdd> {
    if s.refund == 0 || (s.settler, s.positionId) !in refs then []
    else
      var ref := refs[(s.settler, s.positionId)];
      if (s.settler, ref.marketId) !in markets then []
      else
        StakeAdds(BookId(s.settler, ref.marketId, ref.outcome), markets[(s.settler, ref.marketId)], s.refund, true, s.ordinal)
  }

  // ------------------------------------------------------------------ a block's changes

  function EntryPart(entries: seq<EntryRow>, markets: Markets, n: nat): seq<BookAdd>
    requires n <= |entries|
  {
    if n == 0 then [] else EntryPart(entries, markets, n - 1) + EntryAdds(entries[n - 1], markets)
  }

  function RefundPart(settlements: seq<Settlement>, markets: Markets, refs: Refs, n: nat): seq<BookAdd>
    requires n <= |settlements|
  {
    if n == 0 then []
    else RefundPart(settlements, markets, refs, n - 1) + RefundAdds(settlements[n - 1], markets, refs)
  }

  function OrdinalOf(a: BookAdd): int {
    a.ordinal
  }

  /** A stable sort by ordinal. */
  function Sorted(s: seq<BookAdd>): seq<BookAdd> {
    Sorting.Sorted(s, OrdinalOf)
  }

  datatype Block = Block(entries: seq<EntryRow>, settlements: seq<Settlement>)

  function Unsorted(b: Block, markets: Markets, refs: Refs): seq<BookAdd> {
    EntryPart(b.entries, markets, |b.entries|) + RefundPart(b.settlements, markets, refs, |b.settlements|)
  }

  function BookAdds(b: Block, markets: Markets, refs: Refs): seq<BookAdd> {
    Sorted(Unsorted(b, markets, refs))
  }

  // ------------------------------------------------------------------ the same with loops

  method PushStake(adds: seq<BookAdd>, own: BookId, shape: Shape, amount: nat, back: bool, ordinal: nat)
    returns (out: seq<BookAdd>)
    ensures out == adds + StakeAdds(own, shape, amount, back, ordinal)
  {
    out := adds + [BookAdd(own, Principal, Signed(amount, back), ordinal)];
    if shape.rule != VestedRule { return; }
    var capacity := CapacityFor(shape.kappa, amount);
    if capacity.Some? {
      out := out + [BookAdd(own, Capacity, Signed(capacity.value, back), ordinal)];
    }
    ghost var head := out;
    var other := 0;
    while other < shape.outcomes
      invariant 0 <= other <= shape.outcomes
      invariant out == head + VestAdds(own, other, Signed(amount, back), ordinal)
    {
      if other != own.outcome {
        out := out + [BookAdd(own.(outcome := other), Vested, Signed(amount, back), ordinal)];
      }
      other := other + 1;
    }
  }

  method PushEntries(entries: seq<EntryRow>, markets: Markets) returns (adds: seq<BookAdd>)
    ensures adds == EntryPart(entries, markets, |entries|)
  {
    adds := [];
    for i := 0 to |entries|
      invariant adds == EntryPart(entries, markets, i)
    {
      var e := entries[i];
      if !e.enters { continue; }
      var shape := ShapeFor(e, markets);
      if shape == None || e.offered == 0 { continue; }
      adds := PushStake(adds, BookId(e.settler, e.marketId, e.outcome), shape.value, e.offered, false, e.ordinal);
    }
  }

  method PushRefunds(settlements: seq<Settlement>, markets: Markets, refs: Refs) returns (adds: seq<BookAdd>)
    ensures adds == RefundPart(settlements, markets, refs, |settlements|)
  {
    adds := [];
    for i := 0 to |settlements|
      invariant adds == RefundPart(settlements, markets, refs, i)
    {
      var s := settlements[i];
      if s.refund == 0 || (s.settler, s.positionId) !in refs { continue; }
      var ref := refs[(s.settler, s.positionId)];
      if (s.settler, ref.marketId) !in markets { continue; }
      var shape := markets[(s.settler, ref.marketId)];
      adds := PushStake(adds, BookId(s.settler, ref.marketId, ref.outcome), shape, s.refund, true, s.ordinal);
    }
  }

  /** All that a block writes to the store, sorted by ordinal. */
  method CollectAdds(b: Block, markets: Markets, refs: Refs) returns (adds: seq<BookAdd>)
    ensures adds == BookAdds(b, markets, refs)
  {
    adds := PushEntries(b.entries, markets);
    var refunds := PushRefunds(b.settlements, markets, refs);
    adds := Sorted(adds + refunds);
  }

  // ------------------------------------------------------------------ what changes amount to

  /** The sum of the changes to one book's field. */
  function Tally(adds: seq<BookAdd>, b: BookId, f: Field): int {
    if adds == [] then 0
    else Tally(adds[..|adds| - 1], b, f) + Worth(adds[|adds| - 1], b, f)
  }

  function Worth(a: BookAdd, b: BookId, f: Field): int {
    if a.book == b && a.field == f then a.amount else 0
  }

  lemma TallyPush(adds: seq<BookAdd>, a: BookAdd, b: BookId, f: Field)
    ensures Tally(adds + [a], b, f) == Tally(adds, b, f) + Worth(a, b, f)
  {
    assert (adds + [a])[..|adds|] == adds;
  }

  lemma {:induction false} TallyAppend(s: seq<BookAdd>, t: seq<BookAdd>, b: BookId, f: Field)
    ensures Tally(s + t, b, f) == Tally(s, b, f) + Tally(t, b, f)
    decreases |t|
  {
    if t == [] {
      assert s + t == s;
    } else {
      var last := t[|t| - 1];
      TallyAppend(s, t[..|t| - 1], b, f);
      assert s + t == (s + t[..|t| - 1]) + [last];
      TallyPush(s + t[..|t| - 1], last, b, f);
    }
  }

  lemma {:induction false} InsertKeeps(s: seq<BookAdd>, x: BookAdd, b: BookId, f: Field)
    ensures Tally(Sorting.Insert(s, x, OrdinalOf), b, f) == Tally(s, b, f) + Worth(x, b, f)
    decreases |s|
  {
    if s == [] || s[|s| - 1].ordinal <= x.ordinal {
      TallyPush(s, x, b, f);
    } else {
      InsertKeeps(s[..|s| - 1], x, b, f);
      TallyPush(Sorting.Insert(s[..|s| - 1], x, OrdinalOf), s[|s| - 1], b, f);
    }
  }

  /** Sorting changes no total: the additive store does not depend on the order of its writes. */
  lemma {:induction false} SortedKeeps(s: seq<BookAdd>, b: BookId, f: Field)
    ensures Tally(Sorted(s), b, f) == Tally(s, b, f)
    decreases |s|
  {
    if s != [] {
      SortedKeeps(s[..|s| - 1], b, f);
      InsertKeeps(Sorted(s[..|s| - 1]), s[|s| - 1], b, f);
    }
  }

  // ------------------------------------------------------------------ chain order

  ghost predicate InOrder(s: seq<BookAdd>) {
    forall i, j :: 0 <= i < j < |s| ==> s[i].ordinal <= s[j].ordinal
  }

  /** A block's writes come out in chain order, every one of them. */
  lemma SortedInOrder(s: seq<BookAdd>)
    ensures InOrder(Sorted(s)) && multiset(Sorted(s)) == multiset(s)
  {
    Sorting.SortedInOrder(s, OrdinalOf);
    forall i, j | 0 <= i < j < |Sorted(s)| ensures Sorted(s)[i].ordinal <= Sorted(s)[j].ordinal {
      assert OrdinalOf(Sorted(s)[i]) <= OrdinalOf(Sorted(s)[j]);
    }
  }

  /** The writes of one ordinal, in the order they stand in. */
  function Of(s: seq<BookAdd>, ordinal: nat): seq<BookAdd> {
    Sorting.Of(s, OrdinalOf, ordinal)
  }

  /** Writes of one log stay in the order they were made. */
  lemma SortedStable(s: seq<BookAdd>, ordinal: nat)
    ensures Of(Sorted(s), ordinal) == Of(s, ordinal)
  {
    Sorting.SortedStable(s, OrdinalOf, ordinal);
  }

  // ------------------------------------------------------------------ the store

  function Read(store: Store, key: string): int {
    if key in store then store[key] else 0
  }

  function Value(store: Store, b: BookId, f: Field): int {
    Read(store, BookKey(b, f))
  }

  function AddTo(store: Store, a: BookAdd): Store {
    store[BookKey(a.book, a.field) := Value(store, a.book, a.field) + a.amount]
  }

  function Applied(store: Store, adds: seq<BookAdd>): Store {
    if adds == [] then store else AddTo(Applied(store, adds[..|adds| - 1]), adds[|adds| - 1])
  }

  /** Books as logs name them: a settler address and ids of the width the chain gives them. */
  predicate Named(b: BookId) {
    Fits(b) && ':' !in b.settler
  }

  ghost predicate AllNamed(adds: seq<BookAdd>) {
    forall i :: 0 <= i < |adds| ==> Named(adds[i].book)
  }

  /** A book's field grows by exactly the changes made to it. */
  lemma {:induction false} AppliedValue(store: Store, adds: seq<BookAdd>, b: BookId, f: Field)
    requires AllNamed(adds) && Named(b)
    ensures Value(Applied(store, adds), b, f) == Value(store, b, f) + Tally(adds, b, f)
    decreases |adds|
  {
    if adds != [] {
      var last := adds[|adds| - 1];
      AppliedValue(store, adds[..|adds| - 1], b, f);
      KeysDiffer(b, f, last.book, last.field);
    }
  }
}
