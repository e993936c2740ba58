/** Where the mechanism's promises stop, and what the crowd offers in one tick. */
module Edges {
  import opened Numbers
  import opened VestedWorld
  import opened VestedReplay
  import opened Solvency

  // ------------------------------------------------------------------ runs that break a promise

  /** A negative offer is accepted whole and takes back what had vested, and more: a position
      of 100 on outcome 0 falls below its principal. */
  lemma NegativeOfferBreaksFloor() returns (books: seq<Book>, outcome: nat, offered: int)
    ensures |books| == 2 && Funded(books) && offered < 0 && outcome == 1
    ensures Acceptable(books, outcome, offered) == offered
    ensures var after := EnterBooks(UNBOUNDED, books, outcome, offered);
            PayoutIfWins(100, books[0].acc, after[0].acc) < 100 == PayoutIfWins(100, books[0].acc, books[0].acc)
  {
    var book := Book(200, 0, UNBOUNDED, 0, 2);
    books, outcome, offered := [book, book], 1, -100;
    assert Tightest(books, 1, 2) == Tightest(books, 1, 1) == Tightest(books, 1, 0) == None;
    assert Vest(book, -100).acc == -SCALE / 2;
  }

  function EvenBook(p: int): Book {
    Book(p, 0, UNBOUNDED, 0, 1)
  }

  /** One open market of two unbounded books of p each, which settles for outcome 0. */
  function TwoBooks(p: int): (w: World)
    requires p > 0
    ensures WellFormed(w) && w.positions == []
  {
    World([Market("m", UNBOUNDED, [EvenBook(p), EvenBook(p)], Open, None, 0, 0, 0, 0, 0.0, 0)], [])
  }

  /** Unbounded books accept every offer whole. */
  lemma AcceptsWhole(books: seq<Book>, outcome: nat, offered: int)
    requires forall o :: 0 <= o < |books| ==> books[o].capacity == UNBOUNDED
    ensures Acceptable(books, outcome, offered) == offered
  {
    TightestIsLeast(books, outcome, |books|);
  }

  /** What the entry makes of a world of one market with two unbounded books. */
  lemma EntryOnTwo(w: World, outcome: nat, offered: int) returns (w': World)
    requires WellFormed(w) && |w.markets| == 1 && w.markets[0].id == "m" && w.markets[0].kappa == UNBOUNDED
    requires |w.markets[0].books| == 2
    requires w.markets[0].books[0].capacity == UNBOUNDED == w.markets[0].books[1].capacity
    ensures w' == Apply(w, EnterStep("m", outcome, offered, "a")) && WellFormed(w')
    ensures var was := w.markets[0].books;
            var b0 := if outcome == 0 then Grow(UNBOUNDED, was[0], offered) else Vest(was[0], offered);
            var b1 := if outcome == 1 then Grow(UNBOUNDED, was[1], offered) else Vest(was[1], offered);
            w'.markets == [w.markets[0].(books := [b0, b1])]
    ensures w'.positions ==
            if outcome >= 2 then w.positions
            else w.positions + [Position("m", "a", outcome, offered, offered, w.markets[0].books[outcome].acc,
                                         |w.positions| + 1, false)]
  {
    var was := w.markets[0].books;
    AcceptsWhole(was, outcome, offered);
    assert FindMarket(w.markets, "m") == Some(0);
    var b0 := if outcome == 0 then Grow(UNBOUNDED, was[0], offered) else Vest(was[0], offered);
    var b1 := if outcome == 1 then Grow(UNBOUNDED, was[1], offered) else Vest(was[1], offered);
    assert EnterBooks(UNBOUNDED, was, outcome, offered) == [b0, b1];
    w' := Apply(w, EnterStep("m", outcome, offered, "a"));
  }

  lemma RunSnoc(w: World, steps: seq<Step>, s: Step)
    requires WellFormed(w)
    ensures Run(w, steps + [s]) == Apply(Run(w, steps), s)
  {
    assert (steps + [s])[..|steps|] == steps;
  }

  /** One entry of 1 against a book of 3 leaves a unit of the pool that no one is paid: payouts
      do not sum to the pool. */
  lemma RoundingLeavesResidue() returns (w0: World, steps: seq<Step>)
    ensures WellFormed(w0) && w0.positions == [] && |w0.markets| == 1 && |w0.markets[0].books| == 2
    ensures KnownOutcomes(w0, steps) && Offers(steps)
    ensures |Run(w0, steps).markets| == 1 && |Run(w0, steps).markets[0].books| == 2
    ensures Residue(w0.markets[0], Run(w0, steps).markets[0], Run(w0, steps).positions, 0) == 1
  {
    hide PayoutIfWins, PaidIfWins, Vest, Enter;
    var s := EnterStep("m", 1, 1, "a");
    w0, steps := TwoBooks(3), [] + [s];
    RunSnoc(w0, [], s);
    var w := EntryOnTwo(w0, 1, 1);
    VestsAThird();
    NoOneOnZero(w.positions, SCALE / 3);
    ThreeThirds();
  }

  lemma NoOneOnZero(ps: seq<Position>, acc: int)
    requires |ps| == 1 && ps[0].outcome == 1
    ensures PaidIfWins(ps, "m", 0, acc) == 0
  {
    assert ps[..0] == [];
  }

  lemma VestsAThird()
    ensures Vest(EvenBook(3), 1) == Book(3, SCALE / 3, UNBOUNDED, 1, 1)
  {
  }

  lemma ThreeThirds()
    ensures PayoutIfWins(3, 0, SCALE / 3) == 3
  {
    assert SCALE / 3 == 333_333_333_333_333_333;
    assert 3 * (SCALE + SCALE / 3 - 0) == 3_999_999_999_999_999_999;
  }

  /** Two entries of offers, the second on an outcome the market does not have, and a settlement. The
      second fails and leaves no position, but only once it has vested: 51 is claimed of the 1
      accepted. */
  lemma MissingOutcomeOverpays() returns (w0: World, first: Step, missing: Step)
    ensures WellFormed(w0) && w0.positions == [] && |w0.markets| == 1 && |w0.markets[0].books| == 2
    ensures Offers([first, missing, SettleStep(0)]) && missing.EnterStep? && missing.outcome >= 2
    ensures var x := Run(w0, [first]);
            && Enter(x, missing.id, missing.outcome, missing.offered, missing.owner).1 == UnknownOutcome
            && Run(w0, [first, missing]).positions == x.positions
    ensures var w := Run(w0, [first, missing, SettleStep(0)]);
            |w.markets| == 1 && PaidOut(w.markets[0], w.positions) == 51 && Accepted(w.positions, w.markets[0].id) == 1
  {
    first, missing := EnterStep("m", 0, 1, "a"), EnterStep("m", 7, 100, "a");
    w0 := TwoBooks(1);
    RunThree(w0, first, missing, SettleStep(0));
    var w1 := EntryOnTwo(w0, 0, 1);
    var w2 := EntryOnTwo(w1, 7, 100);
    assert w2.markets[0].books[0].acc == 50 * SCALE;
    SettledPays(w2);
    assert w2.positions[..0] == [];
  }

  lemma RunThree(w: World, s1: Step, s2: Step, s3: Step)
    requires WellFormed(w)
    ensures Run(w, [s1]) == Apply(w, s1) && Run(w, [s1, s2]) == Apply(Run(w, [s1]), s2)
    ensures Run(w, [s1, s2, s3]) == Apply(Run(w, [s1, s2]), s3)
  {
    hide Apply;
    RunSnoc(w, [], s1);
    RunSnoc(w, [s1], s2);
    RunSnoc(w, [s1, s2], s3);
    assert [] + [s1] == [s1] && [s1] + [s2] == [s1, s2] && [s1, s2] + [s3] == [s1, s2, s3];
  }

  /** Two entries, the second of a negative amount, and a settlement: 500 is claimed of nothing
      accepted. */
  lemma NegativeOfferOverpays() returns (w0: World, steps: seq<Step>)
    ensures WellFormed(w0) && w0.positions == [] && |w0.markets| == 1 && KnownOutcomes(w0, steps)
    ensures var w := Run(w0, steps);
            |w.markets| == 1 && PaidOut(w.markets[0], w.positions) == 500 && Accepted(w.positions, w.markets[0].id) == 0
  {
    hide Enter, PayoutIfWins, PaidIfWins, Accepted, PaidOut;
    var s1, s2, s3 := EnterStep("m", 0, 1000, "a"), EnterStep("m", 1, -1000, "a"), SettleStep(0);
    w0, steps := TwoBooks(1000), [s1, s2, s3];
    RunThree(w0, s1, s2, s3);
    var w1 := EntryOnTwo(w0, 0, 1000);
    var w2 := EntryOnTwo(w1, 1, -1000);
    assert w2.markets[0].books[0].acc == -(SCALE / 2);
    SettledPays(w2);
    TakenBack(w2.positions);
  }

  lemma TakenBack(ps: seq<Position>)
    requires |ps| == 2 && ps[0].marketId == ps[1].marketId == "m" && ps[0].outcome == 0 && ps[1].outcome == 1
    requires ps[0].accepted == 1000 && ps[0].entryAcc == 0 && ps[1].accepted == -1000
    ensures PaidIfWins(ps, "m", 0, -(SCALE / 2)) == 500 && Accepted(ps, "m") == 0
  {
    var front := ps[..1];
    assert front[..0] == [];
    assert PayoutIfWins(1000, 0, -(SCALE / 2)) == 500;
    assert PaidIfWins(front, "m", 0, -(SCALE / 2)) == 500 && Accepted(front, "m") == 1000;
  }

  /** Settling a due market pays the positions of outcome 0 what they are worth if it wins. */
  lemma SettledPays(w: World)
    requires WellFormed(w) && |w.markets| == 1 && |w.markets[0].books| == 2
    requires w.markets[0].status == Open && w.markets[0].resolutionTime == 0 && w.markets[0].direction == 0
    requires w.markets[0].price8 == w.markets[0].strike8
    ensures var m, w' := w.markets[0], Apply(w, SettleStep(0));
            && |w'.markets| == 1 && w'.markets[0].id == m.id && w'.positions == w.positions
            && PaidOut(w'.markets[0], w'.positions) == PaidIfWins(w.positions, m.id, 0, m.books[0].acc)
  {
    var w' := Apply(w, SettleStep(0));
    assert SettleFirst(w, 0, 1) == MoveTo(SettleFirst(w, 0, 0), Close(0, 0));
    PaidOutCases(w'.markets[0], w'.positions);
  }

  // ------------------------------------------------------------------ settlement does not stop entries

  /** The world with market i's status and winner replaced. */
  function Restated(w: World, i: nat, status: Status, winner: Option<nat>): (r: World)
    requires WellFormed(w) && i < |w.markets|
    ensures WellFormed(r) && SameShape(w, r)
  {
    WithMarket(w, i, w.markets[i].(status := status, winner := winner))
  }

  lemma FindRestated(w: World, i: nat, status: Status, winner: Option<nat>, id: string)
    requires WellFormed(w) && i < |w.markets|
    ensures FindMarket(Restated(w, i, status, winner).markets, id) == FindMarket(w.markets, id)
  {
    var r, found := Restated(w, i, status, winner), FindMarket(w.markets, id);
    assert forall k :: 0 <= k < |w.markets| ==> r.markets[k].id == w.markets[k].id;
    if found.Some? { FindSelf(r, found.value); }
  }

  lemma EntryRestated(w: World, i: nat, status: Status, winner: Option<nat>, k: nat, outcome: nat, offered: int, owner: string)
    requires WellFormed(w) && i < |w.markets| && k < |w.markets|
    ensures var x := EnterMarket(w, k, outcome, offered, owner).0;
            && i < |x.markets|
            && EnterMarket(Restated(w, i, status, winner), k, outcome, offered, owner).0 == Restated(x, i, status, winner)
  {
    var x, y := EnterMarket(w, k, outcome, offered, owner).0,
                EnterMarket(Restated(w, i, status, winner), k, outcome, offered, owner).0;
    assert y.markets == Restated(x, i, status, winner).markets;
  }

  /** Entering by name and claiming pay no heed to settlement: over any run of them, what a market is
      and who won it makes no difference to anything but itself. */
  lemma {:induction false} RunIgnoresStatus(w: World, i: nat, status: Status, winner: Option<nat>, steps: seq<Step>)
    requires WellFormed(w) && i < |w.markets| && forall s :: s in steps ==> s.EnterStep? || s.ClaimStep?
    ensures i < |Run(w, steps).markets|
    ensures Run(Restated(w, i, status, winner), steps) == Restated(Run(w, steps), i, status, winner)
  {
    hide WellFormed, Restated, EnterMarket;
    if |steps| > 0 {
      var front, last := steps[..|steps| - 1], steps[|steps| - 1];
      RunIgnoresStatus(w, i, status, winner, front);
      StepRestated(Run(w, front), i, status, winner, last);
    }
  }

  lemma StepRestated(w: World, i: nat, status: Status, winner: Option<nat>, s: Step)
    requires WellFormed(w) && i < |w.markets| && (s.EnterStep? || s.ClaimStep?)
    ensures i < |Apply(w, s).markets|
    ensures Apply(Restated(w, i, status, winner), s) == Restated(Apply(w, s), i, status, winner)
  {
    ShapeAt(w, Apply(w, s), i);
    if s.EnterStep? {
      FindRestated(w, i, status, winner, s.id);
      var found := FindMarket(w.markets, s.id);
      if found.Some? { EntryRestated(w, i, status, winner, found.value, s.outcome, s.offered, s.owner); }
    }
  }

  // ------------------------------------------------------------------ the crowd's flow

  /** Sum of the first k amounts. */
  function SumFirst(amounts: seq<int>, k: nat): int
    requires k <= |amounts|
  {
    if k == 0 then 0 else SumFirst(amounts, k - 1) + amounts[k - 1]
  }

  /** A ratio scaled back up loses nothing: the share is floor(flow * floor(p * 10^9 / pool) / 10^9). */
  lemma ShareIsExact(flow: int, p: int, pool: int)
    requires p >= 0 && pool > 0
    ensures p * FRACTION_SCALE >= 0 && (p * FRACTION_SCALE) / pool >= 0
    ensures p <= pool ==> ScaleByFraction(flow, Ratio(p, pool)) == TruncDiv(flow * ((p * FRACTION_SCALE) / pool), FRACTION_SCALE)
  {
    MulMono(0, p, FRACTION_SCALE);
    DivNonNegative(p * FRACTION_SCALE, pool);
    var q := (p * FRACTION_SCALE) / pool;
    if p <= pool {
      assert p * FRACTION_SCALE < FRACTION_SCALE * pool + pool;
      FloorIsGreatest(FRACTION_SCALE + 1, p * FRACTION_SCALE, pool);
      var f := Ratio(p, pool);
      assert f == q as real / 1_000_000_000.0;
      assert f * 1_000_000_000.0 == q as real;
      if q == 0 { assert flow * 0 == 0; } else { assert f > 0.0 && Nanos(f) == q; }
    }
  }

  /** Summed over the books, the nine-decimal shares are at most one. */
  lemma {:induction false} SharesWithinOne(books: seq<Book>, k: nat, pool: int)
    requires Funded(books) && k <= |books| && pool == Pool(books) && pool > 0
    ensures 0 <= Pool(books[..k]) <= pool
    ensures NanosFirst(books, k, pool) * pool <= Pool(books[..k]) * FRACTION_SCALE
  {
    PoolOfFront(books, k);
    if k > 0 {
      SharesWithinOne(books, k - 1, pool);
      assert books[..k][..k - 1] == books[..k - 1];
      NanosStep(NanosFirst(books, k - 1, pool), Pool(books[..k - 1]), books[k - 1].principal, pool);
    }
  }

  lemma NanosStep(nanos: int, sum: int, p: int, pool: int)
    requires pool > 0 && nanos * pool <= sum * FRACTION_SCALE
    ensures (nanos + (p * FRACTION_SCALE) / pool) * pool <= (sum + p) * FRACTION_SCALE
  {
    var q := (p * FRACTION_SCALE) / pool;
    FloorBounds(p * FRACTION_SCALE, pool);
    assert (nanos + q) * pool == nanos * pool + q * pool;
  }

  lemma {:induction false} PoolOfFront(books: seq<Book>, k: nat)
    requires Funded(books) && k <= |books|
    ensures 0 <= Pool(books[..k]) <= Pool(books)
    decreases |books|
  {
    assert Funded(books[..k]);
    if k == |books| {
      assert books[..k] == books;
    } else {
      var front := books[..|books| - 1];
      PoolOfFront(front, k);
      assert front[..k] == books[..k];
    }
  }

  function NanosFirst(books: seq<Book>, k: nat, pool: int): int
    requires k <= |books| && pool > 0
  {
    if k == 0 then 0 else NanosFirst(books, k - 1, pool) + (books[k - 1].principal * FRACTION_SCALE) / pool
  }

  lemma {:induction false} SplitBelowNanos(flow: int, books: seq<Book>, k: nat, pool: int)
    requires Funded(books) && k <= |books| && pool == Pool(books) && pool > 0 && flow >= 0
    ensures SumFirst(Split(flow, books, pool), k) * FRACTION_SCALE <= flow * NanosFirst(books, k, pool)
    ensures forall o :: 0 <= o < k ==> Split(flow, books, pool)[o] >= 0
  {
    if k > 0 {
      SplitBelowNanos(flow, books, k - 1, pool);
      var p := books[k - 1].principal;
      PrincipalWithinPool(books, k - 1);
      ShareIsExact(flow, p, pool);
      ShareBelow(flow, (p * FRACTION_SCALE) / pool, SumFirst(Split(flow, books, pool), k - 1),
                 NanosFirst(books, k - 1, pool));
    }
  }

  lemma ShareBelow(flow: int, q: int, sum: int, nanos: int)
    requires flow >= 0 && q >= 0 && sum * FRACTION_SCALE <= flow * nanos
    ensures TruncDiv(flow * q, FRACTION_SCALE) >= 0
    ensures (sum + TruncDiv(flow * q, FRACTION_SCALE)) * FRACTION_SCALE <= flow * (nanos + q)
  {
    MulMono(0, q, flow);
    FloorBounds(flow * q, FRACTION_SCALE);
    DivNonNegative(flow * q, FRACTION_SCALE);
    assert flow * (nanos + q) == flow * nanos + flow * q;
  }

  lemma {:induction false} PrincipalWithinPool(books: seq<Book>, o: nat)
    requires Funded(books) && o < |books|
    ensures books[o].principal <= Pool(books)
  {
    PoolOfFront(books, o + 1);
    PoolOfFront(books, o);
    assert books[..o + 1][..o] == books[..o];
  }

  /** A tick's arrivals are never negative and never sum to more than the tick's flow. */
  lemma SplitWithinFlow(flow: int, books: seq<Book>)
    requires Funded(books) && |books| > 0 && flow >= 0
    ensures var split := Split(flow, books, Pool(books));
            0 <= SumFirst(split, |split|) <= flow && forall o :: 0 <= o < |split| ==> split[o] >= 0
  {
    var pool := Pool(books);
    var split := Split(flow, books, pool);
    SharesWithinOne(books, |books|, pool);
    SplitBelowNanos(flow, books, |books|, pool);
    assert books[..|books|] == books;
    assert pool * FRACTION_SCALE == FRACTION_SCALE * pool;
    MulCancel(NanosFirst(books, |books|, pool), FRACTION_SCALE, pool);
    MulMono(NanosFirst(books, |books|, pool), FRACTION_SCALE, flow);
    SumNonNegative(split, |split|);
  }

  lemma {:induction false} SumNonNegative(amounts: seq<int>, k: nat)
    requires k <= |amounts| && forall o :: 0 <= o < k ==> amounts[o] >= 0
    ensures SumFirst(amounts, k) >= 0
  {
    if k > 0 { SumNonNegative(amounts, k - 1); }
  }
}
