/** What can come into a market over a run, known beforehand: what the run's entries offer it and
    the crowd's flow for each of its ticks. It bounds every principal, so a caller can tell in
    advance that no capacity will read as the sentinel. */
module Budgets {
  import opened Numbers
  import opened VestedWorld
  import opened VestedReplay
  import opened Solvency
  import opened ReachableBooks
  import opened Edges

  function Positive(x: int): nat {
    if x > 0 then x else 0
  }

  /** What the steps can bring into market `id`, whose flow a tick is `flow`. */
  function Budget(steps: seq<Step>, id: string, flow: int): int {
    if |steps| == 0 then 0
    else
      Budget(steps[..|steps| - 1], id, flow) +
      match steps[|steps| - 1]
      case EnterStep(to, _, offered, _) => if to == id then offered else 0
      case TickStep => Positive(flow)
      case _ => 0
  }

  /** What the moves offer market i. */
  function Asked(moves: seq<Move>, i: nat): int {
    if |moves| == 0 then 0
    else
      var v := moves[|moves| - 1];
      Asked(moves[..|moves| - 1], i) + if v.Arrive? && v.market == i then v.offered else 0
  }

  lemma OfferedSnoc(ps: seq<Position>, p: Position, id: string)
    ensures Offered(ps + [p], id) == Offered(ps, id) + if p.marketId == id then p.offered else 0
  {
    assert (ps + [p])[..|ps|] == ps;
  }

  lemma MoveOffers(w: World, v: Move, i: nat)
    requires WellFormed(w) && v.market < |w.markets| && i < |w.markets| && (v.Arrive? ==> v.offered >= 0)
    ensures Offered(MoveTo(w, v).positions, w.markets[i].id)
            <= Offered(w.positions, w.markets[i].id) + if v.Arrive? && v.market == i then v.offered else 0
  {
    if v.Arrive? && v.outcome < |w.markets[v.market].books| {
      OfferedSnoc(w.positions, MoveTo(w, v).positions[|w.positions|], w.markets[i].id);
      if v.market != i { IdsDistinct(w, v.market, i); }
    }
  }

  lemma {:induction false} MovedOffers(w: World, moves: seq<Move>, i: nat)
    requires WellFormed(w) && InRange(w, moves) && Paying(moves) && i < |w.markets|
    ensures Offered(Moved(w, moves).positions, w.markets[i].id) <= Offered(w.positions, w.markets[i].id) + Asked(moves, i)
  {
    if |moves| > 0 {
      var front, last := moves[..|moves| - 1], moves[|moves| - 1];
      var v := Moved(w, front);
      MovedOffers(w, front, i);
      ShapeAt(w, v, i);
      MoveOffers(v, last, i);
    }
  }

  // ------------------------------------------------------------------ a tick brings at most the flow

  lemma {:induction false} AskedConcat(a: seq<Move>, b: seq<Move>, i: nat)
    ensures Asked(a + b, i) == Asked(a, i) + Asked(b, i)
    decreases |b|
  {
    if |b| == 0 {
      assert a + b == a;
    } else {
      AskedConcat(a, b[..|b| - 1], i);
      assert (a + b)[..|a + b| - 1] == a + b[..|b| - 1];
    }
  }

  lemma {:induction false} AskedElsewhere(moves: seq<Move>, i: nat)
    requires forall n :: 0 <= n < |moves| ==> moves[n].market != i || !moves[n].Arrive?
    ensures Asked(moves, i) == 0
  {
    if |moves| > 0 { AskedElsewhere(moves[..|moves| - 1], i); }
  }

  lemma {:induction false} ArrivalsAsk(i: nat, amounts: seq<int>, k: nat)
    requires k <= |amounts| && forall o :: 0 <= o < |amounts| ==> amounts[o] >= 0
    ensures Asked(Arrivals(i, amounts, k), i) == SumFirst(amounts, k)
  {
    if k == 0 {
      assert Arrivals(i, amounts, 0) == [];
    } else {
      ArrivalsAsk(i, amounts, k - 1);
      if amounts[k - 1] > 0 {
        var last := [Arrive(i, k - 1, amounts[k - 1], CROWD)];
        AskedConcat(Arrivals(i, amounts, k - 1), last, i);
        assert last[..0] == [];
      }
    }
  }

  lemma {:induction false} NoArrivals(i: nat, amounts: seq<int>, k: nat)
    requires k <= |amounts| && forall o :: 0 <= o < |amounts| ==> amounts[o] <= 0
    ensures Arrivals(i, amounts, k) == []
  {
    if k > 0 { NoArrivals(i, amounts, k - 1); }
  }

  lemma ScaleOfNegative(flow: int, fraction: real)
    requires flow <= 0
    ensures ScaleByFraction(flow, fraction) <= 0
  {
    if fraction > 0.0 {
      var n := Nanos(fraction);
      MulMono(flow, 0, n);
      if flow * n < 0 { DivNonNegative(-(flow * n), FRACTION_SCALE); }
    }
  }

  lemma MarketAsks(w: World, i: nat)
    requires WellFormed(w) && i < |w.markets|
    ensures Asked(MarketMoves(w, i), i) <= Positive(w.markets[i].flowPerTick)
  {
    var m := w.markets[i];
    var drift := [Drift(i)];
    assert drift[..0] == [] && Asked(drift, i) == 0;
    if m.status == Open && m.flowPerTick != 0 && Pool(m.books) != 0 {
      var split := Split(m.flowPerTick, m.books, Pool(m.books));
      AskedConcat(drift, Arrivals(i, split, |m.books|), i);
      if m.flowPerTick > 0 {
        SplitWithinFlow(m.flowPerTick, m.books);
        ArrivalsAsk(i, split, |m.books|);
      } else {
        forall o | 0 <= o < |split| ensures split[o] <= 0 {
          ScaleOfNegative(m.flowPerTick, Ratio(m.books[o].principal, Pool(m.books)));
        }
        NoArrivals(i, split, |m.books|);
      }
    }
  }

  lemma {:induction false} MovedKeepsFlow(w: World, moves: seq<Move>, i: nat)
    requires WellFormed(w) && InRange(w, moves) && i < |w.markets|
    ensures Moved(w, moves).markets[i].flowPerTick == w.markets[i].flowPerTick
  {
    if |moves| > 0 { MovedKeepsFlow(w, moves[..|moves| - 1], i); }
  }

  /** A tick of the first k markets brings market i at most its flow. */
  lemma {:induction false} TickOffers(w: World, k: nat, i: nat)
    requires WellFormed(w) && k <= |w.markets| && i < |w.markets|
    ensures TickFirst(w, k).markets[i].flowPerTick == w.markets[i].flowPerTick
    ensures Offered(TickFirst(w, k).positions, w.markets[i].id)
            <= Offered(w.positions, w.markets[i].id) + if i < k then Positive(w.markets[i].flowPerTick) else 0
  {
    hide MarketMoves, WellFormed;
    if k > 0 {
      var v := TickFirst(w, k - 1);
      var moves := MarketMoves(v, k - 1);
      TickOffers(w, k - 1, i);
      ShapeAt(w, v, i);
      MarketMovesKnown(v, k - 1);
      MovedKeepsFlow(v, moves, i);
      MovedOffers(v, moves, i);
      if i == k - 1 { MarketAsks(v, i); } else { AskedElsewhere(moves, i); }
    }
  }

  // ------------------------------------------------------------------ every run

  lemma {:induction false} SettleKeepsOffered(w: World, now: int, k: nat, i: nat)
    requires WellFormed(w) && k <= |w.markets| && i < |w.markets|
    ensures SettleFirst(w, now, k).positions == w.positions
    ensures SettleFirst(w, now, k).markets[i].flowPerTick == w.markets[i].flowPerTick
  {
    if k > 0 { SettleKeepsOffered(w, now, k - 1, i); }
  }

  lemma {:induction false} OfferedIgnoresClaims(ps: seq<Position>, qs: seq<Position>, id: string)
    requires SameStakes(ps, qs)
    ensures Offered(ps, id) == Offered(qs, id)
  {
    if |ps| > 0 {
      OfferedIgnoresClaims(ps[..|ps| - 1], qs[..|qs| - 1], id);
      assert ps[|ps| - 1].(claimed := qs[|ps| - 1].claimed) == qs[|ps| - 1];
    }
  }

  lemma StepOffers(w: World, s: Step, i: nat)
    requires WellFormed(w) && i < |w.markets| && (s.EnterStep? ==> s.offered >= 0)
    ensures Apply(w, s).markets[i].flowPerTick == w.markets[i].flowPerTick
    ensures Offered(Apply(w, s).positions, w.markets[i].id)
            <= Offered(w.positions, w.markets[i].id) + Budget([s], w.markets[i].id, w.markets[i].flowPerTick)
  {
    assert [s][..0] == [];
    match s
    case EnterStep(id, outcome, offered, owner) =>
      var found := FindMarket(w.markets, id);
      if found.Some? { MoveOffers(w, Arrive(found.value, outcome, offered, owner), i); }
    case TickStep => TickOffers(w, |w.markets|, i);
    case SettleStep(now) => SettleKeepsOffered(w, now, |w.markets|, i);
    case ClaimStep(number) => OfferedIgnoresClaims(w.positions, Apply(w, s).positions, w.markets[i].id);
  }

  /** Over any run of offers a market is offered at most its budget. */
  lemma {:induction false} RunOffers(w: World, steps: seq<Step>, i: nat)
    requires WellFormed(w) && i < |w.markets| && Offers(steps)
    ensures var m := w.markets[i];
            && Run(w, steps).markets[i].flowPerTick == m.flowPerTick
            && Offered(Run(w, steps).positions, m.id) <= Offered(w.positions, m.id) + Budget(steps, m.id, m.flowPerTick)
  {
    if |steps| > 0 {
      var front, last := steps[..|steps| - 1], steps[|steps| - 1];
      assert last in steps;
      RunOffers(w, front, i);
      ShapeAt(w, Run(w, front), i);
      StepOffers(Run(w, front), last, i);
      assert [last][..0] == [];
    }
  }

  /** kappa times all a market opened with and can be brought is below the sentinel. */
  predicate Affordable(m0: Market, steps: seq<Step>) {
    m0.kappa * (Pool(m0.books) + Budget(steps, m0.id, m0.flowPerTick)) < UNBOUNDED
  }

  lemma {:induction false} AcceptedWithinOffered(m0: Market, ps: seq<Position>)
    requires Funded(m0.books) && Faithful(m0, ps) && NonNegative(ps)
    ensures Accepted(ps, m0.id) <= Offered(ps, m0.id)
  {
    if |ps| > 0 {
      FaithfulFront(m0, ps, |ps| - 1);
      AcceptedWithinOffered(m0, ps[..|ps| - 1]);
      if ps[|ps| - 1].marketId == m0.id { assert Genuine(m0, ps, |ps| - 1); }
    }
  }

  /** No book's principal outgrows what the market opened with and its budget. */
  lemma PrincipalWithinBudget(w0: World, steps: seq<Step>, i: nat, o: nat)
    requires WellFormed(w0) && w0.positions == [] && i < |w0.markets| && o < |w0.markets[i].books|
    requires KnownOutcomes(w0, steps) && Offers(steps)
    ensures var m0, m := w0.markets[i], Run(w0, steps).markets[i];
            && |m.books| == |m0.books|
            && m.books[o].principal <= Pool(m0.books) + Budget(steps, m0.id, m0.flowPerTick)
  {
    var m0, ps := w0.markets[i], Run(w0, steps).positions;
    RunTracks(w0, steps);
    RunNonNegative(w0, steps);
    RunOffers(w0, steps, i);
    AcceptedWithinOffered(m0, ps);
    ReplayTotals(m0.kappa, m0.books[o], ps, m0.id, o);
    StakeAndInflow(ps, m0.id, o);
    SumsNonNegative(ps, m0.id, o);
    PrincipalWithinPool(m0.books, o);
  }

  lemma StillBelow(kappa: int, b: Book, bound: int)
    requires kappa >= 0 && b.principal <= bound && kappa * bound < UNBOUNDED
    ensures BelowSentinel(kappa, b)
  {
    MulMono(b.principal, bound, kappa);
  }

  /** If the budget keeps a market below the sentinel, every run on it does. */
  lemma StaysBelowSentinel(w0: World, steps: seq<Step>, i: nat)
    requires WellFormed(w0) && w0.positions == [] && i < |w0.markets| && KnownOutcomes(w0, steps) && Offers(steps)
    requires w0.markets[i].kappa >= 0 && Affordable(w0.markets[i], steps)
    ensures AllBelowSentinel(w0.markets[i].kappa, Run(w0, steps).markets[i].books)
  {
    hide BelowSentinel, Run, Pool, Budget;
    var m0, w := w0.markets[i], Run(w0, steps);
    ShapeAt(w0, w, i);
    forall o | 0 <= o < |w.markets[i].books| ensures BelowSentinel(m0.kappa, w.markets[i].books[o]) {
      PrincipalWithinBudget(w0, steps, i, o);
      StillBelow(m0.kappa, w.markets[i].books[o], Pool(m0.books) + Budget(steps, m0.id, m0.flowPerTick));
    }
  }
}
