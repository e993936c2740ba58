/** What a whole run pays out, each claim at the moment it is made, although entries by name can
    still raise a settled market's accumulators between one claim and the next. */
module Payments {
  import opened VestedWorld
  import opened VestedReplay
  import opened Solvency
  import opened Claims
  import opened Claimables
  import opened Floors

  /** What claiming position p of market m pays, with its refused remainder or without: nothing
      while the market is open. */
  function Due(m: Market, p: Position, refund: bool): int {
    if m.status == Open then 0 else Payout(m, p) + if refund then p.offered - p.accepted else 0
  }

  /** What a step pays out of market i: the first claim of one of its positions pays what is due. */
  function Pays(w: World, s: Step, i: nat, refund: bool): int
    requires i < |w.markets|
  {
    if s.ClaimStep? && 1 <= s.number <= |w.positions| && !w.positions[s.number - 1].claimed
       && w.positions[s.number - 1].marketId == w.markets[i].id
    then Due(w.markets[i], w.positions[s.number - 1], refund)
    else 0
  }

  /** What a run pays out of market i, claim by claim. */
  function RunPays(w: World, steps: seq<Step>, i: nat, refund: bool): int
    requires WellFormed(w) && i < |w.markets|
  {
    if |steps| == 0 then 0
    else
      var front := steps[..|steps| - 1];
      ShapeAt(w, Run(w, front), i);
      RunPays(w, front, i, refund) + Pays(Run(w, front), steps[|steps| - 1], i, refund)
  }

  /** What is due now to the positions of market m that are claimed. */
  function DueClaimed(m: Market, ps: seq<Position>, refund: bool): int {
    if |ps| == 0 then 0
    else
      var p := ps[|ps| - 1];
      DueClaimed(m, ps[..|ps| - 1], refund) + if p.marketId == m.id && p.claimed then Due(m, p, refund) else 0
  }

  // ------------------------------------------------------------------ lists of positions

  /** Whatever was due to p of m and claimed is due no less to q of m'. */
  ghost predicate NoLess(m: Market, p: Position, m': Market, q: Position, refund: bool) {
    && m'.id == m.id && q.marketId == p.marketId && (p.claimed ==> q.claimed)
    && (p.marketId == m.id ==> 0 <= Due(m', q, refund) && Due(m, p, refund) <= Due(m', q, refund))
  }

  lemma {:induction false} DueClaimedRises(m: Market, ps: seq<Position>, m': Market, qs: seq<Position>, refund: bool)
    requires |ps| == |qs| && forall n :: 0 <= n < |ps| ==> NoLess(m, ps[n], m', qs[n], refund)
    ensures DueClaimed(m, ps, refund) <= DueClaimed(m', qs, refund)
  {
    hide Due;
    if |ps| > 0 {
      var last := |ps| - 1;
      assert NoLess(m, ps[last], m', qs[last], refund);
      DueClaimedRises(m, ps[..last], m', qs[..last], refund);
    }
  }

  /** Nothing due is negative. */
  ghost predicate NoneOwes(m: Market, ps: seq<Position>, refund: bool) {
    forall n :: 0 <= n < |ps| && ps[n].marketId == m.id ==> Due(m, ps[n], refund) >= 0
  }

  lemma {:induction false} DueClaimedFront(m: Market, ps: seq<Position>, n: nat, refund: bool)
    requires n <= |ps| && NoneOwes(m, ps, refund)
    ensures DueClaimed(m, ps[..n], refund) <= DueClaimed(m, ps, refund)
    decreases |ps|
  {
    hide Due;
    if n == |ps| {
      assert ps[..n] == ps;
    } else {
      var front := ps[..|ps| - 1];
      DueClaimedFront(m, front, n, refund);
      assert front[..n] == ps[..n];
    }
  }

  lemma {:induction false} ClaimAdds(m: Market, ps: seq<Position>, n: nat, refund: bool)
    requires n < |ps| && !ps[n].claimed && ps[n].marketId == m.id
    ensures DueClaimed(m, ps[n := ps[n].(claimed := true)], refund) == DueClaimed(m, ps, refund) + Due(m, ps[n], refund)
    decreases |ps|
  {
    var last := |ps| - 1;
    var qs := ps[n := ps[n].(claimed := true)];
    if n == last {
      assert qs[..last] == ps[..last];
    } else {
      ClaimAdds(m, ps[..last], n, refund);
      assert qs[..last] == ps[..last][n := ps[n].(claimed := true)];
    }
  }

  lemma {:induction false} DueWithin(m: Market, ps: seq<Position>, refund: bool)
    requires forall n :: 0 <= n < |ps| ==> Solid(m, ps[n])
    ensures DueClaimed(m, ps, refund) <= PaidOut(m, ps) + if refund then Refused(ps, m.id) else 0
  {
    hide Payout;
    if |ps| > 0 {
      var last := |ps| - 1;
      assert Solid(m, ps[last]);
      DueWithin(m, ps[..last], refund);
    }
  }

  // ------------------------------------------------------------------ one step of a run

  /** What is due to a position never falls at a step. */
  lemma DueRises(w: World, s: Step, i: nat, n: nat, refund: bool)
    requires WellFormed(w) && Stands(w, i, n) && w.positions[n].accepted >= 0 && w.positions[n].marketId == w.markets[i].id
    requires NoMarketFalls(w, Apply(w, s)) && Extends(w.positions, Apply(w, s).positions)
    requires Solid(Apply(w, s).markets[i], Apply(w, s).positions[n])
    ensures i < |Apply(w, s).markets| && n < |Apply(w, s).positions|
    ensures NoLess(w.markets[i], w.positions[n], Apply(w, s).markets[i], Apply(w, s).positions[n], refund)
  {
    hide Apply, WellFormed;
    var w' := Apply(w, s);
    ShapeAt(w, w', i);
    StandingStays(w, w', i, n);
    if w.markets[i].status != Open {
      ApplyKeepsSettled(w, s, i);
      var p := w.positions[n];
      assert NoneFalls(w.markets[i].books, w'.markets[i].books);
      PayoutMonotone(p.accepted, p.entryAcc, w.markets[i].books[p.outcome].acc, w'.markets[i].books[p.outcome].acc);
    }
  }

  lemma RunAllSolid(w0: World, steps: seq<Step>, i: nat)
    requires WellFormed(w0) && w0.positions == [] && i < |w0.markets| && KnownOutcomes(w0, steps) && Offers(steps)
    ensures i < |Run(w0, steps).markets|
    ensures forall n :: 0 <= n < |Run(w0, steps).positions| ==> Solid(Run(w0, steps).markets[i], Run(w0, steps).positions[n])
  {
    ShapeAt(w0, Run(w0, steps), i);
    forall n | 0 <= n < |Run(w0, steps).positions|
      ensures Solid(Run(w0, steps).markets[i], Run(w0, steps).positions[n])
    {
      RunSolid(w0, steps, i, n);
    }
  }

  lemma CleanFront(w0: World, front: seq<Step>, s: Step)
    requires KnownOutcomes(w0, front + [s]) && Offers(front + [s])
    ensures KnownOutcomes(w0, front) && Offers(front) && (s.EnterStep? ==> s.offered >= 0)
  {
    assert s in front + [s] && forall t :: t in front ==> t in front + [s];
  }

  /** In a clean run every position stands and offers nothing negative. */
  lemma CleanStands(w0: World, steps: seq<Step>)
    requires WellFormed(w0) && w0.positions == [] && Offers(steps)
    ensures AllStand(Run(w0, steps)) && NonNegative(Run(w0, steps).positions)
  {
    NeverFallsIff(w0, steps);
    RunStands(w0, steps);
    RunNonNegative(w0, steps);
  }

  /** A step that offers nothing negative lowers nothing and takes no position away. */
  lemma OneStep(w: World, s: Step)
    requires WellFormed(w) && (s.EnterStep? ==> s.offered >= 0)
    ensures NoMarketFalls(w, Apply(w, s)) && Extends(w.positions, Apply(w, s).positions)
  {
    hide NoMarketFalls, Extends;
    StepKeepsAccsIff(w, s);
    assert [s][..0] == [] && Run(w, [s]) == Apply(Run(w, [s][..0]), s);
    RunExtends(w, [s]);
  }

  /** Before and after a step of a clean run everything stands, and nothing falls in between. */
  lemma CleanStep(w0: World, front: seq<Step>, s: Step, i: nat)
    requires WellFormed(w0) && w0.positions == [] && i < |w0.markets|
    requires KnownOutcomes(w0, front + [s]) && Offers(front + [s])
    ensures var w, w' := Run(w0, front), Run(w0, front + [s]);
            && w' == Apply(w, s) && i < |w.markets| == |w'.markets| && w.markets[i].id == w'.markets[i].id
            && NoMarketFalls(w, w') && Extends(w.positions, w'.positions) && AllStand(w) && NonNegative(w.positions)
            && forall n :: 0 <= n < |w'.positions| ==> Solid(w'.markets[i], w'.positions[n])
  {
    hide Solid, NoMarketFalls, Extends, AllStand, NonNegative, KnownOutcomes, Offers, Apply, WellFormed;
    assert (front + [s])[..|front|] == front;
    var w := Run(w0, front);
    CleanFront(w0, front, s);
    CleanStands(w0, front);
    OneStep(w, s);
    RunAllSolid(w0, front + [s], i);
    ShapeAt(w0, w, i);
    ShapeAt(w, Apply(w, s), i);
  }

  /** A step of a clean run leaves at least as much due to the positions claimed before it. */
  lemma StepKeepsDue(w0: World, front: seq<Step>, s: Step, i: nat, refund: bool)
    requires WellFormed(w0) && w0.positions == [] && i < |w0.markets|
    requires KnownOutcomes(w0, front + [s]) && Offers(front + [s])
    ensures var w, w' := Run(w0, front), Run(w0, front + [s]);
            && i < |w.markets| == |w'.markets|
            && DueClaimed(w.markets[i], w.positions, refund) <= DueClaimed(w'.markets[i], w'.positions, refund)
  {
    hide Due, WellFormed, Solid;
    assert (front + [s])[..|front|] == front;
    var w, w' := Run(w0, front), Run(w0, front + [s]);
    CleanStep(w0, front, s, i);
    forall n | 0 <= n < |w.positions| ensures NoLess(w.markets[i], w.positions[n], w'.markets[i], w'.positions[n], refund) {
      if w.positions[n].marketId == w.markets[i].id {
        DueRises(w, s, i, n, refund);
      } else {
        assert w'.positions[..|w.positions|][n] == w'.positions[n];
      }
    }
    NoneOwesWhen(w'.markets[i], w'.positions, refund);
    DueClaimedRises(w.markets[i], w.positions, w'.markets[i], w'.positions[..|w.positions|], refund);
    DueClaimedFront(w'.markets[i], w'.positions, |w.positions|, refund);
  }

  lemma NoneOwesWhen(m: Market, ps: seq<Position>, refund: bool)
    requires forall n :: 0 <= n < |ps| ==> Solid(m, ps[n])
    ensures NoneOwes(m, ps, refund)
  {
    forall n | 0 <= n < |ps| && ps[n].marketId == m.id ensures Due(m, ps[n], refund) >= 0 { assert Solid(m, ps[n]); }
  }

  // ------------------------------------------------------------------ every run

  /** A step adds to what is due to the claimed at least what it pays. */
  lemma StepPays(w0: World, front: seq<Step>, s: Step, i: nat, refund: bool)
    requires WellFormed(w0) && w0.positions == [] && i < |w0.markets|
    requires KnownOutcomes(w0, front + [s]) && Offers(front + [s])
    ensures var w, w' := Run(w0, front), Run(w0, front + [s]);
            && i < |w.markets| == |w'.markets|
            && DueClaimed(w.markets[i], w.positions, refund) + Pays(w, s, i, refund)
               <= DueClaimed(w'.markets[i], w'.positions, refund)
  {
    hide Due, WellFormed, DueClaimed, KnownOutcomes, Offers;
    assert (front + [s])[..|front|] == front;
    var w := Run(w0, front);
    StepKeepsDue(w0, front, s, i, refund);
    if s.ClaimStep? && 1 <= s.number <= |w.positions| && !w.positions[s.number - 1].claimed
       && w.positions[s.number - 1].marketId == w.markets[i].id {
      ClaimAdds(w.markets[i], w.positions, s.number - 1, refund);
    }
  }

  lemma {:induction false} RunPaysClaimed(w0: World, steps: seq<Step>, i: nat, refund: bool)
    requires WellFormed(w0) && w0.positions == [] && i < |w0.markets| && KnownOutcomes(w0, steps) && Offers(steps)
    ensures i < |Run(w0, steps).markets|
    ensures RunPays(w0, steps, i, refund) <= DueClaimed(Run(w0, steps).markets[i], Run(w0, steps).positions, refund)
  {
    hide Due, WellFormed, DueClaimed, Pays, KnownOutcomes, Offers, Apply;
    if |steps| > 0 {
      var front, s := steps[..|steps| - 1], steps[|steps| - 1];
      assert steps == front + [s];
      CleanFront(w0, front, s);
      RunPaysClaimed(w0, front, i, refund);
      StepPays(w0, front, s, i, refund);
    } else {
      ShapeAt(w0, Run(w0, steps), i);
      NoneDue(Run(w0, steps).markets[i], refund);
    }
  }

  lemma NoneDue(m: Market, refund: bool)
    ensures DueClaimed(m, [], refund) == 0
  {
  }

  /** Over any run of offers on known outcomes, everything a market ever pays, each first claim as
      the market then stood, comes to at most what it accepted, and with every refused remainder
      to at most what it was offered. */
  lemma RunPaysWithin(w0: World, steps: seq<Step>, i: nat)
    requires WellFormed(w0) && w0.positions == [] && i < |w0.markets| && KnownOutcomes(w0, steps) && Offers(steps)
    ensures var (id, ps) := (w0.markets[i].id, Run(w0, steps).positions);
            && RunPays(w0, steps, i, false) <= Accepted(ps, id)
            && RunPays(w0, steps, i, true) <= Offered(ps, id)
  {
    hide Solid, KnownOutcomes, Offers, RunPays, DueClaimed;
    var w := Run(w0, steps);
    ShapeAt(w0, w, i);
    RunAllSolid(w0, steps, i);
    RunPaysClaimed(w0, steps, i, false);
    RunPaysClaimed(w0, steps, i, true);
    DueWithin(w.markets[i], w.positions, false);
    DueWithin(w.markets[i], w.positions, true);
    RunIsSolvent(w0, steps, i);
  }
}
