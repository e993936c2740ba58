/** What a wallet may claim, and that claiming it all stays within what was offered. */
module Claimables {
  import opened Numbers
  import opened Text
  import opened VestedWorld
  import opened VestedReplay
  import opened Solvency
  import opened Claims

  /** Position number n's settlement and its refused remainder, claimed together. */
  datatype Claim = Claim(number: nat, marketId: string, payout: int, refund: int)

  /** The claim position n + 1 gives its owner: none while its market is open, once it is claimed,
      or when there is nothing in it. */
  function ClaimOf(w: World, owner: string, n: nat): Option<Claim>
    requires n < |w.positions|
  {
    var p := w.positions[n];
    match FindMarket(w.markets, p.marketId)
    case None => None
    case Some(i) =>
      if Lower(p.owner) != Lower(owner) || p.claimed || w.markets[i].status == Open then None
      else
        var payout, refund := Payout(w.markets[i], p), p.offered - p.accepted;
        if payout == 0 && refund == 0 then None else Some(Claim(n + 1, p.marketId, payout, refund))
  }

  /** The claims of the first k positions, in order. */
  function Claimable(w: World, owner: string, k: nat): seq<Claim>
    requires k <= |w.positions|
  {
    if k == 0 then []
    else match ClaimOf(w, owner, k - 1)
         case None => Claimable(w, owner, k - 1)
         case Some(c) => Claimable(w, owner, k - 1) + [c]
  }

  /** What the claims on one market come to. */
  function Worth(claims: seq<Claim>, id: string): int {
    if claims == [] then 0
    else
      var c := claims[|claims| - 1];
      Worth(claims[..|claims| - 1], id) + if c.marketId == id then c.payout + c.refund else 0
  }

  lemma WorthPush(claims: seq<Claim>, c: Claim, id: string)
    ensures Worth(claims + [c], id) == Worth(claims, id) + if c.marketId == id then c.payout + c.refund else 0
  {
    assert (claims + [c])[..|claims|] == claims;
  }

  /** Position n in a market it names is worth nothing below zero. */
  ghost predicate Solid(m: Market, p: Position) {
    p.marketId == m.id ==> Payout(m, p) >= 0 && p.offered - p.accepted >= 0
  }

  function WorthOf(c: Option<Claim>, id: string): int {
    match c case Some(c) => (if c.marketId == id then c.payout + c.refund else 0) case None => 0
  }

  lemma ClaimWithin(w: World, i: nat, owner: string, n: nat)
    requires WellFormed(w) && i < |w.markets| && n < |w.positions| && Solid(w.markets[i], w.positions[n])
    ensures var m, p := w.markets[i], w.positions[n];
            WorthOf(ClaimOf(w, owner, n), m.id) <= if p.marketId == m.id then Payout(m, p) + (p.offered - p.accepted) else 0
  {
    hide Lower;
    FindSelf(w, i);
  }

  lemma PaidFront(m: Market, ps: seq<Position>, k: nat)
    requires 0 < k <= |ps|
    ensures var p := ps[k - 1];
            PaidOut(m, ps[..k]) + Refused(ps[..k], m.id) ==
            PaidOut(m, ps[..k - 1]) + Refused(ps[..k - 1], m.id)
            + if p.marketId == m.id then Payout(m, p) + (p.offered - p.accepted) else 0
  {
    assert ps[..k][..k - 1] == ps[..k - 1];
  }

  lemma WorthFront(w: World, owner: string, k: nat, id: string)
    requires 0 < k <= |w.positions|
    ensures Worth(Claimable(w, owner, k), id) == Worth(Claimable(w, owner, k - 1), id) + WorthOf(ClaimOf(w, owner, k - 1), id)
  {
    hide ClaimOf;
    var c := ClaimOf(w, owner, k - 1);
    if c.Some? { WorthPush(Claimable(w, owner, k - 1), c.value, id); }
  }

  lemma {:induction false} WorthWithin(w: World, i: nat, owner: string, k: nat)
    requires WellFormed(w) && i < |w.markets| && k <= |w.positions|
    requires forall n :: 0 <= n < k ==> Solid(w.markets[i], w.positions[n])
    ensures var m, ps := w.markets[i], w.positions[..k];
            Worth(Claimable(w, owner, k), m.id) <= PaidOut(m, ps) + Refused(ps, m.id)
    decreases k
  {
    hide ClaimOf, Payout, WellFormed, Solid, WorthOf;
    if k > 0 {
      hide Worth, PaidOut, Refused, Claimable;
      WorthWithin(w, i, owner, k - 1);
      ClaimWithin(w, i, owner, k - 1);
      WorthFront(w, owner, k, w.markets[i].id);
      PaidFront(w.markets[i], w.positions, k);
    }
  }

  lemma RunSolid(w0: World, steps: seq<Step>, i: nat, n: nat)
    requires WellFormed(w0) && w0.positions == [] && i < |w0.markets| && n < |Run(w0, steps).positions|
    requires KnownOutcomes(w0, steps) && Offers(steps)
    ensures i < |Run(w0, steps).markets| && Solid(Run(w0, steps).markets[i], Run(w0, steps).positions[n])
  {
    var w := Run(w0, steps);
    ShapeAt(w0, w, i);
    RunNonNegative(w0, steps);
    RunTracks(w0, steps);
    if w.positions[n].marketId == w.markets[i].id {
      assert KnownOutcomes(w0, []) && Offers([]);
      WorthOverTime(w0, steps, [], i, n);
      assert Genuine(w0.markets[i], w.positions, n);
    }
  }

  /** In any run, whatever one wallet may claim of a market comes to no more than was offered in
      it: the whole settlement and all refunds are covered. */
  lemma ClaimsAreCovered(w0: World, steps: seq<Step>, i: nat, owner: string)
    requires WellFormed(w0) && w0.positions == [] && i < |w0.markets|
    requires KnownOutcomes(w0, steps) && Offers(steps)
    ensures var w, id := Run(w0, steps), w0.markets[i].id;
            Worth(Claimable(w, owner, |w.positions|), id) <= Offered(w.positions, id)
  {
    var w := Run(w0, steps);
    ShapeAt(w0, w, i);
    forall n | 0 <= n < |w.positions| ensures Solid(w.markets[i], w.positions[n]) { RunSolid(w0, steps, i, n); }
    assert w.positions[..|w.positions|] == w.positions;
    WorthWithin(w, i, owner, |w.positions|);
    RunIsSolvent(w0, steps, i);
  }

  /** Once claimed a position is never claimable again, whatever the run goes on to do; claiming it
      changes no other claim. */
  lemma ClaimedOnce(w: World, owner: string, number: nat, later: seq<Step>)
    requires WellFormed(w) && 1 <= number <= |w.positions|
    ensures var claimed := MarkClaimed(w, number);
            && number <= |Run(claimed, later).positions|
            && ClaimOf(Run(claimed, later), owner, number - 1) == None
            && forall n :: 0 <= n < |w.positions| && n != number - 1 ==> ClaimOf(claimed, owner, n) == ClaimOf(w, owner, n)
  {
    RunExtends(MarkClaimed(w, number), later);
  }
}
