/** The whole pool is paid out exactly when no division leaves a remainder. */
module Conservation {
  import opened Numbers
  import opened VestedWorld
  import opened VestedReplay
  import opened Solvency

  /** Every opposing entry divided evenly among the units of book o as it then stood. */
  ghost predicate VestsEvenly(kappa: int, b: Book, ps: seq<Position>, id: string, o: nat)
    requires b.principal > 0
  {
    forall n :: 0 <= n < |ps| && Against(ps[n], id, o) ==>
      (ps[n].accepted * SCALE) % Replay(kappa, b, ps[..n], id, o).principal == 0
  }

  /** A stake and what vested to it come to whole units. */
  predicate WholePayout(s: int, entryAcc: int, acc: int) {
    (s * (SCALE + acc - entryAcc)) % SCALE == 0
  }

  ghost predicate PaysEvenly(ps: seq<Position>, id: string, o: nat, acc: int) {
    forall n :: 0 <= n < |ps| && Mine(ps[n], id, o) ==> WholePayout(ps[n].accepted, ps[n].entryAcc, acc)
  }

  lemma {:induction false} NothingLostVesting(kappa: int, b: Book, ps: seq<Position>, id: string, o: nat)
    requires b.principal > 0 && NonNegative(ps)
    ensures LostVesting(kappa, b, ps, id, o) == 0 <==> VestsEvenly(kappa, b, ps, id, o)
  {
    if |ps| > 0 {
      var last := |ps| - 1;
      var front, p := ps[..last], ps[last];
      NothingLostVesting(kappa, b, front, id, o);
      LostBounds(kappa, b, front, id, o);
      TruncSplits(p.accepted * SCALE, Replay(kappa, b, front, id, o).principal);
      assert forall n :: 0 <= n < last ==> front[..n] == ps[..n];
      assert VestsEvenly(kappa, b, ps, id, o) <==>
             VestsEvenly(kappa, b, front, id, o)
             && (Against(p, id, o) ==> (p.accepted * SCALE) % Replay(kappa, b, front, id, o).principal == 0);
    }
  }

  lemma WholeIff(s: int, entryAcc: int, acc: int)
    requires s >= 0 && entryAcc <= acc
    ensures 0 <= TruncRem(s * (SCALE + acc - entryAcc), SCALE)
    ensures TruncRem(s * (SCALE + acc - entryAcc), SCALE) == 0 <==> WholePayout(s, entryAcc, acc)
  {
    MulMono(0, SCALE + acc - entryAcc, s);
  }

  lemma {:induction false} NothingLostPaying(ps: seq<Position>, id: string, o: nat, acc: int)
    requires NonNegative(ps) && EnteredBelow(ps, id, o, acc)
    ensures LostPaying(ps, id, o, acc) == 0 <==> PaysEvenly(ps, id, o, acc)
  {
    if |ps| > 0 {
      var last := |ps| - 1;
      var front, p := ps[..last], ps[last];
      NothingLostPaying(front, id, o, acc);
      PayingBounds(front, id, o, acc);
      if Mine(p, id, o) { WholeIff(p.accepted, p.entryAcc, acc); }
      assert PaysEvenly(ps, id, o, acc) <==>
             PaysEvenly(front, id, o, acc) && (Mine(p, id, o) ==> WholePayout(p.accepted, p.entryAcc, acc));
    }
  }

  /** In any run the pool of outcome o is paid out to the last unit, if o wins, exactly when every
      opposing entry divided evenly and every holder's payout comes to whole units. */
  lemma RunPaysExactlyIff(w0: World, steps: seq<Step>, i: nat, o: nat)
    requires WellFormed(w0) && w0.positions == [] && i < |w0.markets| && o < |w0.markets[i].books|
    requires KnownOutcomes(w0, steps) && Offers(steps)
    ensures var m0, m, ps := w0.markets[i], Run(w0, steps).markets[i], Run(w0, steps).positions;
            && o < |m.books|
            && (Residue(m0, m, ps, o) == 0 <==>
                  && VestsEvenly(m0.kappa, m0.books[o], ps, m0.id, o)
                  && PaysEvenly(ps, m0.id, o, m.books[o].acc)
                  && WholePayout(m0.books[o].principal, m0.books[o].acc, m.books[o].acc))
  {
    var m0, ps := w0.markets[i], Run(w0, steps).positions;
    RunTracks(w0, steps);
    RunNonNegative(w0, steps);
    RunConserves(w0, steps, i, o);
    var acc := Replay(m0.kappa, m0.books[o], ps, m0.id, o).acc;
    LossesBounded(m0, ps, o);
    NothingLostVesting(m0.kappa, m0.books[o], ps, m0.id, o);
    FaithfulEnteredBelow(m0, ps, o);
    NothingLostPaying(ps, m0.id, o, acc);
    WholeIff(m0.books[o].principal, m0.books[o].acc, acc);
  }
}
