/** What later arrivals can and cannot do to a position that is already there. */
module Claims {
  import opened Numbers
  import opened VestedWorld
  import opened VestedReplay
  import opened Solvency

  /** What position n would be paid if its side won now. */
  function WorthIfWins(w: World, i: nat, n: nat): int
    requires i < |w.markets| && n < |w.positions| && w.positions[n].outcome < |w.markets[i].books|
  {
    var p := w.positions[n];
    PayoutIfWins(p.accepted, p.entryAcc, w.markets[i].books[p.outcome].acc)
  }

  /** Nothing accepted since `from` entered market `id` against outcome o. */
  ghost predicate Unopposed(ps: seq<Position>, from: nat, id: string, o: nat) {
    forall k :: from <= k < |ps| && Against(ps[k], id, o) ==> ps[k].accepted == 0
  }

  lemma PayoutMonotone(s: int, a: int, acc: int, acc': int)
    requires s >= 0 && a <= acc <= acc'
    ensures s <= PayoutIfWins(s, a, acc) <= PayoutIfWins(s, a, acc')
  {
    MulMono(0, acc - a, s);
    MulMono(SCALE, SCALE + acc - a, s);
    MulMono(SCALE + acc - a, SCALE + acc' - a, s);
    MulMono(0, SCALE, s);
    FloorMono(s * SCALE, s * (SCALE + acc - a), SCALE);
    FloorMono(s * (SCALE + acc - a), s * (SCALE + acc' - a), SCALE);
    FloorShift(0, s, SCALE);
    assert s * (SCALE + acc - a) >= 0 && s * (SCALE + acc' - a) >= 0;
  }

  /** Equal stakes on one outcome are paid by seniority. */
  lemma PayoutSenior(s: int, early: int, late: int, acc: int)
    requires s >= 0 && early <= late <= acc
    ensures PayoutIfWins(s, late, acc) <= PayoutIfWins(s, early, acc)
  {
    MulMono(0, SCALE + acc - late, s);
    MulMono(SCALE + acc - late, SCALE + acc - early, s);
    FloorMono(s * (SCALE + acc - late), s * (SCALE + acc - early), SCALE);
  }

  /** What the list says about the accumulators of position n: it entered at the accumulator
      of its time, which has not fallen since, nor moved while unopposed. */
  lemma Standing(m0: Market, ps: seq<Position>, n: nat)
    requires Funded(m0.books) && Faithful(m0, ps) && NonNegative(ps) && n < |ps| && ps[n].marketId == m0.id
    ensures ps[n].outcome < |m0.books|
    ensures ps[n].entryAcc <= AccOf(m0, ps, ps[n].outcome)
    ensures Unopposed(ps, n, m0.id, ps[n].outcome) ==> ps[n].entryAcc == AccOf(m0, ps, ps[n].outcome)
    ensures ps[n].entryAcc == AccOf(m0, ps[..n], ps[n].outcome)
  {
    assert Genuine(m0, ps, n);
    AccMonotone(m0.kappa, m0.books[ps[n].outcome], ps, m0.id, ps[n].outcome, n);
  }

  function AccOf(m0: Market, ps: seq<Position>, o: nat): int
    requires Funded(m0.books) && o < |m0.books|
  {
    Replay(m0.kappa, m0.books[o], ps, m0.id, o).acc
  }

  /** From a list to a longer one the accumulator rises, or stands still while unopposed. */
  lemma AccOverTime(m0: Market, ps: seq<Position>, qs: seq<Position>, o: nat)
    requires Funded(m0.books) && NonNegative(qs) && Extends(ps, qs) && o < |m0.books|
    ensures AccOf(m0, ps, o) <= AccOf(m0, qs, o)
    ensures Unopposed(qs, |ps|, m0.id, o) ==> AccOf(m0, ps, o) == AccOf(m0, qs, o)
  {
    ReplayIgnoresClaims(m0.kappa, m0.books[o], ps, qs[..|ps|], m0.id, o);
    AccMonotone(m0.kappa, m0.books[o], qs, m0.id, o, |ps|);
  }

  lemma PayoutAtEntry(s: int, acc: int)
    requires s >= 0
    ensures PayoutIfWins(s, acc, acc) == s
  {
    assert SCALE + acc - acc == SCALE;
    FloorShift(0, s, SCALE);
    MulMono(0, SCALE, s);
  }

  /** Two states of one run, and a position that stands in both. */
  lemma TwoStates(w0: World, steps: seq<Step>, later: seq<Step>, i: nat, n: nat)
    requires WellFormed(w0) && w0.positions == [] && i < |w0.markets|
    requires KnownOutcomes(w0, steps) && KnownOutcomes(w0, later) && Offers(steps) && Offers(later)
    requires n < |Run(w0, steps).positions| && Run(w0, steps).positions[n].marketId == w0.markets[i].id
    ensures var w, w' := Run(w0, steps), Run(Run(w0, steps), later);
            && Tracks(w0, w) && Tracks(w0, w') && NonNegative(w.positions) && NonNegative(w'.positions)
            && Extends(w.positions, w'.positions)
            && w'.positions[n].(claimed := w.positions[n].claimed) == w.positions[n]
  {
    var w := Run(w0, steps);
    RunTracks(w0, steps);
    RunNonNegative(w0, steps);
    ContinuationTracks(w0, w, later);
    KnownFrom(w0, w, later);
    RunNonNegative(w, later);
    RunExtends(w, later);
    assert Run(w, later).positions[..|w.positions|][n] == Run(w, later).positions[n];
  }

  /** The floor, claim invariance and late neutrality. Over any continuation of any run a
      position's worth if it wins never falls; it is exactly unchanged unless opposing stake
      is accepted meanwhile; and until that first happens it is exactly the principal. */
  lemma WorthOverTime(w0: World, steps: seq<Step>, later: seq<Step>, i: nat, n: nat)
    requires WellFormed(w0) && w0.positions == [] && i < |w0.markets|
    requires KnownOutcomes(w0, steps) && KnownOutcomes(w0, later) && Offers(steps) && Offers(later)
    requires n < |Run(w0, steps).positions| && Run(w0, steps).positions[n].marketId == w0.markets[i].id
    ensures var w, w' := Run(w0, steps), Run(Run(w0, steps), later);
            var p := w.positions[n];
            && p.outcome < |w.markets[i].books| == |w'.markets[i].books|
            && n < |w'.positions| && w'.positions[n].(claimed := p.claimed) == p
            && p.accepted <= WorthIfWins(w, i, n) <= WorthIfWins(w', i, n)
            && (Unopposed(w'.positions, |w.positions|, p.marketId, p.outcome) ==>
                  WorthIfWins(w', i, n) == WorthIfWins(w, i, n))
            && (Unopposed(w'.positions, n, p.marketId, p.outcome) ==> WorthIfWins(w', i, n) == p.accepted)
  {
    TwoStates(w0, steps, later, i, n);
    var ps, qs := Run(w0, steps).positions, Run(Run(w0, steps), later).positions;
    var m0, p := w0.markets[i], ps[n];
    Standing(m0, ps, n);
    Standing(m0, qs, n);
    AccOverTime(m0, ps, qs, p.outcome);
    PayoutMonotone(p.accepted, p.entryAcc, AccOf(m0, ps, p.outcome), AccOf(m0, qs, p.outcome));
    PayoutAtEntry(p.accepted, p.entryAcc);
  }

  /** The earlier of two positions on one outcome entered at the lower accumulator. */
  lemma SeniorAcc(m0: Market, ps: seq<Position>, n: nat, k: nat)
    requires Funded(m0.books) && Faithful(m0, ps) && NonNegative(ps) && n <= k < |ps|
    requires ps[n].marketId == ps[k].marketId == m0.id && ps[n].outcome == ps[k].outcome
    ensures ps[n].outcome < |m0.books|
    ensures ps[n].entryAcc <= ps[k].entryAcc <= AccOf(m0, ps, ps[n].outcome)
  {
    Standing(m0, ps, n);
    Standing(m0, ps, k);
    assert ps[..k][..n] == ps[..n];
    AccMonotone(m0.kappa, m0.books[ps[n].outcome], ps[..k], m0.id, ps[n].outcome, n);
  }

  /** Of two equal stakes on one outcome the earlier is paid at least as much. */
  lemma EarlierIsPaidMore(w0: World, steps: seq<Step>, i: nat, n: nat, k: nat)
    requires WellFormed(w0) && w0.positions == [] && i < |w0.markets|
    requires KnownOutcomes(w0, steps) && Offers(steps)
    requires n <= k < |Run(w0, steps).positions|
    requires var p, q := Run(w0, steps).positions[n], Run(w0, steps).positions[k];
             p.marketId == q.marketId == w0.markets[i].id && p.outcome == q.outcome && p.accepted == q.accepted
    ensures var w := Run(w0, steps);
            && w.positions[n].outcome < |w.markets[i].books|
            && WorthIfWins(w, i, k) <= WorthIfWins(w, i, n)
  {
    var ps := Run(w0, steps).positions;
    RunTracks(w0, steps);
    RunNonNegative(w0, steps);
    SeniorAcc(w0.markets[i], ps, n, k);
    PayoutSenior(ps[n].accepted, ps[n].entryAcc, ps[k].entryAcc, AccOf(w0.markets[i], ps, ps[n].outcome));
  }

  // ------------------------------------------------------------------ settlement is final

  lemma {:induction false} MovedKeepsOthers(w: World, moves: seq<Move>, i: nat)
    requires WellFormed(w) && InRange(w, moves) && i < |w.markets|
    requires forall k :: 0 <= k < |moves| ==> moves[k].market != i
    ensures Moved(w, moves).markets[i] == w.markets[i]
  {
    if |moves| > 0 { MovedKeepsOthers(w, moves[..|moves| - 1], i); }
  }

  lemma {:induction false} TickKeepsSettled(w: World, k: nat, i: nat)
    requires WellFormed(w) && k <= |w.markets| && i < |w.markets| && w.markets[i].status != Open
    ensures TickFirst(w, k).markets[i] == w.markets[i]
  {
    if k > 0 {
      TickKeepsSettled(w, k - 1, i);
      var v := TickFirst(w, k - 1);
      MovedKeepsOthers(v, MarketMoves(v, k - 1), i);
    }
  }

  lemma {:induction false} SettleKeepsSettled(w: World, now: int, k: nat, i: nat)
    requires WellFormed(w) && k <= |w.markets| && i < |w.markets| && w.markets[i].status != Open
    ensures SettleFirst(w, now, k).markets[i] == w.markets[i]
  {
    if k > 0 { SettleKeepsSettled(w, now, k - 1, i); }
  }

  /** No step moves a settled market, except an entry that names it, which moves only its books. */
  lemma ApplyKeepsSettled(w: World, s: Step, i: nat)
    requires WellFormed(w) && i < |w.markets| && w.markets[i].status != Open
    ensures Apply(w, s).markets[i].(books := w.markets[i].books) == w.markets[i]
    ensures !(s.EnterStep? && s.id == w.markets[i].id) ==> Apply(w, s).markets[i] == w.markets[i]
  {
    if s.TickStep? { TickKeepsSettled(w, |w.markets|, i); }
    if s.SettleStep? { SettleKeepsSettled(w, s.now, |w.markets|, i); }
  }

  /** A settled market keeps its status and winner over every continuation, and everything
      about it, accumulators included, over one in which nobody enters it by name. */
  lemma {:induction false} SettledIsFinal(w: World, steps: seq<Step>, i: nat)
    requires WellFormed(w) && i < |w.markets| && w.markets[i].status != Open
    ensures var m, m' := w.markets[i], Run(w, steps).markets[i];
            && m'.(books := m.books) == m
            && ((forall s :: s in steps && s.EnterStep? ==> s.id != m.id) ==> m' == m)
  {
    if |steps| > 0 {
      var front, last := steps[..|steps| - 1], steps[|steps| - 1];
      SettledIsFinal(w, front, i);
      assert last in steps;
      ApplyKeepsSettled(Run(w, front), last, i);
    }
  }
}
