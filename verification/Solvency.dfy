/** Whichever outcome wins, the market can pay, and what flooring leaves over is bounded. */
module Solvency {
  import opened Numbers
  import opened VestedWorld
  import opened VestedReplay

  // ------------------------------------------------------------------ sums over a list of positions

  /** Accepted stake on outcome o of market `id`. */
  function Stake(ps: seq<Position>, id: string, o: nat): int {
    if |ps| == 0 then 0
    else
      var p := ps[|ps| - 1];
      Stake(ps[..|ps| - 1], id, o) + if Mine(p, id, o) then p.accepted else 0
  }

  /** Accepted stake on every other outcome of market `id`. */
  function Inflow(ps: seq<Position>, id: string, o: nat): int {
    if |ps| == 0 then 0
    else
      var p := ps[|ps| - 1];
      Inflow(ps[..|ps| - 1], id, o) + if Against(p, id, o) then p.accepted else 0
  }

  /** Accepted stake in market `id`. */
  function Accepted(ps: seq<Position>, id: string): int {
    if |ps| == 0 then 0
    else
      var p := ps[|ps| - 1];
      Accepted(ps[..|ps| - 1], id) + if p.marketId == id then p.accepted else 0
  }

  function Offered(ps: seq<Position>, id: string): int {
    if |ps| == 0 then 0
    else
      var p := ps[|ps| - 1];
      Offered(ps[..|ps| - 1], id) + if p.marketId == id then p.offered else 0
  }

  /** Sum of s * (A - a) over the positions on o, in units of 1 / SCALE. */
  function Vesting(ps: seq<Position>, id: string, o: nat, acc: int): int {
    if |ps| == 0 then 0
    else
      var p := ps[|ps| - 1];
      Vesting(ps[..|ps| - 1], id, o, acc) + if Mine(p, id, o) then p.accepted * (acc - p.entryAcc) else 0
  }

  /** What all positions on o are paid if o wins. */
  function PaidIfWins(ps: seq<Position>, id: string, o: nat, acc: int): int {
    if |ps| == 0 then 0
    else
      var p := ps[|ps| - 1];
      PaidIfWins(ps[..|ps| - 1], id, o, acc) + if Mine(p, id, o) then PayoutIfWins(p.accepted, p.entryAcc, acc) else 0
  }

  /** What claims on market m would pay all its positions as it stands. */
  function PaidOut(m: Market, ps: seq<Position>): int {
    if |ps| == 0 then 0
    else
      var p := ps[|ps| - 1];
      PaidOut(m, ps[..|ps| - 1]) + if p.marketId == m.id then Payout(m, p) else 0
  }

  /** Positions on o with something accepted. */
  function Winners(ps: seq<Position>, id: string, o: nat): nat {
    if |ps| == 0 then 0
    else
      var p := ps[|ps| - 1];
      Winners(ps[..|ps| - 1], id, o) + if Mine(p, id, o) && p.accepted > 0 then 1 else 0
  }

  /** Accepted entries on other outcomes of market `id`. */
  function Opposers(ps: seq<Position>, id: string, o: nat): nat {
    if |ps| == 0 then 0
    else
      var p := ps[|ps| - 1];
      Opposers(ps[..|ps| - 1], id, o) + if Against(p, id, o) && p.accepted > 0 then 1 else 0
  }

  /** Sum of s_i * m_i over the positions on o, m_i counting the opposing entries accepted after i. */
  function Exposure(ps: seq<Position>, id: string, o: nat): int {
    if |ps| == 0 then 0
    else (if Mine(ps[0], id, o) then ps[0].accepted * Opposers(ps[1..], id, o) else 0) + Exposure(ps[1..], id, o)
  }

  /** The same sum in order of time: every accepted opposing entry exposes the whole book
      standing before it, `p0` of which was there at opening. */
  function Slack(p0: int, ps: seq<Position>, id: string, o: nat): int {
    if |ps| == 0 then 0
    else
      var front, p := ps[..|ps| - 1], ps[|ps| - 1];
      Slack(p0, front, id, o) + if Against(p, id, o) && p.accepted > 0 then p0 + Stake(front, id, o) else 0
  }

  /** No entry offered a negative amount. */
  ghost predicate NonNegative(ps: seq<Position>) {
    forall n :: 0 <= n < |ps| ==> ps[n].offered >= 0 && ps[n].accepted >= 0
  }

  // ------------------------------------------------------------------ elementary facts

  lemma FaithfulFront(m0: Market, ps: seq<Position>, n: nat)
    requires Funded(m0.books) && Faithful(m0, ps) && n <= |ps|
    ensures Faithful(m0, ps[..n])
  {
    forall k | 0 <= k < n && ps[..n][k].marketId == m0.id ensures Genuine(m0, ps[..n], k) {
      assert ps[..n][..k] == ps[..k];
      assert Genuine(m0, ps, k);
    }
  }

  lemma {:induction false} SumsNonNegative(ps: seq<Position>, id: string, o: nat)
    requires NonNegative(ps)
    ensures Stake(ps, id, o) >= 0 && Inflow(ps, id, o) >= 0
  {
    if |ps| > 0 { SumsNonNegative(ps[..|ps| - 1], id, o); }
  }

  /** Every accepted unit is on o or against it. */
  lemma {:induction false} StakeAndInflow(ps: seq<Position>, id: string, o: nat)
    ensures Stake(ps, id, o) + Inflow(ps, id, o) == Accepted(ps, id)
  {
    if |ps| > 0 { StakeAndInflow(ps[..|ps| - 1], id, o); }
  }

  /** Principal grows by the stake on the book, vested by the stake against it. */
  lemma {:induction false} ReplayTotals(kappa: int, b: Book, ps: seq<Position>, id: string, o: nat)
    requires b.principal > 0 && NonNegative(ps)
    ensures Replay(kappa, b, ps, id, o).principal == b.principal + Stake(ps, id, o)
    ensures Replay(kappa, b, ps, id, o).vested == b.vested + Inflow(ps, id, o)
  {
    if |ps| > 0 { ReplayTotals(kappa, b, ps[..|ps| - 1], id, o); }
  }

  /** The accumulator never falls, and stands still unless opposing stake is accepted. */
  lemma {:induction false} AccMonotone(kappa: int, b: Book, ps: seq<Position>, id: string, o: nat, n: nat)
    requires b.principal > 0 && NonNegative(ps) && n <= |ps|
    ensures Replay(kappa, b, ps[..n], id, o).acc <= Replay(kappa, b, ps, id, o).acc
    ensures (forall k :: n <= k < |ps| && Against(ps[k], id, o) ==> ps[k].accepted == 0)
            ==> Replay(kappa, b, ps[..n], id, o).acc == Replay(kappa, b, ps, id, o).acc
    decreases |ps|
  {
    if n == |ps| {
      assert ps[..n] == ps;
    } else {
      var front := ps[..|ps| - 1];
      AccMonotone(kappa, b, front, id, o, n);
      assert front[..n] == ps[..n];
      assert forall k :: n <= k < |front| ==> front[k] == ps[k];
    }
  }

  lemma {:induction false} VestingShift(ps: seq<Position>, id: string, o: nat, acc: int, d: int)
    ensures Vesting(ps, id, o, acc + d) == Vesting(ps, id, o, acc) + d * Stake(ps, id, o)
  {
    if |ps| > 0 {
      VestingShift(ps[..|ps| - 1], id, o, acc, d);
      var p := ps[|ps| - 1];
      assert p.accepted * (acc + d - p.entryAcc) == p.accepted * (acc - p.entryAcc) + d * p.accepted;
      assert d * (Stake(ps[..|ps| - 1], id, o) + p.accepted) == d * Stake(ps[..|ps| - 1], id, o) + d * p.accepted;
    }
  }

  lemma {:induction false} StakeFront(ps: seq<Position>, id: string, o: nat)
    requires |ps| > 0
    ensures Stake(ps, id, o) == Stake(ps[1..], id, o) + if Mine(ps[0], id, o) then ps[0].accepted else 0
  {
    if |ps| > 1 {
      StakeFront(ps[..|ps| - 1], id, o);
      assert ps[..|ps| - 1][1..] == ps[1..][..|ps| - 2];
    }
  }

  lemma MulSucc(x: int, m: int)
    ensures x * (m + 1) == x * m + x
  {
  }

  /** One more accepted opposing entry exposes all the stake standing before it. */
  lemma {:induction false} ExposureSnoc(ps: seq<Position>, q: Position, id: string, o: nat)
    ensures Exposure(ps + [q], id, o) ==
            Exposure(ps, id, o) + if Against(q, id, o) && q.accepted > 0 then Stake(ps, id, o) else 0
  {
    if |ps| == 0 {
      assert (ps + [q])[1..] == [];
    } else {
      var rest := ps[1..];
      ExposureSnoc(rest, q, id, o);
      StakeFront(ps, id, o);
      assert (ps + [q])[1..] == rest + [q];
      assert (rest + [q])[..|rest|] == rest;
      MulSucc(ps[0].accepted, Opposers(rest, id, o));
    }
  }

  /** Both ways of counting the exposure agree. */
  lemma {:induction false} SlackIsExposure(p0: int, ps: seq<Position>, id: string, o: nat)
    ensures Slack(p0, ps, id, o) == p0 * Opposers(ps, id, o) + Exposure(ps, id, o)
  {
    if |ps| > 0 {
      var front, p := ps[..|ps| - 1], ps[|ps| - 1];
      SlackIsExposure(p0, front, id, o);
      assert ps == front + [p];
      ExposureSnoc(front, p, id, o);
      MulSucc(p0, Opposers(front, id, o));
    }
  }

  // ------------------------------------------------------------------ the invariant behind solvency

  /** What has vested to the holders of book o, the opening principal among them, in units of 1 / SCALE. */
  function Owed(b: Book, ps: seq<Position>, id: string, o: nat, acc: int): int {
    Vesting(ps, id, o, acc) + b.principal * (acc - b.acc)
  }

  /** Raising the accumulator by d pays d to every unit of the book. */
  lemma OwedShift(b: Book, ps: seq<Position>, id: string, o: nat, acc: int, d: int, total: int)
    requires total == b.principal + Stake(ps, id, o)
    ensures Owed(b, ps, id, o, acc + d) == Owed(b, ps, id, o, acc) + d * total
  {
    VestingShift(ps, id, o, acc, d);
    assert b.principal * (acc + d - b.acc) == b.principal * (acc - b.acc) + d * b.principal;
    assert d * total == d * b.principal + d * Stake(ps, id, o);
  }

  lemma OwedSnoc(b: Book, ps: seq<Position>, q: Position, id: string, o: nat, acc: int)
    requires Mine(q, id, o) ==> q.entryAcc == acc
    ensures Owed(b, ps + [q], id, o, acc) == Owed(b, ps, id, o, acc)
  {
    assert (ps + [q])[..|ps|] == ps;
    if Mine(q, id, o) { assert q.accepted * (acc - q.entryAcc) == 0; }
  }

  /** What the divisions by book o's principal dropped as opposing stake vested, in units of 1 / SCALE. */
  function LostVesting(kappa: int, b: Book, ps: seq<Position>, id: string, o: nat): int
    requires b.principal > 0
  {
    if |ps| == 0 then 0
    else
      var front, p := ps[..|ps| - 1], ps[|ps| - 1];
      LostVesting(kappa, b, front, id, o)
      + if Against(p, id, o) then TruncRem(p.accepted * SCALE, Replay(kappa, b, front, id, o).principal) else 0
  }

  /** Everything vested to the holders of book o, the opening principal among them, is the
      opposing stake less exactly what the divisions dropped. */
  lemma {:induction false} Backed(m0: Market, ps: seq<Position>, o: nat)
    requires Funded(m0.books) && Faithful(m0, ps) && NonNegative(ps) && o < |m0.books|
    ensures var b, id := m0.books[o], m0.id;
            Owed(b, ps, id, o, Replay(m0.kappa, b, ps, id, o).acc) + LostVesting(m0.kappa, b, ps, id, o)
            == SCALE * Inflow(ps, id, o)
  {
    if |ps| > 0 {
      var b, id := m0.books[o], m0.id;
      var front, p := ps[..|ps| - 1], ps[|ps| - 1];
      assert ps == front + [p];
      FaithfulFront(m0, ps, |ps| - 1);
      Backed(m0, front, o);
      var r := Replay(m0.kappa, b, front, id, o);
      if Against(p, id, o) {
        ReplayTotals(m0.kappa, b, front, id, o);
        OpposingStep(b, r, front, p, id, o);
      } else {
        if p.marketId == id { assert Genuine(m0, ps, |ps| - 1); }
        OwedSnoc(b, front, p, id, o, r.acc);
      }
    }
  }

  /** An opposing entry pays the holders of book o what it brings less the remainder. */
  lemma OpposingStep(b: Book, r: Book, front: seq<Position>, p: Position, id: string, o: nat)
    requires Against(p, id, o) && r.principal > 0 && r.principal == b.principal + Stake(front, id, o)
    ensures Owed(b, front + [p], id, o, Vest(r, p.accepted).acc) + TruncRem(p.accepted * SCALE, r.principal)
            == Owed(b, front, id, o, r.acc) + SCALE * p.accepted
  {
    var d := VestAdds(r, p.accepted);
    OwedShift(b, front, id, o, r.acc, d, r.principal);
    OwedSnoc(b, front, p, id, o, r.acc + d);
  }

  /** The increment of the accumulator, times the principal, is the stake less the remainder. */
  lemma VestAdds(b: Book, a: int) returns (d: int)
    requires b.principal > 0
    ensures Vest(b, a).acc == b.acc + d && d == TruncDiv(a * SCALE, b.principal)
    ensures d * b.principal + TruncRem(a * SCALE, b.principal) == a * SCALE
  {
    d := TruncDiv(a * SCALE, b.principal);
    TruncSplits(a * SCALE, b.principal);
    if a == 0 { DivZero(b.principal); }
  }

  lemma DivZero(p: int)
    requires p > 0
    ensures TruncDiv(0 * SCALE, p) == 0
  {
    assert 0 * SCALE == 0;
  }

  /** The divisions drop something between nothing and the slack. */
  lemma {:induction false} LostBounds(kappa: int, b: Book, ps: seq<Position>, id: string, o: nat)
    requires b.principal > 0 && NonNegative(ps)
    ensures 0 <= LostVesting(kappa, b, ps, id, o) <= Slack(b.principal, ps, id, o)
  {
    if |ps| > 0 {
      var front, p := ps[..|ps| - 1], ps[|ps| - 1];
      LostBounds(kappa, b, front, id, o);
      var r := Replay(kappa, b, front, id, o);
      ReplayTotals(kappa, b, front, id, o);
      TruncSplits(p.accepted * SCALE, r.principal);
      if p.accepted == 0 { assert p.accepted * SCALE == 0; }
    }
  }

  // ------------------------------------------------------------------ flooring each payout

  /** What flooring the payouts of the positions on o would drop, in units of 1 / SCALE. */
  function LostPaying(ps: seq<Position>, id: string, o: nat, acc: int): int {
    if |ps| == 0 then 0
    else
      var p := ps[|ps| - 1];
      LostPaying(ps[..|ps| - 1], id, o, acc)
      + if Mine(p, id, o) then TruncRem(p.accepted * (SCALE + acc - p.entryAcc), SCALE) else 0
  }

  /** Payouts are principal and vesting less exactly what flooring drops. */
  lemma {:induction false} PaidExactly(ps: seq<Position>, id: string, o: nat, acc: int)
    ensures SCALE * PaidIfWins(ps, id, o, acc) + LostPaying(ps, id, o, acc)
            == SCALE * Stake(ps, id, o) + Vesting(ps, id, o, acc)
  {
    if |ps| > 0 {
      PaidExactly(ps[..|ps| - 1], id, o, acc);
      var p := ps[|ps| - 1];
      if Mine(p, id, o) { PayoutSplits(p.accepted, p.entryAcc, acc); }
    }
  }

  lemma PayoutSplits(s: int, a: int, acc: int)
    ensures SCALE * PayoutIfWins(s, a, acc) + TruncRem(s * (SCALE + acc - a), SCALE) == SCALE * s + s * (acc - a)
  {
    TruncSplits(s * (SCALE + acc - a), SCALE);
    assert s * (SCALE + acc - a) == s * SCALE + s * (acc - a);
  }

  /** The entry accumulators on o are all at most `acc`. */
  ghost predicate EnteredBelow(ps: seq<Position>, id: string, o: nat, acc: int) {
    forall n :: 0 <= n < |ps| && Mine(ps[n], id, o) ==> ps[n].entryAcc <= acc
  }

  lemma {:induction false} PayingBounds(ps: seq<Position>, id: string, o: nat, acc: int)
    requires NonNegative(ps) && EnteredBelow(ps, id, o, acc)
    ensures 0 <= LostPaying(ps, id, o, acc) <= SCALE * Winners(ps, id, o)
  {
    if |ps| > 0 {
      var p := ps[|ps| - 1];
      PayingBounds(ps[..|ps| - 1], id, o, acc);
      if Mine(p, id, o) { RemainderBounds(p.accepted, acc - p.entryAcc); }
    }
  }

  lemma RemainderBounds(s: int, gain: int)
    requires s >= 0 && gain >= 0
    ensures 0 <= TruncRem(s * (SCALE + gain), SCALE) < SCALE
    ensures s == 0 ==> TruncRem(s * (SCALE + gain), SCALE) == 0
  {
    MulMono(0, SCALE + gain, s);
    TruncSplits(s * (SCALE + gain), SCALE);
    if s == 0 { assert s * (SCALE + gain) == 0; }
  }

  lemma FaithfulEnteredBelow(m0: Market, ps: seq<Position>, o: nat)
    requires Funded(m0.books) && Faithful(m0, ps) && NonNegative(ps) && o < |m0.books|
    ensures EnteredBelow(ps, m0.id, o, Replay(m0.kappa, m0.books[o], ps, m0.id, o).acc)
  {
    forall n | 0 <= n < |ps| && Mine(ps[n], m0.id, o)
      ensures ps[n].entryAcc <= Replay(m0.kappa, m0.books[o], ps, m0.id, o).acc
    {
      assert Genuine(m0, ps, n);
      AccMonotone(m0.kappa, m0.books[o], ps, m0.id, o, n);
    }
  }

  /** The residue left if o wins market m, which opened as m0: its own principal and all that
      vested in since opening, less the floored payouts of its positions and of the opening
      principal held as one more position. */
  function Residue(m0: Market, m: Market, ps: seq<Position>, o: nat): int
    requires o < |m0.books| && o < |m.books|
  {
    m.books[o].principal + m.books[o].vested - m0.books[o].vested
    - PaidIfWins(ps, m.id, o, m.books[o].acc)
    - PayoutIfWins(m0.books[o].principal, m0.books[o].acc, m.books[o].acc)
  }

  /** What flooring the payout of the opening principal would drop. */
  function LostOpening(b: Book, acc: int): int {
    TruncRem(b.principal * (SCALE + acc - b.acc), SCALE)
  }

  /** The residue is exactly what the divisions dropped: vesting into the book, paying the
      positions and paying the opening principal. */
  lemma ResidueIs(m0: Market, ps: seq<Position>, o: nat)
    requires Funded(m0.books) && Faithful(m0, ps) && NonNegative(ps) && o < |m0.books|
    ensures var b, id := m0.books[o], m0.id;
            var acc := Replay(m0.kappa, b, ps, id, o).acc;
            SCALE * Residue(m0, m0.(books := ReplayBooks(m0, ps)), ps, o) ==
            LostVesting(m0.kappa, b, ps, id, o) + LostPaying(ps, id, o, acc) + LostOpening(b, acc)
  {
    var b, id := m0.books[o], m0.id;
    var acc := Replay(m0.kappa, b, ps, id, o).acc;
    Backed(m0, ps, o);
    ReplayTotals(m0.kappa, b, ps, id, o);
    PaidExactly(ps, id, o, acc);
    PayoutSplits(b.principal, b.acc, acc);
  }

  /** None of the three parts of the residue is negative, and each is bounded. */
  lemma LossesBounded(m0: Market, ps: seq<Position>, o: nat)
    requires Funded(m0.books) && Faithful(m0, ps) && NonNegative(ps) && o < |m0.books|
    ensures var b, id := m0.books[o], m0.id;
            var acc := Replay(m0.kappa, b, ps, id, o).acc;
            && b.acc <= acc
            && 0 <= LostVesting(m0.kappa, b, ps, id, o) <= Slack(b.principal, ps, id, o)
            && 0 <= LostPaying(ps, id, o, acc) <= SCALE * Winners(ps, id, o)
            && 0 <= LostOpening(b, acc) < SCALE
  {
    var b, id := m0.books[o], m0.id;
    var acc := Replay(m0.kappa, b, ps, id, o).acc;
    LostBounds(m0.kappa, b, ps, id, o);
    FaithfulEnteredBelow(m0, ps, o);
    PayingBounds(ps, id, o, acc);
    AccMonotone(m0.kappa, b, ps, id, o, 0);
    assert ps[..0] == [];
    RemainderBounds(b.principal, acc - b.acc);
    assert SCALE + acc - b.acc == SCALE + (acc - b.acc);
  }

  // ------------------------------------------------------------------ solvency of every run

  lemma {:induction false} PaidOutCases(m: Market, ps: seq<Position>)
    ensures m.status == Open ==> PaidOut(m, ps) == 0
    ensures m.status == Voided ==> PaidOut(m, ps) == Accepted(ps, m.id)
    ensures m.status == Resolved && m.winner.Some? && m.winner.value < |m.books| ==>
              PaidOut(m, ps) == PaidIfWins(ps, m.id, m.winner.value, m.books[m.winner.value].acc)
    ensures m.status == Resolved && (m.winner.None? || m.winner.value >= |m.books|) ==> PaidOut(m, ps) == 0
  {
    if |ps| > 0 { PaidOutCases(m, ps[..|ps| - 1]); }
  }

  /** If o won a market that opened as m0, its positions would not be paid more than was accepted. */
  lemma PaidIfWinsIsCovered(m0: Market, ps: seq<Position>, o: nat)
    requires Funded(m0.books) && Faithful(m0, ps) && NonNegative(ps) && o < |m0.books|
    ensures PaidIfWins(ps, m0.id, o, Replay(m0.kappa, m0.books[o], ps, m0.id, o).acc) <= Accepted(ps, m0.id)
  {
    var b := m0.books[o];
    var acc := Replay(m0.kappa, b, ps, m0.id, o).acc;
    Backed(m0, ps, o);
    LossesBounded(m0, ps, o);
    PaidExactly(ps, m0.id, o, acc);
    OwedCoversVesting(b, ps, m0.id, o, acc);
    StakeAndInflow(ps, m0.id, o);
    MulCancel(PaidIfWins(ps, m0.id, o, acc), Accepted(ps, m0.id), SCALE);
  }

  lemma OwedCoversVesting(b: Book, ps: seq<Position>, id: string, o: nat, acc: int)
    requires acc >= b.acc && b.principal > 0
    ensures Vesting(ps, id, o, acc) <= Owed(b, ps, id, o, acc)
  {
    MulMono(0, acc - b.acc, b.principal);
  }

  lemma TracksCovered(w0: World, w: World, i: nat)
    requires WellFormed(w0) && Tracks(w0, w) && NonNegative(w.positions) && i < |w.markets|
    ensures PaidOut(w.markets[i], w.positions) <= Accepted(w.positions, w.markets[i].id)
  {
    var m := w.markets[i];
    PaidOutCases(m, w.positions);
    ShapeAt(w0, w, i);
    if m.winner.Some? && m.winner.value < |m.books| {
      PaidIfWinsIsCovered(w0.markets[i], w.positions, m.winner.value);
    }
    SumsNonNegative(w.positions, m.id, 0);
    StakeAndInflow(w.positions, m.id, 0);
  }

  lemma {:induction false} MovedNonNegative(w: World, moves: seq<Move>)
    requires WellFormed(w) && InRange(w, moves) && NonNegative(w.positions) && Paying(moves)
    ensures NonNegative(Moved(w, moves).positions)
  {
    if |moves| > 0 { MovedNonNegative(w, moves[..|moves| - 1]); }
  }

  lemma {:induction false} RunNonNegative(w: World, steps: seq<Step>)
    requires WellFormed(w) && NonNegative(w.positions) && Offers(steps)
    ensures NonNegative(Run(w, steps).positions)
  {
    if |steps| > 0 {
      var front, last := steps[..|steps| - 1], steps[|steps| - 1];
      assert last in steps;
      RunNonNegative(w, front);
      if !last.ClaimStep? {
        var moves := StepMoves(Run(w, front), last);
        MovedNonNegative(Run(w, front), moves);
      }
    }
  }

  lemma {:induction false} PaidPlusRefused(m: Market, ps: seq<Position>)
    ensures Offered(ps, m.id) - Accepted(ps, m.id) == Refused(ps, m.id)
  {
    if |ps| > 0 { PaidPlusRefused(m, ps[..|ps| - 1]); }
  }

  /** What is handed back because the books had no room for it. */
  function Refused(ps: seq<Position>, id: string): int {
    if |ps| == 0 then 0
    else
      var p := ps[|ps| - 1];
      Refused(ps[..|ps| - 1], id) + if p.marketId == id then p.offered - p.accepted else 0
  }

  /** Solvency: in every run, in every market and whatever its status, claims pay at most
      what was accepted, and claims with refunds hand back at most what was offered. */
  lemma RunIsSolvent(w0: World, steps: seq<Step>, i: nat)
    requires WellFormed(w0) && w0.positions == [] && i < |w0.markets|
    requires KnownOutcomes(w0, steps) && Offers(steps)
    ensures var w, id := Run(w0, steps), w0.markets[i].id;
            && PaidOut(w.markets[i], w.positions) <= Accepted(w.positions, id)
            && PaidOut(w.markets[i], w.positions) + Refused(w.positions, id) <= Offered(w.positions, id)
  {
    var w := Run(w0, steps);
    RunTracks(w0, steps);
    RunNonNegative(w0, steps);
    ShapeAt(w0, w, i);
    TracksCovered(w0, w, i);
    PaidPlusRefused(w.markets[i], w.positions);
  }

  /** Conservation: in any run and whichever outcome wins, what is left of the pool is exactly
      what the divisions dropped. */
  lemma RunConserves(w0: World, steps: seq<Step>, i: nat, o: nat)
    requires WellFormed(w0) && w0.positions == [] && i < |w0.markets| && o < |w0.markets[i].books|
    requires KnownOutcomes(w0, steps) && Offers(steps)
    ensures var m0, m, ps := w0.markets[i], Run(w0, steps).markets[i], Run(w0, steps).positions;
            && o < |m.books|
            && SCALE * Residue(m0, m, ps, o) ==
               LostVesting(m0.kappa, m0.books[o], ps, m0.id, o)
               + LostPaying(ps, m0.id, o, m.books[o].acc) + LostOpening(m0.books[o], m.books[o].acc)
  {
    RunTracks(w0, steps);
    RunNonNegative(w0, steps);
    ShapeAt(w0, Run(w0, steps), i);
    ResidueIs(w0.markets[i], Run(w0, steps).positions, o);
  }

  /** The flooring residue is never negative in any run, whichever outcome wins, and stays
      under one unit a winner plus the sum of s_i * m_i / SCALE, m_i counting the opposing
      entries accepted after i; the opening principal counts as a winner there from the start. */
  lemma RunResidue(w0: World, steps: seq<Step>, i: nat, o: nat)
    requires WellFormed(w0) && w0.positions == [] && i < |w0.markets| && o < |w0.markets[i].books|
    requires KnownOutcomes(w0, steps) && Offers(steps)
    ensures var m0, m, ps := w0.markets[i], Run(w0, steps).markets[i], Run(w0, steps).positions;
            && o < |m.books|
            && 0 <= Residue(m0, m, ps, o)
            && SCALE * Residue(m0, m, ps, o) <
               SCALE * (Winners(ps, m.id, o) + 1)
               + m0.books[o].principal * Opposers(ps, m.id, o) + Exposure(ps, m.id, o)
  {
    RunConserves(w0, steps, i, o);
    RunTracks(w0, steps);
    RunNonNegative(w0, steps);
    ShapeAt(w0, Run(w0, steps), i);
    LossesBounded(w0.markets[i], Run(w0, steps).positions, o);
    SlackIsExposure(w0.markets[i].books[o].principal, Run(w0, steps).positions, w0.markets[i].id, o);
  }
}
