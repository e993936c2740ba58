/** Bounded leverage: with finite kappa, what a stake can earn per unit is bounded by kappa
    and by how much its own book grows after it, however long the run. */
module Leverage {
  import opened Numbers
  import opened Quotients
  import opened VestedWorld
  import opened VestedReplay
  import opened Solvency
  import opened ReachableBooks

  /** Sum of (P_next - P_prev) / P_next over the growth of book o after the first n entries. */
  ghost function Growth(p0: int, ps: seq<Position>, id: string, o: nat, n: nat): real
    requires p0 > 0 && NonNegative(ps)
  {
    if |ps| <= n then 0.0
    else
      SumsNonNegative(ps, id, o);
      var p := ps[|ps| - 1];
      Growth(p0, ps[..|ps| - 1], id, o, n)
      + if Mine(p, id, o) then Quo(p.accepted, p0 + Stake(ps, id, o)) else 0.0
  }

  /** What a book's ratio of vested stake to principal and a growth cover of a gain per unit. */
  ghost function Cover(kappa: int, r: Book, growth: real): real
    requires r.principal > 0
  {
    SCALE as real * (Quo(r.vested, r.principal) + kappa as real * growth)
  }

  /** Book o was matched after each of the entries. */
  ghost predicate AlwaysMatched(kappa: int, b: Book, ps: seq<Position>, id: string, o: nat)
    requires b.principal > 0
  {
    forall k :: 0 <= k <= |ps| ==> Matched(kappa, Replay(kappa, b, ps[..k], id, o))
  }

  lemma FaithfulMatched(m0: Market, ps: seq<Position>, o: nat)
    requires Funded(m0.books) && Faithful(m0, ps) && NonNegative(ps) && o < |m0.books|
    requires Bounded(m0.kappa, m0.books) && AllBelowSentinel(m0.kappa, ReplayBooks(m0, ps))
    ensures AlwaysMatched(m0.kappa, m0.books[o], ps, m0.id, o)
  {
    forall k | 0 <= k <= |ps| ensures Matched(m0.kappa, Replay(m0.kappa, m0.books[o], ps[..k], m0.id, o)) {
      FaithfulFront(m0, ps, k);
      AllEarlierBelow(m0, ps, k);
      ReplayMatched(m0, ps[..k]);
      assert Matched(m0.kappa, ReplayBooks(m0, ps[..k])[o]);
    }
  }

  lemma MatchedFront(kappa: int, b: Book, ps: seq<Position>, id: string, o: nat)
    requires b.principal > 0 && AlwaysMatched(kappa, b, ps, id, o)
    ensures Matched(kappa, Replay(kappa, b, ps, id, o))
    ensures |ps| > 0 ==> AlwaysMatched(kappa, b, ps[..|ps| - 1], id, o)
  {
    assert ps[..|ps|] == ps;
    if |ps| > 0 {
      var front := ps[..|ps| - 1];
      assert forall k :: 0 <= k <= |front| ==> front[..k] == ps[..k];
    }
  }

  /** What book o has gained per unit since the first n entries is covered by its present
      ratio of vested stake to principal and by its growth since. */
  lemma {:induction false} GainCovered(kappa: int, b: Book, ps: seq<Position>, id: string, o: nat, n: nat)
    requires b.principal > 0 && kappa >= 0 && NonNegative(ps) && n <= |ps| && AlwaysMatched(kappa, b, ps, id, o)
    ensures Gain(kappa, b, ps, id, o, n) as real
            <= Cover(kappa, Replay(kappa, b, ps, id, o), Growth(b.principal, ps, id, o, n))
    decreases |ps|
  {
    MatchedFront(kappa, b, ps, id, o);
    var r := Replay(kappa, b, ps, id, o);
    if n == |ps| {
      assert ps[..n] == ps;
      QuoNonNegative(r.vested, r.principal);
    } else {
      var front, p := ps[..|ps| - 1], ps[|ps| - 1];
      assert front[..n] == ps[..n];
      GainCovered(kappa, b, front, id, o, n);
      ReplayTotals(kappa, b, front, id, o);
      MatchedFront(kappa, b, front, id, o);
      GainStep(kappa, Replay(kappa, b, front, id, o), r, p, id, o, Gain(kappa, b, front, id, o, n),
               Growth(b.principal, front, id, o, n));
    }
  }

  /** What a unit on book o has gained since the first n entries. */
  function Gain(kappa: int, b: Book, ps: seq<Position>, id: string, o: nat, n: nat): int
    requires b.principal > 0 && n <= |ps|
  {
    Replay(kappa, b, ps, id, o).acc - Replay(kappa, b, ps[..n], id, o).acc
  }

  lemma GainStep(kappa: int, q: Book, r: Book, p: Position, id: string, o: nat, gain: int, g: real)
    requires kappa >= 0 && Matched(kappa, q) && p.accepted >= 0 && gain as real <= Cover(kappa, q, g)
    requires r == if Mine(p, id, o) then Grow(kappa, q, p.accepted)
                  else if Against(p, id, o) then Vest(q, p.accepted) else q
    ensures r.principal > 0
    ensures (gain + (r.acc - q.acc)) as real
            <= Cover(kappa, r, g + if Mine(p, id, o) then Quo(p.accepted, q.principal + p.accepted) else 0.0)
  {
    if Mine(p, id, o) {
      GainOwn(kappa, q, p.accepted, gain, g);
    } else if Against(p, id, o) {
      GainOpposed(kappa, q, p.accepted, gain, g);
    }
  }

  /** Own stake trades ratio for growth. */
  lemma GainOwn(kappa: int, r: Book, a: int, gain: int, g: real)
    requires kappa >= 0 && Matched(kappa, r) && a >= 0 && gain as real <= Cover(kappa, r, g)
    ensures gain as real <= Cover(kappa, Grow(kappa, r, a), g + Quo(a, r.principal + a))
    ensures Grow(kappa, r, a).principal == r.principal + a
  {
    QuoDrop(r.vested, r.principal, r.principal + a, kappa);
    var k, y := kappa as real, Quo(a, r.principal + a);
    assert k * (g + y) == k * g + k * y;
  }

  /** Opposing stake raises the ratio by at least what it raises the gain. */
  lemma GainOpposed(kappa: int, r: Book, a: int, gain: int, g: real)
    requires Matched(kappa, r) && a >= 0 && gain as real <= Cover(kappa, r, g)
    ensures (gain + (Vest(r, a).acc - r.acc)) as real <= Cover(kappa, Vest(r, a), g)
  {
    if a > 0 {
      QuoAdd(r.vested, a, r.principal);
      FloorBelowQuo(a, SCALE, r.principal);
      var s, x, y, z := SCALE as real, Quo(r.vested, r.principal), Quo(a, r.principal), kappa as real * g;
      assert s * (x + y + z) == s * (x + z) + s * y;
    }
  }

  // ------------------------------------------------------------------ growth counted in doublings

  ghost function Pow2(k: nat): (r: int)
    ensures r >= 1
  {
    if k == 0 then 1 else 2 * Pow2(k - 1)
  }

  /** The k-th chord of the doubling curve from `start`: k - 1 + p / (2^k * start). */
  ghost function Chord(k: nat, start: int, p: int): real
    requires start > 0
  {
    MulMono(1, Pow2(k), start);
    k as real - 1.0 + Quo(p, Pow2(k) * start)
  }

  /** Up to 2^(k+1) times the start, the k-th chord is the lower of it and the next. */
  lemma ChordStep(k: nat, start: int, p: int)
    requires start > 0 && p <= Pow2(k + 1) * start
    ensures Chord(k, start, p) <= Chord(k + 1, start, p)
  {
    MulMono(1, Pow2(k), start);
    var unit := Pow2(k) * start;
    assert Pow2(k + 1) * start == 2 * unit;
    QuoHalved(p, unit);
    QuoAtMost(p, 2 * unit, 1);
  }

  lemma ChordAtStart(k: nat, start: int)
    requires start > 0
    ensures Chord(k, start, start) >= 0.0
  {
    MulMono(1, Pow2(k), start);
    if k == 0 {
      assert Pow2(0) * start == start;
      QuotLe(1.0, start as real, start as real);
    } else {
      QuoNonNegative(start, Pow2(k) * start);
    }
  }

  /** Growing from p to next moves a chord no steeper than 1 / next by at least (next - p) / next. */
  lemma ChordCovers(k: nat, start: int, p: int, next: int)
    requires start > 0 && 0 < p <= next && Pow2(k) * start <= next
    ensures Chord(k, start, p) + Quo(next - p, next) <= Chord(k, start, next)
  {
    MulMono(1, Pow2(k), start);
    QuoAdd(p, next - p, Pow2(k) * start);
    QuoDenominator(next - p, Pow2(k) * start, next);
  }

  /** A book's growth never outruns any chord, hence never the number of doublings. */
  lemma {:induction false} GrowthBelowChord(p0: int, ps: seq<Position>, id: string, o: nat, n: nat, k: nat)
    requires p0 > 0 && NonNegative(ps) && n <= |ps|
    ensures var start, now := p0 + Stake(ps[..n], id, o), p0 + Stake(ps, id, o);
            && 0 < start <= now
            && Growth(p0, ps, id, o, n) <= Chord(k, start, now)
    decreases |ps|, k
  {
    var start, now := p0 + Stake(ps[..n], id, o), p0 + Stake(ps, id, o);
    SumsNonNegative(ps[..n], id, o);
    if n == |ps| {
      assert ps[..n] == ps;
      ChordAtStart(k, start);
    } else {
      var front, p := ps[..|ps| - 1], ps[|ps| - 1];
      assert front[..n] == ps[..n];
      GrowthBelowChord(p0, front, id, o, n, k);
      if Mine(p, id, o) {
        if Pow2(k) * start <= now {
          ChordCovers(k, start, now - p.accepted, now);
        } else if k > 0 {
          GrowthBelowChord(p0, ps, id, o, n, k - 1);
          ChordStep(k - 1, start, now);
        }
      }
    }
  }

  /** A book that grew by at most 2^d has grown by at most d. */
  lemma GrowthInDoublings(p0: int, ps: seq<Position>, id: string, o: nat, n: nat, d: nat)
    requires p0 > 0 && NonNegative(ps) && n <= |ps|
    requires p0 + Stake(ps, id, o) <= Pow2(d) * (p0 + Stake(ps[..n], id, o))
    ensures Growth(p0, ps, id, o, n) <= d as real
  {
    var start, now := p0 + Stake(ps[..n], id, o), p0 + Stake(ps, id, o);
    GrowthBelowChord(p0, ps, id, o, n, d);
    MulMono(1, Pow2(d), start);
    QuoAtMost(now, Pow2(d) * start, 1);
  }

  // ------------------------------------------------------------------ one position

  /** SCALE * kappa * (1 + growth): the most a unit can gain. */
  ghost function LeverageCap(kappa: int, growth: real): real {
    SCALE as real * kappa as real * (1.0 + growth)
  }

  lemma CoverBelowCap(kappa: int, r: Book, growth: real)
    requires Matched(kappa, r)
    ensures Cover(kappa, r, growth) <= LeverageCap(kappa, growth)
  {
    QuoAtMost(r.vested, r.principal, kappa);
    var s, k, ratio := SCALE as real, kappa as real, Quo(r.vested, r.principal);
    assert s * k * (1.0 + growth) == s * (k + k * growth);
    assert s * (ratio + k * growth) <= s * (k + k * growth);
  }

  /** Growth of the book position n is on, since position n entered. */
  ghost function GrowthSince(m0: Market, ps: seq<Position>, n: nat): real
    requires Funded(m0.books) && NonNegative(ps) && n < |ps| && ps[n].outcome < |m0.books|
  {
    Growth(m0.books[ps[n].outcome].principal, ps, m0.id, ps[n].outcome, n + 1)
  }

  /** The accumulator of position n's outcome after all of ps. */
  function AccNow(m0: Market, ps: seq<Position>, n: nat): int
    requires Funded(m0.books) && n < |ps| && ps[n].outcome < |m0.books|
  {
    ReplayBooks(m0, ps)[ps[n].outcome].acc
  }

  lemma PositionGain(m0: Market, ps: seq<Position>, n: nat)
    requires Funded(m0.books) && Faithful(m0, ps) && NonNegative(ps) && n < |ps| && ps[n].marketId == m0.id
    requires Bounded(m0.kappa, m0.books) && AllBelowSentinel(m0.kappa, ReplayBooks(m0, ps))
    ensures ps[n].outcome < |m0.books|
    ensures (AccNow(m0, ps, n) - ps[n].entryAcc) as real <= LeverageCap(m0.kappa, GrowthSince(m0, ps, n))
    ensures ps[n].entryAcc <= AccNow(m0, ps, n)
  {
    assert Genuine(m0, ps, n);
    var p, b, o, id := ps[n], m0.books[ps[n].outcome], ps[n].outcome, m0.id;
    assert ps[..n + 1] == ps[..n] + [p];
    ReplaySnoc(m0.kappa, b, ps[..n], p, id, o);
    AccMonotone(m0.kappa, b, ps, id, o, n);
    FaithfulMatched(m0, ps, o);
    MatchedFront(m0.kappa, b, ps, id, o);
    GainCovered(m0.kappa, b, ps, id, o, n + 1);
    CoverBelowCap(m0.kappa, Replay(m0.kappa, b, ps, id, o), GrowthSince(m0, ps, n));
  }

  /** The book position n is on holds at most 2^d times what it held once n had entered. */
  ghost predicate Doubled(m0: Market, ps: seq<Position>, n: nat, d: nat)
    requires Funded(m0.books) && n < |ps| && ps[n].outcome < |m0.books|
  {
    var o := ps[n].outcome;
    ReplayBooks(m0, ps)[o].principal <= Pow2(d) * ReplayBooks(m0, ps[..n + 1])[o].principal
  }

  lemma DoubledGrowth(m0: Market, ps: seq<Position>, n: nat, d: nat)
    requires Funded(m0.books) && NonNegative(ps) && n < |ps| && ps[n].outcome < |m0.books| && Doubled(m0, ps, n, d)
    ensures GrowthSince(m0, ps, n) <= d as real
  {
    var o := ps[n].outcome;
    ReplayTotals(m0.kappa, m0.books[o], ps, m0.id, o);
    ReplayTotals(m0.kappa, m0.books[o], ps[..n + 1], m0.id, o);
    GrowthInDoublings(m0.books[o].principal, ps, m0.id, o, n + 1, d);
  }

  /** kappa * (1 + d): the most a unit can have earned once its book has doubled d times. */
  function MultipleCap(kappa: int, d: nat): int {
    kappa * (1 + d)
  }

  lemma WholeBound(gain: int, kappa: int, d: nat, g: real)
    requires kappa >= 0 && g <= d as real
    requires gain as real <= LeverageCap(kappa, g)
    ensures gain <= SCALE * MultipleCap(kappa, d)
  {
    var s, k := SCALE as real, kappa as real;
    assert s * k >= 0.0;
    assert s * k * (1.0 + g) <= s * k * (1.0 + d as real);
    assert (SCALE * (kappa * (1 + d))) as real == s * (k * (1.0 + d as real)) by {
      assert (kappa * (1 + d)) as real == k * (1 + d) as real;
    }
    assert s * k * (1.0 + d as real) == s * (k * (1.0 + d as real));
  }

  lemma PayoutCap(s: int, a: int, acc: int, cap: int)
    requires s >= 0 && a <= acc && acc - a <= SCALE * cap
    ensures PayoutIfWins(s, a, acc) <= s * (1 + cap)
  {
    MulMono(SCALE + acc - a, SCALE * (1 + cap), s);
    MulMono(0, SCALE + acc - a, s);
    assert SCALE * (1 + cap) * s == s * (1 + cap) * SCALE;
    FloorMono(s * (SCALE + acc - a), s * (1 + cap) * SCALE, SCALE);
    FloorShift(0, s * (1 + cap), SCALE);
  }

  /** 1 + kappa * (1 + d) times the stake. */
  function MaxPayout(stake: int, kappa: int, d: nat): int {
    stake * (1 + MultipleCap(kappa, d))
  }

  lemma PositionMultiple(m0: Market, ps: seq<Position>, n: nat, d: nat)
    requires Funded(m0.books) && Faithful(m0, ps) && NonNegative(ps) && n < |ps| && ps[n].marketId == m0.id
    requires Bounded(m0.kappa, m0.books) && AllBelowSentinel(m0.kappa, ReplayBooks(m0, ps))
    requires ps[n].outcome < |m0.books| && Doubled(m0, ps, n, d)
    ensures PayoutIfWins(ps[n].accepted, ps[n].entryAcc, AccNow(m0, ps, n)) <= MaxPayout(ps[n].accepted, m0.kappa, d)
  {
    PositionGain(m0, ps, n);
    DoubledGrowth(m0, ps, n, d);
    WholeBound(AccNow(m0, ps, n) - ps[n].entryAcc, m0.kappa, d, GrowthSince(m0, ps, n));
    PayoutCap(ps[n].accepted, ps[n].entryAcc, AccNow(m0, ps, n), MultipleCap(m0.kappa, d));
  }

  // ------------------------------------------------------------------ every run

  /** Whatever arrives after a position, its gain per unit stays within SCALE * kappa times
      one plus the growth of its own book since it entered. */
  lemma BoundedLeverage(w0: World, steps: seq<Step>, i: nat, n: nat)
    requires WellFormed(w0) && w0.positions == [] && KnownOutcomes(w0, steps) && Offers(steps) && i < |w0.markets|
    requires Bounded(w0.markets[i].kappa, w0.markets[i].books)
    requires AllBelowSentinel(w0.markets[i].kappa, Run(w0, steps).markets[i].books)
    requires n < |Run(w0, steps).positions| && Run(w0, steps).positions[n].marketId == w0.markets[i].id
    ensures var m0, w := w0.markets[i], Run(w0, steps);
            var p := w.positions[n];
            && NonNegative(w.positions) && p.outcome < |w.markets[i].books| == |m0.books|
            && (w.markets[i].books[p.outcome].acc - p.entryAcc) as real <=
               LeverageCap(m0.kappa, GrowthSince(m0, w.positions, n))
  {
    RunTracks(w0, steps);
    RunNonNegative(w0, steps);
    PositionGain(w0.markets[i], Run(w0, steps).positions, n);
  }

  /** A position whose book has at most doubled d times since is paid at most
      1 + kappa * (1 + d) times its stake. */
  lemma BoundedMultiple(w0: World, steps: seq<Step>, i: nat, n: nat, d: nat)
    requires WellFormed(w0) && w0.positions == [] && KnownOutcomes(w0, steps) && Offers(steps) && i < |w0.markets|
    requires Bounded(w0.markets[i].kappa, w0.markets[i].books)
    requires AllBelowSentinel(w0.markets[i].kappa, Run(w0, steps).markets[i].books)
    requires n < |Run(w0, steps).positions| && Run(w0, steps).positions[n].marketId == w0.markets[i].id
    requires Run(w0, steps).positions[n].outcome < |w0.markets[i].books|
    requires Doubled(w0.markets[i], Run(w0, steps).positions, n, d)
    ensures var kappa, w := w0.markets[i].kappa, Run(w0, steps);
            var p := w.positions[n];
            && p.outcome < |w.markets[i].books|
            && PayoutIfWins(p.accepted, p.entryAcc, w.markets[i].books[p.outcome].acc) <= MaxPayout(p.accepted, kappa, d)
  {
    RunTracks(w0, steps);
    RunNonNegative(w0, steps);
    PositionMultiple(w0.markets[i], Run(w0, steps).positions, n, d);
  }
}
