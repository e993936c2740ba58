/** The documented bound on a stake's multiple, 1 + kappa * (1 + ln g): the growth a book's
    principal passes through never exceeds the logarithm of its whole growth g. */
module Logarithms {
  import opened Numbers
  import opened Quotients
  import opened VestedWorld
  import opened VestedReplay
  import opened Solvency
  import opened ReachableBooks
  import opened Leverage
  import opened Budgets

  // ------------------------------------------------------------------ powers

  ghost function Power(x: real, n: nat): (r: real)
    ensures x >= 0.0 ==> r >= 0.0
  {
    if n == 0 then 1.0 else x * Power(x, n - 1)
  }

  /** A product, kept as one term where products meet products. */
  ghost function Product(a: real, b: real): real {
    a * b
  }

  lemma MulLe(a: real, b: real, c: real, d: real)
    requires 0.0 <= a <= b && 0.0 <= c <= d
    ensures a * c <= b * d
  {
    assert a * c <= b * c;
    assert b * c <= b * d;
  }

  lemma MulMore(c: real, a: real, b: real)
    requires c >= 0.0 && a <= b
    ensures c * a <= c * b
  {
  }

  lemma {:induction false} PowerMono(x: real, y: real, n: nat)
    requires 0.0 <= x <= y
    ensures Power(x, n) <= Power(y, n)
  {
    if n > 0 {
      PowerMono(x, y, n - 1);
      MulLe(x, y, Power(x, n - 1), Power(y, n - 1));
    }
  }

  lemma Regroup(x: real, y: real, xy: real, a: real, b: real)
    requires xy == x * y
    ensures xy * Product(a, b) == Product(x * a, y * b)
  {
    assert xy * (a * b) == (x * a) * (y * b);
  }

  lemma {:induction false} PowerProduct(x: real, y: real, xy: real, n: nat)
    requires xy == x * y
    ensures Power(xy, n) == Product(Power(x, n), Power(y, n))
  {
    if n > 0 {
      hide Product;
      PowerProduct(x, y, xy, n - 1);
      Regroup(x, y, xy, Power(x, n - 1), Power(y, n - 1));
    }
  }

  lemma {:induction false} PowerOfOne(n: nat)
    ensures Power(1.0, n) == 1.0
  {
    if n > 0 { PowerOfOne(n - 1); }
  }

  /** Bernoulli: taking t away n times over takes at most n * t away. */
  lemma {:induction false} Bernoulli(t: real, n: nat)
    requires 0.0 <= t <= 1.0
    ensures Power(1.0 - t, n) >= 1.0 - n as real * t
  {
    if n > 0 {
      Bernoulli(t, n - 1);
      BernoulliStep(t, (n - 1) as real, Power(1.0 - t, n - 1));
    }
  }

  lemma BernoulliStep(t: real, k: real, power: real)
    requires 0.0 <= t <= 1.0 && k >= 0.0 && power >= 1.0 - k * t
    ensures (1.0 - t) * power >= 1.0 - (k + 1.0) * t
  {
    MulMore(1.0 - t, 1.0 - k * t, power);
    var kt := k * t;
    assert (k + 1.0) * t == kt + t;
    assert t * kt == k * (t * t);
    assert (1.0 - t) * (1.0 - kt) == 1.0 - kt - t + t * kt;
    MulLe(0.0, t, 0.0, t);
    MulLe(0.0, k, 0.0, t * t);
  }

  /** (1 + y/n)^n times 1 - y is at most one. */
  lemma PowerAgainst(y: real, n: nat)
    requires 0.0 <= y <= 1.0 && n > 0
    ensures Power(1.0 + y / n as real, n) * (1.0 - y) <= 1.0
  {
    var k := n as real;
    var t := y / k;
    assert k * t == y;
    QuotLe(0.0, y, k);
    QuotGe(1.0, y, k);
    Bernoulli(t, n);
    BelowOne(t, n);
    LowerFactor(Power(1.0 + t, n), Power(1.0 - t, n), 1.0 - y);
  }

  lemma LowerFactor(up: real, down: real, less: real)
    requires up >= 0.0 && less <= down && up * down <= 1.0
    ensures up * less <= 1.0
  {
    MulMore(up, less, down);
  }

  lemma BelowOne(t: real, n: nat)
    requires 0.0 <= t <= 1.0
    ensures Power(1.0 + t, n) * Power(1.0 - t, n) <= 1.0
  {
    var square := t * t;
    MulLe(0.0, t, 0.0, t);
    MulLe(t, 1.0, t, 1.0);
    PowerProduct(1.0 + t, 1.0 - t, 1.0 - square, n);
    PowerMono(1.0 - square, 1.0, n);
    PowerOfOne(n);
  }

  // ------------------------------------------------------------------ the logarithm

  /** start * (1 + x/n)^n is at most now. */
  ghost predicate Compounds(x: real, n: nat, start: int, now: int)
    requires n > 0
  {
    Power(1.0 + x / n as real, n) * start as real <= now as real
  }

  /** x is at most ln(now / start): no (1 + x/n)^n, of which e^x is the limit, exceeds now / start. */
  ghost predicate WithinLog(x: real, start: int, now: int) {
    forall n: nat :: n > 0 ==> Compounds(x, n, start, now)
  }

  lemma NothingCompounds(n: nat, start: int)
    requires n > 0
    ensures Compounds(0.0, n, start, start)
  {
    assert 0.0 / n as real == 0.0;
    PowerOfOne(n);
  }

  /** Compounding two fractions at once yields no more than one after the other. */
  lemma PowerSum(s: real, t: real, n: nat)
    requires s >= 0.0 && t >= 0.0
    ensures Power(1.0 + (s + t), n) <= Product(Power(1.0 + s, n), Power(1.0 + t, n))
  {
    var both := 1.0 + s + t + s * t;
    MulLe(0.0, s, 0.0, t);
    PowerMono(1.0 + (s + t), both, n);
    PowerProduct(1.0 + s, 1.0 + t, both, n);
  }

  /** One step of growth, from p to next, adds at most its own logarithm. */
  lemma CompoundStep(x: real, start: int, p: int, next: int, n: nat)
    requires x >= 0.0 && start >= 0 && 0 < p <= next && n > 0 && Compounds(x, n, start, p)
    ensures Compounds(x + Quo(next - p, next), n, start, next)
  {
    var k, y := n as real, Quo(next - p, next);
    QuoNonNegative(next - p, next);
    QuoAtMost(next - p, next, 1);
    QuotLe(0.0, x, k);
    QuotLe(0.0, y, k);
    QuotAdd(x, y, k);
    PowerSum(x / k, y / k, n);
    PowerAgainst(y, n);
    StepArithmetic(Power(1.0 + (x + y) / k, n), Power(1.0 + x / k, n), Power(1.0 + y / k, n), start as real, y, p as real, next as real);
  }

  lemma StepArithmetic(whole: real, before: real, step: real, start: real, y: real, p: real, next: real)
    requires whole <= Product(before, step) && before >= 0.0 && step >= 0.0 && start >= 0.0
    requires before * start <= p && step * (1.0 - y) <= 1.0 && y * next == next - p && next > 0.0
    ensures whole * start <= next
  {
    assert whole * start <= (before * step) * start;
    assert (before * step) * start == step * (before * start);
    assert step * (before * start) <= step * p;
    assert p == (1.0 - y) * next;
    assert step * p == (step * (1.0 - y)) * next;
    assert (step * (1.0 - y)) * next <= next;
  }

  lemma {:induction false} GrowthCompounds(p0: int, ps: seq<Position>, id: string, o: nat, n: nat, k: nat)
    requires p0 > 0 && NonNegative(ps) && n <= |ps| && k > 0
    ensures p0 + Stake(ps[..n], id, o) > 0 && Growth(p0, ps, id, o, n) >= 0.0
    ensures Compounds(Growth(p0, ps, id, o, n), k, p0 + Stake(ps[..n], id, o), p0 + Stake(ps, id, o))
    decreases |ps|
  {
    hide Compounds, Quo;
    SumsNonNegative(ps[..n], id, o);
    if n == |ps| {
      assert ps[..n] == ps;
      NothingCompounds(k, p0 + Stake(ps, id, o));
    } else {
      var front, p := ps[..|ps| - 1], ps[|ps| - 1];
      assert front[..n] == ps[..n];
      GrowthCompounds(p0, front, id, o, n, k);
      SumsNonNegative(front, id, o);
      if Mine(p, id, o) {
        var was := p0 + Stake(front, id, o);
        QuoNonNegative(p.accepted, was + p.accepted);
        CompoundStep(Growth(p0, front, id, o, n), p0 + Stake(ps[..n], id, o), was, was + p.accepted, k);
      }
    }
  }

  /** The sum of (P_next - P_prev) / P_next over a book's growth is at most the logarithm of how
      many times over it grew. */
  lemma GrowthWithinLog(p0: int, ps: seq<Position>, id: string, o: nat, n: nat)
    requires p0 > 0 && NonNegative(ps) && n <= |ps|
    ensures WithinLog(Growth(p0, ps, id, o, n), p0 + Stake(ps[..n], id, o), p0 + Stake(ps, id, o))
  {
    hide Compounds;
    var x, start, now := Growth(p0, ps, id, o, n), p0 + Stake(ps[..n], id, o), p0 + Stake(ps, id, o);
    forall k: nat | k > 0 ensures Compounds(x, k, start, now) {
      GrowthCompounds(p0, ps, id, o, n, k);
    }
  }

  // ------------------------------------------------------------------ every run

  /** 1 + kappa * (1 + x) times the stake. */
  ghost function LogCap(stake: int, kappa: int, x: real): real {
    stake as real * (1.0 + kappa as real * (1.0 + x))
  }

  /** A payout is at most the stake times one plus the gain per unit. */
  lemma PayoutBelow(s: int, a: int, acc: int, kappa: int, growth: real)
    requires s >= 0 && a <= acc && (acc - a) as real <= LeverageCap(kappa, growth)
    ensures PayoutIfWins(s, a, acc) as real <= LogCap(s, kappa, growth)
  {
    MulMono(0, SCALE + acc - a, s);
    FloorBounds(s * (SCALE + acc - a), SCALE);
    var paid, stake, unit := PayoutIfWins(s, a, acc) as real, s as real, SCALE as real;
    var multiple := 1.0 + kappa as real * (1.0 + growth);
    assert unit * multiple == unit + LeverageCap(kappa, growth);
    assert (SCALE + acc - a) as real <= unit * multiple;
    assert (s * (SCALE + acc - a)) as real == stake * (SCALE + acc - a) as real;
    MulMore(stake, (SCALE + acc - a) as real, unit * multiple);
    assert paid * unit <= stake * (unit * multiple);
    assert stake * (unit * multiple) == (stake * multiple) * unit;
  }

  lemma PositionWithinLog(m0: Market, ps: seq<Position>, n: nat)
    requires Funded(m0.books) && Faithful(m0, ps) && NonNegative(ps) && n < |ps| && ps[n].marketId == m0.id
    requires Bounded(m0.kappa, m0.books) && AllBelowSentinel(m0.kappa, ReplayBooks(m0, ps))
    ensures ps[n].outcome < |m0.books|
    ensures var (p, x) := (ps[n], GrowthSince(m0, ps, n));
            && WithinLog(x, ReplayBooks(m0, ps[..n + 1])[p.outcome].principal, ReplayBooks(m0, ps)[p.outcome].principal)
            && PayoutIfWins(p.accepted, p.entryAcc, AccNow(m0, ps, n)) as real <= LogCap(p.accepted, m0.kappa, x)
  {
    hide WithinLog, PayoutIfWins, LeverageCap;
    PositionGain(m0, ps, n);
    var o := ps[n].outcome;
    ReplayTotals(m0.kappa, m0.books[o], ps, m0.id, o);
    ReplayTotals(m0.kappa, m0.books[o], ps[..n + 1], m0.id, o);
    GrowthWithinLog(m0.books[o].principal, ps, m0.id, o, n + 1);
    PayoutBelow(ps[n].accepted, ps[n].entryAcc, AccNow(m0, ps, n), m0.kappa, GrowthSince(m0, ps, n));
  }

  /** Bounded leverage as documented: over any run whose budget is below the sentinel a position is paid at most
      1 + kappa * (1 + x) times its stake, where x is at most the logarithm of how many times
      over its own book has grown since it entered. */
  lemma LeverageWithinLog(w0: World, steps: seq<Step>, i: nat, n: nat)
    requires WellFormed(w0) && w0.positions == [] && KnownOutcomes(w0, steps) && Offers(steps) && i < |w0.markets|
    requires Bounded(w0.markets[i].kappa, w0.markets[i].books) && Affordable(w0.markets[i], steps)
    requires n < |Run(w0, steps).positions| && Run(w0, steps).positions[n].marketId == w0.markets[i].id
    ensures var m0, w := w0.markets[i], Run(w0, steps);
            var p := w.positions[n];
            && NonNegative(w.positions) && p.outcome < |w.markets[i].books| == |m0.books|
            && var x := GrowthSince(m0, w.positions, n);
               && WithinLog(x, ReplayBooks(m0, w.positions[..n + 1])[p.outcome].principal, w.markets[i].books[p.outcome].principal)
               && PayoutIfWins(p.accepted, p.entryAcc, w.markets[i].books[p.outcome].acc) as real
                  <= LogCap(p.accepted, m0.kappa, x)
  {
    StaysBelowSentinel(w0, steps, i);
    RunTracks(w0, steps);
    RunNonNegative(w0, steps);
    PositionWithinLog(w0.markets[i], Run(w0, steps).positions, n);
  }
}
