/** Real division by a positive number, through multiplication. */
module Quotients {

  ghost function Quo(v: int, p: int): real
    requires p > 0
  {
    v as real / p as real
  }

  lemma QuotLe(q: real, x: real, k: real)
    requires k > 0.0 && q * k <= x
    ensures q <= x / k
  {
    var y := x / k;
    assert y * k == x;
    if q > y { assert q * k > y * k; }
  }

  lemma QuotGe(q: real, x: real, k: real)
    requires k > 0.0 && x <= q * k
    ensures x / k <= q
  {
    var y := x / k;
    assert y * k == x;
    if q < y { assert q * k < y * k; }
  }

  lemma QuotAdd(x: real, y: real, k: real)
    requires k > 0.0
    ensures (x + y) / k == x / k + y / k
  {
  }

  lemma QuotScale(c: real, x: real, k: real)
    requires k > 0.0
    ensures (c * x) / k == c * (x / k)
  {
    var y := x / k;
    assert y * k == x;
    assert (c * y) * k == c * x;
    QuotLe(c * y, c * x, k);
    QuotGe(c * y, c * x, k);
  }

  lemma QuoNonNegative(v: int, p: int)
    requires v >= 0 && p > 0
    ensures Quo(v, p) >= 0.0
  {
    QuotLe(0.0, v as real, p as real);
  }

  /** v <= kappa * p bounds the quotient by kappa. */
  lemma QuoAtMost(v: int, p: int, kappa: int)
    requires p > 0 && v <= kappa * p
    ensures Quo(v, p) <= kappa as real
  {
    assert (kappa * p) as real == kappa as real * p as real;
    QuotGe(kappa as real, v as real, p as real);
  }

  lemma ProductGrowth(x: real, k: real, p: real, d: real)
    requires x <= k && d >= 0.0
    ensures x * (p + d) <= x * p + k * d
  {
    assert x * d <= k * d;
  }

  /** v / p falls by at most kappa * (next - p) / next when the denominator grows from p to next. */
  lemma QuoDrop(v: int, p: int, next: int, kappa: int)
    requires 0 < p <= next && v <= kappa * p
    ensures Quo(v, p) <= Quo(v, next) + kappa as real * Quo(next - p, next)
  {
    var x, k, d, n := Quo(v, p), kappa as real, (next - p) as real, next as real;
    QuoAtMost(v, p, kappa);
    ProductGrowth(x, k, p as real, d);
    assert x * p as real == v as real;
    QuotLe(x, v as real + k * d, n);
    QuotAdd(v as real, k * d, n);
    QuotScale(k, d, n);
  }

  lemma QuoAdd(v: int, a: int, p: int)
    requires p > 0
    ensures Quo(v + a, p) == Quo(v, p) + Quo(a, p)
  {
    QuotAdd(v as real, a as real, p as real);
  }

  /** The floor of a * scale / p is at most scale times the quotient. */
  lemma FloorBelowQuo(a: int, scale: int, p: int)
    requires a >= 0 && scale >= 0 && p > 0
    ensures (a * scale / p) as real <= scale as real * Quo(a, p)
  {
    var q := a * scale / p;
    assert q * p <= a * scale;
    assert (q * p) as real == q as real * p as real;
    assert (a * scale) as real == scale as real * a as real;
    QuotLe(q as real, scale as real * a as real, p as real);
    QuotScale(scale as real, a as real, p as real);
  }

  /** Halving the denominator doubles the quotient. */
  lemma QuoHalved(v: int, p: int)
    requires p > 0
    ensures Quo(v, p) == 2.0 * Quo(v, 2 * p)
  {
    var y := Quo(v, 2 * p);
    assert (2 * p) as real == 2.0 * p as real;
    assert y * (2.0 * p as real) == v as real;
    assert (2.0 * y) * p as real == v as real;
    QuotLe(2.0 * y, v as real, p as real);
    QuotGe(2.0 * y, v as real, p as real);
  }

  lemma QuoDenominator(v: int, p: int, q: int)
    requires v >= 0 && 0 < p <= q
    ensures Quo(v, q) <= Quo(v, p)
  {
    var y := Quo(v, q);
    QuoNonNegative(v, q);
    assert y * q as real == v as real;
    assert y * p as real <= y * q as real;
    QuotLe(y, v as real, p as real);
  }
}
