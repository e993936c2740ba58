/** Exact integer arithmetic shared by every ledger: fixed-point scale, the unbounded
    sentinel, truncating division, and the few nonlinear facts the proofs use. */
module Numbers {

  datatype Option<+T> = None | Some(value: T)

  /** The fixed-point base of every accumulator. */
  const SCALE: int := 1_000_000_000_000_000_000

  /** 2^256 - 1: what an unbounded capacity coefficient, capacity or headroom reads as. */
  const UNBOUNDED: int :=
    0xFFFF_FFFF_FFFF_FFFF_FFFF_FFFF_FFFF_FFFF_FFFF_FFFF_FFFF_FFFF_FFFF_FFFF_FFFF_FFFF

  /** Division of a bigint by a positive bigint, which drops the fraction towards zero. */
  function TruncDiv(a: int, b: int): int
    requires b > 0
  {
    if a >= 0 then a / b else -((-a) / b)
  }

  /** What TruncDiv drops; it has the sign of the dividend. */
  function TruncRem(a: int, b: int): int
    requires b > 0
  {
    if a >= 0 then a % b else -((-a) % b)
  }

  lemma TruncSplits(a: int, b: int)
    requires b > 0
    ensures TruncDiv(a, b) * b + TruncRem(a, b) == a
    ensures a >= 0 ==> 0 <= TruncRem(a, b) < b
    ensures a <= 0 ==> -b < TruncRem(a, b) <= 0
  {
    var q := (-a) / b;
    assert (-q) * b == -(q * b);
  }

  lemma DivNonNegative(a: int, b: int)
    requires a >= 0 && b > 0
    ensures a / b >= 0
  {
    if a / b < 0 {
      FloorBounds(a, b);
      MulMono(a / b, -1, b);
    }
  }

  /** floor(a / b) is the integer q with q*b <= a < q*b + b. */
  lemma FloorBounds(a: int, b: int)
    requires b > 0
    ensures (a / b) * b <= a < (a / b) * b + b
  {
  }

  /** q <= floor(a / b) exactly when q*b <= a. */
  lemma FloorIsGreatest(q: int, a: int, b: int)
    requires b > 0
    ensures q <= a / b <==> q * b <= a
  {
    FloorBounds(a, b);
    if q <= a / b {
      MulMono(q, a / b, b);
    } else {
      MulMono(a / b + 1, q, b);
    }
  }

  lemma MulMono(x: int, y: int, k: int)
    requires x <= y && k >= 0
    ensures x * k <= y * k
  {
  }

  lemma MulCancel(x: int, y: int, k: int)
    requires x * k <= y * k && k > 0
    ensures x <= y
  {
    if x > y { MulMono(y + 1, x, k); }
  }

  lemma FloorMono(a: int, b: int, k: int)
    requires a <= b && k > 0
    ensures a / k <= b / k
  {
    FloorBounds(a, k);
    FloorIsGreatest(a / k, b, k);
  }

  /** Flooring a whole multiple added to a number adds the multiple. */
  lemma FloorShift(a: int, q: int, k: int)
    requires k > 0
    ensures (q * k + a) / k == q + a / k
  {
    FloorBounds(a, k);
    FloorIsGreatest(q + a / k, q * k + a, k);
    FloorIsGreatest(q + a / k + 1, q * k + a, k);
  }

  /** x is value divided by unit, without the fraction. */
  ghost predicate Quotient(x: int, value: int, unit: int) {
    if value >= 0 then 0 <= x && x * unit <= value < x * unit + unit
    else x <= 0 && x * unit - unit < value <= x * unit
  }

  lemma FloorIs(x: int, value: int, unit: int)
    requires unit > 0 && value >= 0
    ensures 0 <= x && x * unit <= value < x * unit + unit <==> x == value / unit
  {
    DivNonNegative(value, unit);
    FloorIsGreatest(x, value, unit);
    FloorIsGreatest(x + 1, value, unit);
    NextMultiple(x, unit);
  }

  lemma NextMultiple(x: int, unit: int)
    ensures (x + 1) * unit == x * unit + unit && (-x) * unit == -(x * unit)
  {
  }

  lemma QuotientIs(x: int, value: int, unit: int)
    requires unit > 0
    ensures Quotient(x, value, unit) <==> x == TruncDiv(value, unit)
  {
    if value >= 0 {
      FloorIs(x, value, unit);
    } else {
      FloorIs(-x, -value, unit);
      NextMultiple(x, unit);
    }
  }
}
