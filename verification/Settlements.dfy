/** What a settlement and a tick do to each market, told from the market alone: who wins, which
    markets are named, how far a price drifts and what the crowd brings to each outcome. */
module Settlements {
  import opened Numbers
  import opened VestedWorld

  // ------------------------------------------------------------------ who wins

  lemma {:induction false} SettledOnce(w: World, now: int, k: nat, i: nat)
    requires WellFormed(w) && k <= |w.markets| && i < |w.markets|
    ensures SettleFirst(w, now, k).positions == w.positions
    ensures SettleFirst(w, now, k).markets[i] == if i < k then SettleMarket(w.markets[i], now) else w.markets[i]
  {
    if k > 0 { SettledOnce(w, now, k - 1, i); }
  }

  /** Settling resolves an open market exactly when its time has come. Outcome 0 wins when the price
      is at or above the strike under direction 0, or below it under any other; outcome 1 wins
      otherwise. Nothing else about it changes, nothing at all about any other market, and no
      position. */
  lemma WinnerByReading(w: World, now: int, i: nat)
    requires WellFormed(w) && i < |w.markets|
    ensures var m, w' := w.markets[i], Apply(w, SettleStep(now));
            && i < |w'.markets| == |w.markets| && w'.positions == w.positions
            && w'.markets[i] ==
               if m.status == Open && m.resolutionTime <= now
               then m.(status := Resolved, winner := Some(if (m.price8 >= m.strike8) == (m.direction == 0) then 0 else 1))
               else m
  {
    SettledOnce(w, now, |w.markets|, i);
    ShapeAt(w, Apply(w, SettleStep(now)), i);
  }

  /** The ids named are those of exactly the markets that settled, in list order. */
  lemma {:induction false} NamedInOrder(markets: seq<Market>, now: int) returns (at: seq<nat>)
    ensures |at| == |SettledIds(markets, now)|
    ensures forall k :: 0 <= k < |at| ==> at[k] < |markets| && SettledIds(markets, now)[k] == markets[at[k]].id
    ensures forall j, k :: 0 <= j < k < |at| ==> at[j] < at[k]
    ensures forall i :: i in at <==> 0 <= i < |markets| && markets[i].status == Open && markets[i].resolutionTime <= now
  {
    at := [];
    if |markets| > 0 {
      var last := |markets| - 1;
      at := NamedInOrder(markets[..last], now);
      if markets[last].status == Open && markets[last].resolutionTime <= now { at := at + [last]; }
    }
  }

  // ------------------------------------------------------------------ scaling

  /** n is the fraction in billionths, to the nearest with a half going up; a fraction beyond a
      billion counts as a billion. */
  ghost predicate NearestNano(n: int, fraction: real) {
    var f := if fraction < 1_000_000_000.0 then fraction else 1_000_000_000.0;
    n as real - 0.5 <= f * 1_000_000_000.0 < n as real + 0.5
  }

  /** x is value times the fraction, which is held to nine decimals, without the fractional unit;
      nothing at all for a fraction of zero or less. */
  ghost predicate Scaled(x: int, value: int, fraction: real) {
    if fraction <= 0.0 then x == 0
    else exists n: int :: NearestNano(n, fraction) && Quotient(x, value * n, 1_000_000_000)
  }

  lemma NanoIs(n: int, fraction: real)
    ensures NearestNano(n, fraction) <==> n == Nanos(fraction)
  {
  }

  lemma ScaledIs(x: int, value: int, fraction: real)
    ensures Scaled(x, value, fraction) <==> x == ScaleByFraction(value, fraction)
  {
    hide NearestNano, Nanos, Quotient, TruncDiv;
    if fraction > 0.0 {
      NanoIs(Nanos(fraction), fraction);
      QuotientIs(x, value * Nanos(fraction), 1_000_000_000);
      if n :| NearestNano(n, fraction) && Quotient(x, value * n, 1_000_000_000) { NanoIs(n, fraction); }
    }
  }

  /** A scaled amount is never negative, and is value times fraction to within one unit and half of
      the fraction's ninth decimal. */
  lemma ScaledIsNear(x: int, value: int, fraction: real)
    requires Scaled(x, value, fraction) && value >= 0 && 0.0 <= fraction <= 1_000_000_000.0
    ensures 0 <= x && x as real <= value as real * (fraction + 0.000_000_000_5)
    ensures value as real * (fraction - 0.000_000_000_5) - 1.0 <= x as real
  {
    hide NearestNano, Quotient;
    if fraction > 0.0 {
      var n: int :| NearestNano(n, fraction) && Quotient(x, value * n, 1_000_000_000);
      NearestBounds(n, fraction);
      MulMono(0, n, value);
      ScaledBounds(x, value * n);
      NearProduct(value as real, n as real, fraction, x as real, (value * n) as real);
    } else {
      MulLeast(value as real, 0.000_000_000_5);
    }
  }

  lemma NearestBounds(n: int, f: real)
    requires NearestNano(n, f) && 0.0 <= f <= 1_000_000_000.0
    ensures n >= 0 && f * 1_000_000_000.0 - 0.5 < n as real <= f * 1_000_000_000.0 + 0.5
  {
  }

  lemma ScaledBounds(x: int, product: int)
    requires product >= 0 && Quotient(x, product, 1_000_000_000)
    ensures x >= 0 && x as real * 1_000_000_000.0 <= product as real < x as real * 1_000_000_000.0 + 1_000_000_000.0
  {
  }

  lemma MulLeast(v: real, c: real)
    requires v >= 0.0 && c >= 0.0
    ensures v * (0.0 + c) >= 0.0 && v * (0.0 - c) <= 0.0
  {
  }

  lemma MulOrder(v: real, a: real, b: real, va: real, vb: real)
    requires v >= 0.0 && a <= b && va == v * a && vb == v * b
    ensures va <= vb
  {
  }

  lemma NearProduct(v: real, n: real, f: real, scaled: real, product: real)
    requires v >= 0.0 && f * 1_000_000_000.0 - 0.5 < n <= f * 1_000_000_000.0 + 0.5
    requires product == v * n && scaled * 1_000_000_000.0 <= product < scaled * 1_000_000_000.0 + 1_000_000_000.0
    ensures scaled <= v * (f + 0.000_000_000_5)
    ensures v * (f - 0.000_000_000_5) - 1.0 <= scaled
  {
    var vf := v * f;
    var above, below := vf * 1_000_000_000.0 + v * 0.5, vf * 1_000_000_000.0 - v * 0.5;
    MulAffine(v, f, 1_000_000_000.0, 0.5);
    MulOrder(v, n, f * 1_000_000_000.0 + 0.5, product, above);
    MulOrder(v, f * 1_000_000_000.0 - 0.5, n, below, product);
    MulSplit(v, f, 0.000_000_000_5);
  }

  lemma MulAffine(v: real, f: real, a: real, b: real)
    ensures v * (f * a + b) == (v * f) * a + v * b && v * (f * a - b) == (v * f) * a - v * b
  {
  }

  lemma MulSplit(v: real, f: real, c: real)
    ensures v * (f + c) == v * f + v * c && v * (f - c) == v * f - v * c
  {
  }
}
