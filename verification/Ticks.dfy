/** What a tick of everybody else does, told from the world it finds: how far each price drifts, and
    which entries the crowd makes on which outcomes and for how much. */
module Ticks {
  import opened Numbers
  import opened VestedWorld
  import opened VestedReplay
  import opened Edges
  import opened Budgets
  import opened Settlements

  /** All principal in a list of books. */
  function Principals(books: seq<Book>): int {
    if books == [] then 0 else books[0].principal + Principals(books[1..])
  }

  lemma {:induction false} PoolIsPrincipals(books: seq<Book>)
    ensures Pool(books) == Principals(books)
  {
    if |books| > 0 {
      PoolIsPrincipals(books[..|books| - 1]);
      PrincipalsSnoc(books[..|books| - 1], books[|books| - 1]);
      assert books[..|books| - 1] + [books[|books| - 1]] == books;
    }
  }

  lemma {:induction false} PrincipalsSnoc(books: seq<Book>, b: Book)
    ensures Principals(books + [b]) == Principals(books) + b.principal
  {
    if |books| > 0 {
      PrincipalsSnoc(books[1..], b);
      assert (books + [b])[1..] == books[1..] + [b];
    }
  }

  // ------------------------------------------------------------------ the size of a share

  /** x is flow * part / whole, or falls short of it by less than one unit and a billionth of the flow. */
  ghost predicate NearShare(x: int, flow: int, part: int, whole: int) {
    && x * whole <= flow * part
    && flow * part * FRACTION_SCALE < (x + 1) * whole * FRACTION_SCALE + flow * whole
  }

  /** The two floors of a share, together. */
  lemma TwoFloors(x: int, q: int, flow: int, part: int, whole: int)
    requires flow >= 0 && part >= 0 && whole > 0
    requires q * whole <= part * FRACTION_SCALE < q * whole + whole
    requires x * FRACTION_SCALE <= flow * q < x * FRACTION_SCALE + FRACTION_SCALE
    ensures NearShare(x, flow, part, whole)
  {
    var fp, fw, fq, xw := flow * part, flow * whole, flow * q, x * whole;
    var qw := q * whole;
    Triple(flow, q, whole);
    Triple(flow, part, FRACTION_SCALE);
    Triple(x, FRACTION_SCALE, whole);
    MulMono(qw, part * FRACTION_SCALE, flow);
    MulMono(part * FRACTION_SCALE, qw + whole, flow);
    MulMono(x * FRACTION_SCALE, fq, whole);
    MulMono(fq + 1, x * FRACTION_SCALE + FRACTION_SCALE, whole);
    Sums(flow, qw, whole);
    Sums(whole, fq, 1);
    Sums(whole, x * FRACTION_SCALE, FRACTION_SCALE);
    Sums(whole, x, 1);
    MulCancel(xw, fp, FRACTION_SCALE);
    assert (x + 1) * whole == xw + whole;
  }

  lemma Triple(a: int, b: int, c: int)
    ensures (a * b) * c == a * (b * c) == (a * c) * b == (b * c) * a == c * (a * b)
  {
  }

  lemma Sums(k: int, a: int, b: int)
    ensures (a + b) * k == a * k + b * k && k * (a + b) == k * a + k * b
  {
  }

  lemma ShareIsNear(flow: int, books: seq<Book>, o: nat)
    requires Funded(books) && o < |books| && flow >= 0
    ensures Pool(books) > 0 && NearShare(Split(flow, books, Pool(books))[o], flow, books[o].principal, Pool(books))
  {
    var p, pool := books[o].principal, Pool(books);
    PrincipalWithinPool(books, o);
    ShareIsExact(flow, p, pool);
    var q := (p * FRACTION_SCALE) / pool;
    FloorBounds(p * FRACTION_SCALE, pool);
    MulMono(0, q, flow);
    FloorBounds(flow * q, FRACTION_SCALE);
    TwoFloors((flow * q) / FRACTION_SCALE, q, flow, p, pool);
  }

  // ------------------------------------------------------------------ the arrivals

  /** The first of `at` where an amount above zero stands are exactly the listed ones, in order. */
  ghost predicate Positives(amounts: seq<int>, k: nat, at: seq<nat>)
    requires k <= |amounts|
  {
    && (forall a, b :: 0 <= a < b < |at| ==> at[a] < at[b])
    && (forall o :: o in at <==> 0 <= o < k && amounts[o] > 0)
  }

  /** From number `from` on, ps goes on with the crowd's entries into market `id`, one for each outcome
      in `at`. */
  ghost predicate CrowdEntered(ps: seq<Position>, from: nat, id: string, at: seq<nat>, amounts: seq<int>) {
    && from + |at| <= |ps|
    && forall n :: 0 <= n < |at| ==>
         && at[n] < |amounts| && ps[from + n].marketId == id && ps[from + n].owner == CROWD
         && ps[from + n].outcome == at[n] && ps[from + n].offered == amounts[at[n]] && !ps[from + n].claimed
  }

  /** Everything about a market but its price and its books. */
  ghost predicate SameButTraded(m: Market, m': Market) {
    m' == m.(price8 := m'.price8, books := m'.books)
  }

  /** Only market i moved, and positions were only added. */
  ghost predicate OnlyAt(w: World, w': World, i: nat) {
    && |w'.markets| == |w.markets| && w.positions <= w'.positions
    && forall j :: 0 <= j < |w.markets| && j != i ==> w'.markets[j] == w.markets[j]
  }

  /** Between w and w' the crowd came to market i, on the outcomes in `at`, and nothing else happened. */
  ghost predicate CrowdCame(w: World, w': World, i: nat, at: seq<nat>, amounts: seq<int>)
    requires i < |w.markets|
  {
    && OnlyAt(w, w', i) && SameButTraded(w.markets[i], w'.markets[i]) && w'.markets[i].price8 == w.markets[i].price8
    && |w'.positions| == |w.positions| + |at|
    && CrowdEntered(w'.positions, |w.positions|, w.markets[i].id, at, amounts)
  }

  lemma EnteredOn(ps: seq<Position>, from: nat, id: string, at: seq<nat>, amounts: seq<int>, p: Position)
    requires CrowdEntered(ps, from, id, at, amounts) && |ps| == from + |at|
    requires p.outcome < |amounts| && p.marketId == id && p.owner == CROWD && p.offered == amounts[p.outcome] && !p.claimed
    ensures CrowdEntered(ps + [p], from, id, at + [p.outcome], amounts)
  {
    var more, on := ps + [p], at + [p.outcome];
    forall n | 0 <= n < |on|
      ensures on[n] < |amounts| && more[from + n].marketId == id && more[from + n].owner == CROWD
      ensures more[from + n].outcome == on[n] && more[from + n].offered == amounts[on[n]] && !more[from + n].claimed
    {
      if n < |at| { assert at[n] < |amounts| && more[from + n] == ps[from + n]; }
    }
  }

  lemma ArrivalLands(w: World, v: World, i: nat, at: seq<nat>, outcome: nat, amounts: seq<int>)
    requires WellFormed(v) && i < |w.markets| && CrowdCame(w, v, i, at, amounts)
    requires outcome < |amounts| && outcome < |v.markets[i].books|
    ensures CrowdCame(w, MoveTo(v, Arrive(i, outcome, amounts[outcome], CROWD)), i, at + [outcome], amounts)
  {
    hide WellFormed, CrowdEntered;
    var x := MoveTo(v, Arrive(i, outcome, amounts[outcome], CROWD));
    var p := x.positions[|v.positions|];
    EnteredOn(v.positions, |w.positions|, w.markets[i].id, at, amounts, p);
    assert x.positions == v.positions + [p];
  }

  lemma {:induction false} ArrivalsLand(w: World, i: nat, amounts: seq<int>, k: nat) returns (at: seq<nat>)
    requires WellFormed(w) && i < |w.markets| && k <= |amounts| <= |w.markets[i].books|
    ensures InRange(w, Arrivals(i, amounts, k)) && Positives(amounts, k, at)
    ensures CrowdCame(w, Moved(w, Arrivals(i, amounts, k)), i, at, amounts)
  {
    hide WellFormed, CrowdCame, MoveTo, Moved, Positives;
    if k == 0 {
      at := NoneCame(w, i, amounts);
    } else {
      at := ArrivalsLand(w, i, amounts, k - 1);
      PositivesOn(amounts, k, at);
      if amounts[k - 1] > 0 {
        var before, v := Arrivals(i, amounts, k - 1), Arrive(i, k - 1, amounts[k - 1], CROWD);
        MovedSnoc(w, before, v);
        ShapeAt(w, Moved(w, before), i);
        ArrivalLands(w, Moved(w, before), i, at, k - 1, amounts);
        at := at + [k - 1];
      }
    }
  }

  lemma PositivesOn(amounts: seq<int>, k: nat, at: seq<nat>)
    requires 0 < k <= |amounts| && Positives(amounts, k - 1, at)
    ensures Positives(amounts, k, if amounts[k - 1] > 0 then at + [k - 1] else at)
  {
    if amounts[k - 1] > 0 {
      var longer := at + [k - 1];
      forall o ensures o in longer <==> 0 <= o < k && amounts[o] > 0 {
        assert o in longer <==> o in at || o == k - 1;
      }
      forall a, b | 0 <= a < b < |longer| ensures longer[a] < longer[b] {
        assert longer[a] in at;
      }
    } else {
      forall o ensures o in at <==> 0 <= o < k && amounts[o] > 0 {}
    }
  }

  lemma NoneCame(w: World, i: nat, amounts: seq<int>) returns (at: seq<nat>)
    requires WellFormed(w) && i < |w.markets|
    ensures at == [] && Positives(amounts, 0, at) && CrowdCame(w, Moved(w, []), i, at, amounts)
  {
    at := [];
  }

  // ------------------------------------------------------------------ one tick

  /** What a tick leaves of market i, which it finds as m: `shares` is what the crowd offers on each
      outcome, and its entries stand in the list of positions from number `from` on. */
  ghost predicate Ticked(w: World, w': World, i: nat, shares: seq<int>, at: seq<nat>, from: nat)
    requires i < |w.markets| <= |w'.markets|
  {
    var m := w.markets[i];
    && SameButTraded(m, w'.markets[i]) && w'.markets[i].price8 == (if m.status == Open
         then DriftPrice(m.price8, m.driftPerTick) else m.price8)
    && |shares| == |m.books| && Positives(shares, |shares|, at)
    && |w.positions| <= from && CrowdEntered(w'.positions, from, m.id, at, shares)
    && (forall n :: |w.positions| <= n < |w'.positions| && w'.positions[n].marketId == m.id ==> from <= n < from + |at|)
  }

  ghost predicate NearShares(m: Market, shares: seq<int>) {
    && |shares| == |m.books|
    && forall o :: 0 <= o < |shares| ==>
         if m.status == Open && m.flowPerTick >= 0
         then NearShare(shares[o], m.flowPerTick, m.books[o].principal, Principals(m.books))
         else shares[o] <= 0
  }

  /** What ticking market i alone comes to: the drift, then the crowd. */
  ghost predicate TickedHere(v: World, x: World, i: nat, shares: seq<int>, at: seq<nat>)
    requires i < |v.markets|
  {
    var m := v.markets[i];
    && NearShares(m, shares) && Positives(shares, |shares|, at)
    && OnlyAt(v, x, i) && SameButTraded(m, x.markets[i])
    && x.markets[i].price8 == (if m.status == Open then DriftPrice(m.price8, m.driftPerTick) else m.price8)
    && |x.positions| == |v.positions| + |at|
    && CrowdEntered(x.positions, |v.positions|, m.id, at, shares)
  }

  lemma Drifted(v: World, i: nat)
    requires WellFormed(v) && i < |v.markets|
    ensures var d := MoveTo(v, Drift(i));
            d.positions == v.positions && |d.markets| == |v.markets|
            && d.markets[i] == v.markets[i].(price8 := DriftPrice(v.markets[i].price8, v.markets[i].driftPerTick))
            && forall j :: 0 <= j < |v.markets| && j != i ==> d.markets[j] == v.markets[j]
  {
  }

  lemma NearShareOfNone(part: int, whole: int)
    requires whole > 0
    ensures NearShare(0, 0, part, whole)
  {
  }

  /** The crowd's shares are near when there is flow, and nothing when there is none. */
  lemma SplitIsNear(m: Market)
    requires Funded(m.books)
    ensures m.status == Open ==> NearShares(m, Split(m.flowPerTick, m.books, Pool(m.books)))
    ensures m.status != Open || m.flowPerTick == 0 ==> NearShares(m, seq(|m.books|, _ => 0))
  {
    hide NearShare;
    PoolIsPrincipals(m.books);
    var shares := Split(m.flowPerTick, m.books, Pool(m.books));
    forall o | 0 <= o < |m.books|
      ensures m.flowPerTick >= 0 ==> NearShare(shares[o], m.flowPerTick, m.books[o].principal, Principals(m.books))
      ensures m.flowPerTick < 0 ==> shares[o] <= 0
      ensures NearShare(0, 0, m.books[o].principal, Principals(m.books))
    {
      PrincipalWithinPool(m.books, o);
      NearShareOfNone(m.books[o].principal, Principals(m.books));
      if m.flowPerTick >= 0 { ShareIsNear(m.flowPerTick, m.books, o); }
      else { ScaleOfNegative(m.flowPerTick, Ratio(m.books[o].principal, Pool(m.books))); }
    }
  }

  lemma CameAfterDrift(v: World, d: World, x: World, i: nat, shares: seq<int>, at: seq<nat>)
    requires i < |v.markets| == |d.markets| && v.markets[i].status == Open
    requires d.positions == v.positions
    requires d.markets[i] == v.markets[i].(price8 := DriftPrice(v.markets[i].price8, v.markets[i].driftPerTick))
    requires forall j :: 0 <= j < |v.markets| && j != i ==> d.markets[j] == v.markets[j]
    requires CrowdCame(d, x, i, at, shares) && NearShares(v.markets[i], shares) && Positives(shares, |shares|, at)
    ensures TickedHere(v, x, i, shares, at)
  {
    hide NearShares, Positives, DriftPrice;
  }

  lemma TickHere(v: World, i: nat) returns (shares: seq<int>, at: seq<nat>)
    requires WellFormed(v) && i < |v.markets|
    ensures TickedHere(v, Moved(v, MarketMoves(v, i)), i, shares, at)
  {
    hide CrowdCame, NearShares, Moved, MoveTo, TickedHere, Split, DriftPrice;
    var m := v.markets[i];
    SplitIsNear(m);
    Drifted(v, i);
    OneMove(v, Drift(i));
    var d := MoveTo(v, Drift(i));
    if m.status != Open {
      shares, at := seq(|m.books|, _ => 0), [];
      TickOfClosed(v, i, shares);
    } else if m.flowPerTick == 0 || Pool(m.books) == 0 {
      shares := if m.flowPerTick == 0 then seq(|m.books|, _ => 0) else Split(m.flowPerTick, m.books, Pool(m.books));
      at := NoneCame(d, i, shares);
      NoneMoved(d);
      CameAfterDrift(v, d, d, i, shares, at);
    } else {
      shares := Split(m.flowPerTick, m.books, Pool(m.books));
      at := ArrivalsLand(d, i, shares, |m.books|);
      var x := Moved(d, Arrivals(i, shares, |m.books|));
      TickPieces(v, i, d, x);
      CameAfterDrift(v, d, x, i, shares, at);
    }
  }

  lemma NoneMoved(d: World)
    requires WellFormed(d)
    ensures Moved(d, []) == d
  {
  }

  lemma TickOfClosed(v: World, i: nat, shares: seq<int>)
    requires WellFormed(v) && i < |v.markets| && v.markets[i].status != Open && NearShares(v.markets[i], shares)
    requires forall o :: 0 <= o < |shares| ==> shares[o] == 0
    ensures TickedHere(v, Moved(v, MarketMoves(v, i)), i, shares, [])
  {
    hide NearShares, WellFormed;
  }

  // ------------------------------------------------------------------ all markets

  /** The first k markets ticked: market i is ticked once, when its turn comes. */
  lemma {:induction false} TickTurn(w: World, i: nat, k: nat) returns (shares: seq<int>, at: seq<nat>, from: nat)
    requires WellFormed(w) && i < |w.markets| && k <= |w.markets|
    ensures var x := TickFirst(w, k);
            && w.positions <= x.positions && |x.markets| == |w.markets|
            && (k <= i ==> x.markets[i] == w.markets[i] && NoneOf(w, x, i))
            && (k > i ==> NearShares(w.markets[i], shares) && Ticked(w, x, i, shares, at, from))
  {
    hide WellFormed, NearShares, Ticked, NoneOf, TickedHere, Moved, MarketMoves;
    if k == 0 {
      StillNone(w, w, w, i, 0);
      shares, at, from := [], [], 0;
    } else {
      shares, at, from := TickTurn(w, i, k - 1);
      var v := TickFirst(w, k - 1);
      ShapeAt(w, v, i);
      ShapeAt(w, v, k - 1);
      var s, a := TickHere(v, k - 1);
      NewAreHere(v, TickFirst(w, k), k - 1, s, a);
      if k - 1 < i {
        StillNone(w, v, TickFirst(w, k), i, k - 1);
      } else if k - 1 > i {
        StillTicked(w, v, TickFirst(w, k), i, k - 1, shares, at, from);
      } else {
        TurnComes(w, v, TickFirst(w, k), i, s, a);
        shares, at, from := s, a, |v.positions|;
      }
    }
  }

  /** The positions x adds to w's are none of market i's. */
  ghost predicate NoneOf(w: World, x: World, i: nat)
    requires i < |w.markets|
  {
    forall n :: |w.positions| <= n < |x.positions| ==> x.positions[n].marketId != w.markets[i].id
  }

  /** The positions x adds to v's are market j's. */
  ghost predicate AddsTo(v: World, x: World, j: nat)
    requires j < |v.markets|
  {
    OnlyAt(v, x, j) && forall n :: |v.positions| <= n < |x.positions| ==> x.positions[n].marketId == v.markets[j].id
  }

  lemma NewAreHere(v: World, x: World, j: nat, shares: seq<int>, at: seq<nat>)
    requires j < |v.markets| && TickedHere(v, x, j, shares, at)
    ensures AddsTo(v, x, j)
  {
    forall n | |v.positions| <= n < |x.positions| ensures x.positions[n].marketId == v.markets[j].id {
      assert at[n - |v.positions|] < |shares|;
    }
  }

  lemma StillNone(w: World, v: World, x: World, i: nat, j: nat)
    requires WellFormed(v) && i < |w.markets| == |v.markets| && j < |v.markets|
    requires v.markets[i].id == w.markets[i].id && w.positions <= v.positions
    requires NoneOf(w, v, i) || w == v
    requires x == v || (AddsTo(v, x, j) && j != i)
    ensures NoneOf(w, x, i) && w.positions <= x.positions && |x.markets| == |v.markets| && x.markets[i] == v.markets[i]
  {
    hide WellFormed;
    if j != i { IdsDistinct(v, i, j); }
  }

  lemma StillTicked(w: World, v: World, x: World, i: nat, j: nat, shares: seq<int>, at: seq<nat>, from: nat)
    requires WellFormed(v) && i < |w.markets| == |v.markets| && j < |v.markets| && j != i
    requires v.markets[i].id == w.markets[i].id && w.positions <= v.positions
    requires Ticked(w, v, i, shares, at, from) && AddsTo(v, x, j)
    ensures |x.markets| == |v.markets| && w.positions <= x.positions && Ticked(w, x, i, shares, at, from)
  {
    hide WellFormed, Positives, DriftPrice;
    IdsDistinct(v, i, j);
  }

  lemma TurnComes(w: World, v: World, x: World, i: nat, shares: seq<int>, at: seq<nat>)
    requires WellFormed(v) && i < |w.markets| == |v.markets| && v.markets[i] == w.markets[i] && w.positions <= v.positions
    requires NoneOf(w, v, i) && TickedHere(v, x, i, shares, at)
    ensures |x.markets| == |v.markets| && w.positions <= x.positions
    ensures NearShares(w.markets[i], shares) && Ticked(w, x, i, shares, at, |v.positions|)
  {
    hide WellFormed, Positives, DriftPrice, NearShare;
  }

  /** A tick leaves everything of a market but its price and its books. Of a market that is open the
      crowd enters every outcome whose share is above zero, once each, in outcome order, for that
      share: the market's flow in proportion to the principal the tick found, short of it by less
      than a unit and a billionth of the flow. It enters no other market. */
  lemma TickBrings(w: World, i: nat) returns (shares: seq<int>, at: seq<nat>, from: nat)
    requires WellFormed(w) && i < |w.markets|
    ensures NearShares(w.markets[i], shares)
    ensures var m, w' := w.markets[i], Apply(w, TickStep);
            && |w'.markets| == |w.markets| && w.positions <= w'.positions && SameButTraded(m, w'.markets[i])
            && (m.status != Open ==> at == [])
            && Positives(shares, |shares|, at) && |w.positions| <= from && CrowdEntered(w'.positions, from, m.id, at, shares)
            && forall n :: |w.positions| <= n < |w'.positions| && w'.positions[n].marketId == m.id
                 ==> from <= n < from + |at|
  {
    shares, at, from := TickTurn(w, i, |w.markets|);
    if at != [] { assert at[0] in at; }
  }

  /** Position n is market i's. */
  ghost predicate In(w: World, ps: seq<Position>, n: nat, i: nat) {
    n < |ps| && i < |w.markets| && ps[n].marketId == w.markets[i].id
  }

  lemma {:induction false} TurnsInOrder(w: World, k: nat)
    requires WellFormed(w) && k <= |w.markets|
    ensures var x := TickFirst(w, k);
            && w.positions <= x.positions
            && (forall n: nat, i: nat :: |w.positions| <= n && In(w, x.positions, n, i) ==> i < k)
            && (forall a: nat, b: nat, i: nat, j: nat :: |w.positions| <= a <= b && In(w, x.positions, a, i) && In(w, x.positions, b, j) ==> i <= j)
  {
    hide WellFormed, TickedHere, Moved, MarketMoves;
    if k > 0 {
      TurnsInOrder(w, k - 1);
      var v, x := TickFirst(w, k - 1), TickFirst(w, k);
      ShapeAt(w, v, k - 1);
      var shares, at := TickHere(v, k - 1);
      NewAreHere(v, x, k - 1, shares, at);
      forall n: nat, i: nat | |v.positions| <= n && In(w, x.positions, n, i) ensures i == k - 1 {
        if i != k - 1 { IdsDistinct(w, i, k - 1); }
      }
      forall n: nat, i: nat | n < |v.positions| && In(w, x.positions, n, i) ensures In(w, v.positions, n, i) {
        assert v.positions <= x.positions;
      }
    }
  }

  /** The crowd comes to the markets in list order. */
  lemma TickInOrder(w: World, a: nat, b: nat, i: nat, j: nat)
    requires WellFormed(w) && |w.positions| <= a <= b
    requires var ps := Apply(w, TickStep).positions; In(w, ps, a, i) && In(w, ps, b, j)
    ensures i <= j
  {
    TurnsInOrder(w, |w.markets|);
  }

  /** An open market's price moves by its drift times itself, without the fractional unit: up for a
      drift above zero, down for one below. No other price moves. */
  lemma PriceDrifts(w: World, i: nat)
    requires WellFormed(w) && i < |w.markets|
    ensures var m, w' := w.markets[i], Apply(w, TickStep);
            && i < |w'.markets|
            && var price, drift := w'.markets[i].price8, m.driftPerTick;
               && (m.status != Open ==> price == m.price8)
               && (m.status == Open && drift >= 0.0 ==> Scaled(price - m.price8, m.price8, drift))
               && (m.status == Open && drift <= 0.0 ==> Scaled(m.price8 - price, m.price8, -drift))
  {
    hide Scaled, ScaleByFraction;
    var m := w.markets[i];
    var shares, at, from := TickTurn(w, i, |w.markets|);
    ScaledIs(DriftPrice(m.price8, m.driftPerTick) - m.price8, m.price8, m.driftPerTick);
    ScaledIs(m.price8 - DriftPrice(m.price8, m.driftPerTick), m.price8, -m.driftPerTick);
    NoneScaled(m.price8);
  }

  lemma NoneScaled(value: int)
    ensures ScaleByFraction(value, 0.0) == 0
  {
  }
}
