/** What an offer is worth after the tier cap and the joint rationing of its vintage. */
module Rationing {
  import opened Numbers

  /** headroom is H_w or the unbounded sentinel; otherDemand is D_w without this entry. */
  datatype OpposingBook = OpposingBook(headroom: int, otherDemand: int)

  datatype LimitedBy = ByOffer | ByHeadroom | ByTierCap

  datatype Acceptance =
    | Acceptance(submitted: int, accepted: int, refunded: int, limitedBy: LimitedBy)
    | NegativeOffer
    | NegativeHeadroom(index: nat)
    | NegativeDemand(index: nat)

  predicate Sound(b: OpposingBook) {
    b.headroom >= 0 && b.otherDemand >= 0
  }

  predicate AllSound(opposing: seq<OpposingBook>) {
    forall k :: 0 <= k < |opposing| ==> Sound(opposing[k])
  }

  /** The book is bounded and the vintage asks more of it than it has room for. */
  predicate Binds(b: OpposingBook, c: int) {
    b.headroom != UNBOUNDED && b.otherDemand + c > b.headroom
  }

  /** What one book leaves of a stake c: all of it, or its pro-rata share. */
  function Share(b: OpposingBook, c: int): int
    requires Sound(b) && c >= 0
  {
    if Binds(b, c) then (c * b.headroom) / (b.otherDemand + c) else c
  }

  /** The least share over the first k books. */
  function Least(opposing: seq<OpposingBook>, c: int, k: nat): int
    requires AllSound(opposing) && c >= 0 && k <= |opposing|
  {
    if k == 0 then c
    else
      var least, share := Least(opposing, c, k - 1), Share(opposing[k - 1], c);
      if share < least then share else least
  }

  /** What the settler accepts of a submitted stake c. */
  function Accepts(opposing: seq<OpposingBook>, c: int): int
    requires AllSound(opposing) && c >= 0
  {
    Least(opposing, c, |opposing|)
  }

  /** s is no more than its pro-rata part of b: s / c <= H / D, when b binds. */
  ghost predicate Fits(s: int, b: OpposingBook, c: int) {
    Binds(b, c) ==> s * (b.otherDemand + c) <= c * b.headroom
  }

  // ------------------------------------------------------------------ the rule, without division

  lemma ShareIsGreatest(b: OpposingBook, c: int, s: int)
    requires Sound(b) && c >= 0
    ensures s <= c && Fits(s, b, c) <==> s <= c && s <= Share(b, c)
    ensures 0 <= Share(b, c) <= c
  {
    if Binds(b, c) {
      var d := b.otherDemand + c;
      FloorIsGreatest(s, c * b.headroom, d);
      MulMono(0, c, b.headroom);
      DivNonNegative(c * b.headroom, d);
      MulMono(b.headroom, d, c);
      FloorMono(c * b.headroom, c * d, d);
      FloorShift(0, c, d);
    }
  }

  lemma {:induction false} LeastIsGreatest(opposing: seq<OpposingBook>, c: int, k: nat, s: int)
    requires AllSound(opposing) && c >= 0 && k <= |opposing|
    ensures s <= Least(opposing, c, k) <==> s <= c && forall j :: 0 <= j < k ==> Fits(s, opposing[j], c)
    ensures 0 <= Least(opposing, c, k) <= c
  {
    if k > 0 {
      LeastIsGreatest(opposing, c, k - 1, s);
      ShareIsGreatest(opposing[k - 1], c, s);
    }
  }

  /** The accepted amount is the greatest s within the stake with s * D <= c * H on every
      book the vintage overfills. */
  lemma AcceptsIsGreatest(opposing: seq<OpposingBook>, c: int, s: int)
    requires AllSound(opposing) && c >= 0
    ensures s <= Accepts(opposing, c) <==> s <= c && forall j :: 0 <= j < |opposing| ==> Fits(s, opposing[j], c)
    ensures 0 <= Accepts(opposing, c) <= c
  {
    LeastIsGreatest(opposing, c, |opposing|, s);
  }

  // ------------------------------------------------------------------ the method

  method EffectiveAcceptance(offered: int, opposing: seq<OpposingBook>, cap: Option<nat>) returns (r: Acceptance)
    ensures offered < 0 <==> r == NegativeOffer
    ensures offered >= 0 && !AllSound(opposing) ==>
              exists k :: 0 <= k < |opposing| && AllSound(opposing[..k]) && !Sound(opposing[k]) &&
                          r == if opposing[k].headroom < 0 then NegativeHeadroom(k) else NegativeDemand(k)
    ensures offered >= 0 && AllSound(opposing) ==>
              && r.Acceptance?
              && 0 <= r.accepted <= r.submitted <= offered
              && r.submitted == (if cap.Some? && cap.value < offered then cap.value else offered)
              && r.accepted == Accepts(opposing, r.submitted)
              && r.refunded == offered - r.accepted
              && (r.limitedBy == ByHeadroom <==> exists k :: 0 <= k < |opposing| && !Fits(r.submitted, opposing[k], r.submitted))
              && (r.limitedBy == ByTierCap ==> cap == Some(r.accepted) && cap.value < offered)
              && (r.limitedBy == ByOffer ==> r.accepted == offered)
  {
    if offered < 0 { return NegativeOffer; }
    for k := 0 to |opposing|
      invariant AllSound(opposing[..k])
    {
      if opposing[k].headroom < 0 { return NegativeHeadroom(k); }
      if opposing[k].otherDemand < 0 { return NegativeDemand(k); }
    }
    assert opposing[..|opposing|] == opposing;
    var submitted := if cap.Some? && cap.value < offered then cap.value else offered;
    var accepted := submitted;
    for k := 0 to |opposing|
      invariant accepted == Least(opposing, submitted, k)
    {
      var book := opposing[k];
      LeastIsGreatest(opposing, submitted, k, accepted);
      if book.headroom == UNBOUNDED { continue; }
      var demand := book.otherDemand + submitted;
      if demand <= book.headroom { continue; }
      var rationed := (submitted * book.headroom) / demand;
      if rationed < accepted { accepted := rationed; }
    }
    AcceptsIsGreatest(opposing, submitted, submitted);
    var limitedBy :=
      if accepted < submitted then ByHeadroom
      else if submitted < offered then ByTierCap
      else ByOffer;
    r := Acceptance(submitted, accepted, offered - accepted, limitedBy);
  }

  // ------------------------------------------------------------------ well behaved

  /** A book that takes its part of a stake takes at least as much of a larger one. */
  lemma FitsMoreOffered(s: int, b: OpposingBook, c: int, c': int)
    requires Sound(b) && 0 <= s <= c <= c' && Fits(s, b, c)
    ensures Fits(s, b, c')
  {
    if Binds(b, c') {
      var o, h := b.otherDemand, b.headroom;
      MulMono(s, c, o);
      MulMono(c, c', o);
      if Binds(b, c) {
        // s * o <= c * (h - s), and h >= s
        assert s * (o + c) == s * o + s * c;
        MulMono(0, s, o);
        if c > 0 { assert s * c <= h * c; MulCancel(s, h, c); MulMono(c, c', h - s); }
        else { MulMono(0, c', h); assert s * (o + c') == 0 by { assert s == 0; } }
        assert c > 0 ==> s * (o + c') == s * o + s * c' && c * (h - s) == c * h - c * s && c' * (h - s) == c' * h - c' * s;
      } else {
        // s <= c and o + c <= h
        assert s * (o + c') == s * o + s * c';
        MulMono(s, c, c');
        assert s * (o + c') <= c' * o + c * c';
        MulMono(o + c, h, c');
        assert (o + c) * c' == c' * o + c * c';
      }
    }
  }

  /** Offering more is never accepted for less. */
  lemma AcceptsMonotone(opposing: seq<OpposingBook>, c: int, c': int)
    requires AllSound(opposing) && 0 <= c <= c'
    ensures Accepts(opposing, c) <= Accepts(opposing, c')
  {
    var s := Accepts(opposing, c);
    AcceptsIsGreatest(opposing, c, s);
    AcceptsIsGreatest(opposing, c', s);
    forall j | 0 <= j < |opposing| ensures Fits(s, opposing[j], c') { FitsMoreOffered(s, opposing[j], c, c'); }
  }

  lemma FitsLessDemand(s: int, b: OpposingBook, b': OpposingBook, c: int)
    requires Sound(b) && Sound(b') && 0 <= s <= c && b.headroom <= b'.headroom && b'.otherDemand <= b.otherDemand
    requires b.headroom == UNBOUNDED ==> b'.headroom == UNBOUNDED
    requires Fits(s, b, c)
    ensures Fits(s, b', c)
  {
    if Binds(b', c) {
      MulMono(b'.otherDemand + c, b.otherDemand + c, s);
      MulMono(b.headroom, b'.headroom, c);
    }
  }

  /** The same books, each with at least the room and at most the demand. */
  ghost predicate Easier(opposing: seq<OpposingBook>, easier: seq<OpposingBook>) {
    |opposing| == |easier| && forall j :: 0 <= j < |opposing| ==>
      && opposing[j].headroom <= easier[j].headroom && easier[j].otherDemand <= opposing[j].otherDemand
      && (opposing[j].headroom == UNBOUNDED ==> easier[j].headroom == UNBOUNDED)
  }

  /** Less competing demand, or more room, never lowers what is accepted. */
  lemma AcceptsAntitone(opposing: seq<OpposingBook>, easier: seq<OpposingBook>, c: int)
    requires AllSound(opposing) && AllSound(easier) && Easier(opposing, easier) && c >= 0
    ensures Accepts(opposing, c) <= Accepts(easier, c)
  {
    var s := Accepts(opposing, c);
    AcceptsIsGreatest(opposing, c, s);
    AcceptsIsGreatest(easier, c, s);
    forall j | 0 <= j < |easier| ensures Fits(s, easier[j], c) { FitsLessDemand(s, opposing[j], easier[j], c); }
  }

  /** No bounded book ever takes more than its headroom. */
  lemma AcceptsWithinHeadroom(opposing: seq<OpposingBook>, c: int, j: nat)
    requires AllSound(opposing) && c >= 0 && j < |opposing| && opposing[j].headroom != UNBOUNDED
    ensures Accepts(opposing, c) <= opposing[j].headroom
  {
    var s, b := Accepts(opposing, c), opposing[j];
    AcceptsIsGreatest(opposing, c, s);
    assert Fits(s, b, c);
    if Binds(b, c) {
      MulMono(c, b.otherDemand + c, b.headroom);
      MulCancel(s, b.headroom, b.otherDemand + c);
    }
  }

  /** A stake is accepted whole exactly when it is nothing, or fits every bounded book
      together with the demand already there. */
  lemma AcceptedInFullIff(opposing: seq<OpposingBook>, c: int)
    requires AllSound(opposing) && c >= 0
    ensures Accepts(opposing, c) == c <==> c == 0 || forall j :: 0 <= j < |opposing| ==> !Binds(opposing[j], c)
  {
    AcceptsIsGreatest(opposing, c, c);
    forall j | 0 <= j < |opposing| && c > 0 ensures Fits(c, opposing[j], c) <==> !Binds(opposing[j], c) {
      if Fits(c, opposing[j], c) && Binds(opposing[j], c) {
        assert c * opposing[j].headroom == opposing[j].headroom * c;
        MulCancel(opposing[j].otherDemand + c, opposing[j].headroom, c);
      }
    }
  }

  // ------------------------------------------------------------------ splitting an offer

  function Total(parts: seq<nat>): nat {
    if |parts| == 0 then 0 else Total(parts[..|parts| - 1]) + parts[|parts| - 1]
  }

  /** The books as one part of a split offer meets them: its siblings are demand too. */
  function BesideSiblings(opposing: seq<OpposingBook>, siblings: int): (r: seq<OpposingBook>)
    requires AllSound(opposing) && siblings >= 0
    ensures |r| == |opposing| && AllSound(r)
  {
    seq(|opposing|, j requires 0 <= j < |opposing| =>
      OpposingBook(opposing[j].headroom, opposing[j].otherDemand + siblings))
  }

  lemma {:induction false} PartWithinTotal(parts: seq<nat>, j: nat)
    requires j < |parts|
    ensures parts[j] <= Total(parts)
  {
    if j < |parts| - 1 { PartWithinTotal(parts[..|parts| - 1], j); }
  }

  /** What is accepted of the first k parts of an offer, each entered on its own. */
  function AcceptedOfParts(opposing: seq<OpposingBook>, parts: seq<nat>, k: nat): int
    requires AllSound(opposing) && k <= |parts|
  {
    if k == 0 then 0
    else
      PartWithinTotal(parts, k - 1);
      AcceptedOfParts(opposing, parts, k - 1)
      + Accepts(BesideSiblings(opposing, Total(parts) - parts[k - 1]), parts[k - 1])
  }

  /** What one part is accepted of fits its share of book j. */
  lemma PartFits(opposing: seq<OpposingBook>, parts: seq<nat>, k: nat, j: nat)
    requires AllSound(opposing) && k < |parts| && j < |opposing| && Binds(opposing[j], Total(parts))
    requires parts[k] <= Total(parts)
    ensures Accepts(BesideSiblings(opposing, Total(parts) - parts[k]), parts[k]) * (opposing[j].otherDemand + Total(parts))
            <= parts[k] * opposing[j].headroom
  {
    var p, beside := parts[k], BesideSiblings(opposing, Total(parts) - parts[k]);
    AcceptsIsGreatest(beside, p, Accepts(beside, p));
    assert Fits(Accepts(beside, p), beside[j], p);
  }

  lemma {:induction false} PartsFit(opposing: seq<OpposingBook>, parts: seq<nat>, k: nat, j: nat)
    requires AllSound(opposing) && k <= |parts| && j < |opposing|
    ensures Binds(opposing[j], Total(parts)) ==>
              AcceptedOfParts(opposing, parts, k) * (opposing[j].otherDemand + Total(parts)) <= Total(parts[..k]) * opposing[j].headroom
  {
    hide Accepts, Binds, BesideSiblings;
    if k > 0 && Binds(opposing[j], Total(parts)) {
      PartsFit(opposing, parts, k - 1, j);
      assert parts[..k][..k - 1] == parts[..k - 1];
      PartWithinTotal(parts, k - 1);
      PartFits(opposing, parts, k - 1, j);
      AddScaled(AcceptedOfParts(opposing, parts, k - 1),
                Accepts(BesideSiblings(opposing, Total(parts) - parts[k - 1]), parts[k - 1]),
                opposing[j].otherDemand + Total(parts), Total(parts[..k - 1]), parts[k - 1], opposing[j].headroom);
    }
  }

  lemma AddScaled(s: int, s': int, d: int, t: int, t': int, h: int)
    requires s * d <= t * h && s' * d <= t' * h
    ensures (s + s') * d <= (t + t') * h
  {
    assert (s + s') * d == s * d + s' * d;
    assert (t + t') * h == t * h + t' * h;
  }

  lemma AllPartsFit(opposing: seq<OpposingBook>, parts: seq<nat>, j: nat)
    requires AllSound(opposing) && j < |opposing|
    ensures Fits(AcceptedOfParts(opposing, parts, |parts|), opposing[j], Total(parts))
  {
    PartsFit(opposing, parts, |parts|, j);
    assert parts[..|parts|] == parts;
  }

  lemma {:induction false} PartsWithinTotal(opposing: seq<OpposingBook>, parts: seq<nat>, k: nat)
    requires AllSound(opposing) && k <= |parts|
    ensures AcceptedOfParts(opposing, parts, k) <= Total(parts[..k])
  {
    if k > 0 {
      PartsWithinTotal(opposing, parts, k - 1);
      assert parts[..k][..k - 1] == parts[..k - 1];
      PartWithinTotal(parts, k - 1);
      AcceptsIsGreatest(BesideSiblings(opposing, Total(parts) - parts[k - 1]), parts[k - 1], 0);
    }
  }

  /** Splitting an offer into entries on the same outcome of the same vintage never raises
      what is accepted of it. */
  lemma SplittingGainsNothing(opposing: seq<OpposingBook>, parts: seq<nat>)
    requires AllSound(opposing)
    ensures AcceptedOfParts(opposing, parts, |parts|) <= Accepts(opposing, Total(parts))
  {
    var s := AcceptedOfParts(opposing, parts, |parts|);
    PartsWithinTotal(opposing, parts, |parts|);
    assert parts[..|parts|] == parts;
    forall j | 0 <= j < |opposing| ensures Fits(s, opposing[j], Total(parts)) { AllPartsFit(opposing, parts, j); }
    AcceptsIsGreatest(opposing, Total(parts), s);
  }
}
