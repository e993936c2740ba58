/** A whole vintage rationed entry by entry: what all of it together makes each book take. */
module Vintages {
  import opened Numbers
  import opened Rationing

  datatype Entry = Entry(outcome: nat, offered: nat)

  /** D_w: everything offered on an outcome other than w. */
  function Demand(entries: seq<Entry>, w: nat): nat {
    if |entries| == 0 then 0
    else
      var e := entries[|entries| - 1];
      Demand(entries[..|entries| - 1], w) + if e.outcome != w then e.offered else 0
  }

  /** How many entries are demand against w. */
  function Against(entries: seq<Entry>, w: nat): nat {
    if |entries| == 0 then 0
    else
      var e := entries[|entries| - 1];
      Against(entries[..|entries| - 1], w) + if e.outcome != w then 1 else 0
  }

  lemma {:induction false} EntryWithinDemand(entries: seq<Entry>, i: nat, w: nat)
    requires i < |entries| && entries[i].outcome != w
    ensures entries[i].offered <= Demand(entries, w)
  {
    if i < |entries| - 1 { EntryWithinDemand(entries[..|entries| - 1], i, w); }
  }

  /** The first k books as entry i of the vintage meets them. `headrooms` lists every H_w. */
  function OpposingOf(headrooms: seq<nat>, entries: seq<Entry>, i: nat, k: nat): (r: seq<OpposingBook>)
    requires i < |entries| && k <= |headrooms|
    ensures AllSound(r)
  {
    if k == 0 then []
    else
      var before, e := OpposingOf(headrooms, entries, i, k - 1), entries[i];
      if k - 1 == e.outcome then before
      else
        EntryWithinDemand(entries, i, k - 1);
        before + [OpposingBook(headrooms[k - 1], Demand(entries, k - 1) - e.offered)]
  }

  /** What the rule accepts of entry i, given everything else in the vintage. */
  function AcceptedOf(headrooms: seq<nat>, entries: seq<Entry>, i: nat): int
    requires i < |entries|
  {
    Accepts(OpposingOf(headrooms, entries, i, |headrooms|), entries[i].offered)
  }

  /** What the first k entries vest into book w. */
  function Inflow(headrooms: seq<nat>, entries: seq<Entry>, w: nat, k: nat): int
    requires k <= |entries|
  {
    if k == 0 then 0
    else Inflow(headrooms, entries, w, k - 1)
         + if entries[k - 1].outcome != w then AcceptedOf(headrooms, entries, k - 1) else 0
  }

  // ------------------------------------------------------------------ what one entry meets

  /** The vintage asks more of book w than it has room for. */
  predicate Overfull(headrooms: seq<nat>, entries: seq<Entry>, w: nat)
    requires w < |headrooms|
  {
    headrooms[w] != UNBOUNDED && Demand(entries, w) > headrooms[w]
  }

  /** Book w as entry i meets it. */
  function Faced(headrooms: seq<nat>, entries: seq<Entry>, i: nat, w: nat): OpposingBook
    requires i < |entries| && w < |headrooms|
  {
    OpposingBook(headrooms[w], Demand(entries, w) - entries[i].offered)
  }

  /** Every other book is among those entry i meets, with the rest of the vintage as demand. */
  lemma {:induction false} MeetsBook(headrooms: seq<nat>, entries: seq<Entry>, i: nat, k: nat, w: nat) returns (j: nat)
    requires i < |entries| && w < k <= |headrooms| && w != entries[i].outcome
    ensures var books := OpposingOf(headrooms, entries, i, k); j < |books| && books[j] == Faced(headrooms, entries, i, w)
  {
    if w == k - 1 {
      j := |OpposingOf(headrooms, entries, i, k - 1)|;
    } else {
      j := MeetsBook(headrooms, entries, i, k - 1, w);
    }
  }

  lemma EntryFits(headrooms: seq<nat>, entries: seq<Entry>, i: nat, w: nat)
    requires i < |entries| && w < |headrooms| && w != entries[i].outcome
    ensures 0 <= AcceptedOf(headrooms, entries, i) <= entries[i].offered
    ensures Overfull(headrooms, entries, w) ==>
              AcceptedOf(headrooms, entries, i) * Demand(entries, w) <= entries[i].offered * headrooms[w]
  {
    var s, c := AcceptedOf(headrooms, entries, i), entries[i].offered;
    var j := MeetsBook(headrooms, entries, i, |headrooms|, w);
    AcceptsIsGreatest(OpposingOf(headrooms, entries, i, |headrooms|), c, s);
    FitsMeans(s, Faced(headrooms, entries, i, w), c, Demand(entries, w), headrooms[w]);
  }

  lemma FitsMeans(s: int, b: OpposingBook, c: int, d: int, h: int)
    requires Fits(s, b, c) && b == OpposingBook(h, d - c)
    ensures h != UNBOUNDED && d > h ==> s * d <= c * h
  {
  }

  lemma {:induction false} InflowFits(headrooms: seq<nat>, entries: seq<Entry>, w: nat, k: nat)
    requires w < |headrooms| && k <= |entries|
    ensures 0 <= Inflow(headrooms, entries, w, k) <= Demand(entries[..k], w)
    ensures Overfull(headrooms, entries, w) ==>
              Inflow(headrooms, entries, w, k) * Demand(entries, w) <= Demand(entries[..k], w) * headrooms[w]
  {
    if k > 0 {
      InflowFits(headrooms, entries, w, k - 1);
      assert entries[..k][..k - 1] == entries[..k - 1];
      if entries[k - 1].outcome != w {
        EntryFits(headrooms, entries, k - 1, w);
        if Overfull(headrooms, entries, w) {
          AddScaled(Inflow(headrooms, entries, w, k - 1), AcceptedOf(headrooms, entries, k - 1), Demand(entries, w),
                    Demand(entries[..k - 1], w), entries[k - 1].offered, headrooms[w]);
        }
      }
    }
  }

  /** Capacity safety: whatever the vintage, rationing each entry against the others makes no
      bounded book take more than its headroom. */
  lemma VintageWithinHeadroom(headrooms: seq<nat>, entries: seq<Entry>, w: nat)
    requires w < |headrooms| && headrooms[w] != UNBOUNDED
    ensures 0 <= Inflow(headrooms, entries, w, |entries|) <= headrooms[w]
  {
    InflowFits(headrooms, entries, w, |entries|);
    assert entries[..|entries|] == entries;
    if Overfull(headrooms, entries, w) {
      assert Demand(entries, w) * headrooms[w] == headrooms[w] * Demand(entries, w);
      MulCancel(Inflow(headrooms, entries, w, |entries|), headrooms[w], Demand(entries, w));
    }
  }

  // ------------------------------------------------------------------ how little is left unused

  ghost predicate OnlyOverfull(headrooms: seq<nat>, entries: seq<Entry>, w: nat) {
    w < |headrooms| && Overfull(headrooms, entries, w)
    && forall v :: 0 <= v < |headrooms| && v != w ==> !Overfull(headrooms, entries, v)
  }

  /** If only w is overfull, none of the books entry i meets binds but w's. */
  lemma {:induction false} OnlyBinds(headrooms: seq<nat>, entries: seq<Entry>, i: nat, k: nat, w: nat, j: nat)
    requires i < |entries| && k <= |headrooms| && OnlyOverfull(headrooms, entries, w)
    requires j < |OpposingOf(headrooms, entries, i, k)|
    requires Binds(OpposingOf(headrooms, entries, i, k)[j], entries[i].offered)
    ensures OpposingOf(headrooms, entries, i, k)[j] == Faced(headrooms, entries, i, w)
  {
    var before := OpposingOf(headrooms, entries, i, k - 1);
    if j < |before| {
      OnlyBinds(headrooms, entries, i, k - 1, w, j);
    } else {
      assert Overfull(headrooms, entries, k - 1);
    }
  }

  /** The floored share of a stake c <= d in headroom h < d. */
  lemma FloorShare(c: int, h: int, d: int) returns (share: int)
    requires 0 <= c <= d && 0 <= h < d
    ensures 0 <= share <= c && share * d <= c * h < share * d + d
  {
    share := (c * h) / d;
    FloorBounds(c * h, d);
    MulMono(0, h, c);
    MulMono(h, d, c);
    DivNonNegative(c * h, d);
    if share > c { MulMono(c + 1, share, d); }
  }

  /** When only w is overfull, entry i is cut to its floored share of w and no further. */
  lemma EntryTakesItsShare(headrooms: seq<nat>, entries: seq<Entry>, i: nat, w: nat)
    requires i < |entries| && OnlyOverfull(headrooms, entries, w) && w != entries[i].outcome
    ensures entries[i].offered * headrooms[w] < AcceptedOf(headrooms, entries, i) * Demand(entries, w) + Demand(entries, w)
  {
    EntryWithinDemand(entries, i, w);
    var share := FloorShare(entries[i].offered, headrooms[w], Demand(entries, w));
    FitsShare(share, Faced(headrooms, entries, i, w), entries[i].offered, Demand(entries, w), headrooms[w]);
    ShareIsAccepted(headrooms, entries, i, w, share);
    MulMono(share, AcceptedOf(headrooms, entries, i), Demand(entries, w));
  }

  lemma FitsShare(s: int, b: OpposingBook, c: int, d: int, h: int)
    requires b == OpposingBook(h, d - c) && s * d <= c * h
    ensures Fits(s, b, c)
  {
  }

  lemma ShareIsAccepted(headrooms: seq<nat>, entries: seq<Entry>, i: nat, w: nat, share: int)
    requires i < |entries| && OnlyOverfull(headrooms, entries, w)
    requires share <= entries[i].offered && Fits(share, Faced(headrooms, entries, i, w), entries[i].offered)
    ensures share <= AcceptedOf(headrooms, entries, i)
  {
    var books, c := OpposingOf(headrooms, entries, i, |headrooms|), entries[i].offered;
    forall j | 0 <= j < |books| ensures Fits(share, books[j], c) {
      if Binds(books[j], c) { OnlyBinds(headrooms, entries, i, |headrooms|, w, j); }
    }
    AcceptsIsGreatest(books, c, share);
  }

  /** What the first k entries vest into book w, with one unit more for each. */
  function RoundedUp(headrooms: seq<nat>, entries: seq<Entry>, w: nat, k: nat): int
    requires k <= |entries|
  {
    Inflow(headrooms, entries, w, k) + Against(entries[..k], w)
  }

  /** Rounding the shares up instead of down would cover the demanded part of the headroom. */
  lemma {:induction false} InflowTakesShares(headrooms: seq<nat>, entries: seq<Entry>, w: nat, k: nat)
    requires k <= |entries| && OnlyOverfull(headrooms, entries, w)
    ensures Demand(entries[..k], w) * headrooms[w] <= RoundedUp(headrooms, entries, w, k) * Demand(entries, w)
    ensures Against(entries[..k], w) > 0 ==>
              Demand(entries[..k], w) * headrooms[w] < RoundedUp(headrooms, entries, w, k) * Demand(entries, w)
  {
    if k > 0 {
      InflowTakesShares(headrooms, entries, w, k - 1);
      assert entries[..k][..k - 1] == entries[..k - 1];
      var sum, sum' := RoundedUp(headrooms, entries, w, k - 1), RoundedUp(headrooms, entries, w, k);
      if entries[k - 1].outcome != w {
        EntryTakesItsShare(headrooms, entries, k - 1, w);
        ShareStep(Demand(entries[..k - 1], w), Demand(entries[..k], w), entries[k - 1].offered, headrooms[w],
                  sum, sum', AcceptedOf(headrooms, entries, k - 1), Demand(entries, w));
      } else {
        assert sum == sum' && Demand(entries[..k], w) == Demand(entries[..k - 1], w);
      }
    }
  }

  lemma ShareStep(before: int, after: int, c: int, h: int, sum: int, sum': int, s: int, d: int)
    requires before * h <= sum * d && c * h < s * d + d
    requires after == before + c && sum' == sum + s + 1
    ensures after * h < sum' * d
  {
    assert (before + c) * h == before * h + c * h;
    assert (sum + s + 1) * d == sum * d + s * d + d;
  }

  /** With exactly one book overfull, flooring k entries against it leaves less than k of its
      headroom unused. */
  lemma VintageFillsHeadroom(headrooms: seq<nat>, entries: seq<Entry>, w: nat)
    requires OnlyOverfull(headrooms, entries, w)
    ensures Inflow(headrooms, entries, w, |entries|) > headrooms[w] - Against(entries, w)
  {
    InflowTakesShares(headrooms, entries, w, |entries|);
    assert entries[..|entries|] == entries;
    SomeAgainst(entries, w);
    FillArithmetic(RoundedUp(headrooms, entries, w, |entries|), headrooms[w], Demand(entries, w));
  }

  lemma FillArithmetic(sum: int, h: int, d: int)
    requires d > 0 && d * h < sum * d
    ensures sum > h
  {
    if sum <= h { MulMono(sum, h, d); }
  }

  lemma {:induction false} SomeAgainst(entries: seq<Entry>, w: nat)
    ensures Demand(entries, w) > 0 ==> Against(entries, w) > 0
  {
    if |entries| > 0 { SomeAgainst(entries[..|entries| - 1], w); }
  }
}
