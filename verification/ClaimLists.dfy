/** Whose claims a wallet is given: exactly those of its own unclaimed positions in markets that are
    no longer open, with what each is due. */
module ClaimLists {
  import opened Numbers
  import opened Text
  import opened VestedWorld
  import opened Claimables

  /** What a market that looks like m pays position p: its stake back when voided, its stake and its
      part of the gain since entry when resolved for its outcome, nothing else. */
  ghost predicate Settlement(m: Market, p: Position, payout: int) {
    match m.status
    case Open => payout == 0
    case Voided => payout == p.accepted
    case Resolved =>
      if m.winner == Some(p.outcome) && p.outcome < |m.books|
      then Quotient(payout, p.accepted * (SCALE + m.books[p.outcome].acc - p.entryAcc), SCALE)
      else payout == 0
  }

  lemma PayoutSettles(m: Market, p: Position, payout: int)
    ensures Settlement(m, p, payout) <==> payout == Payout(m, p)
  {
    if m.status == Resolved && m.winner == Some(p.outcome) && p.outcome < |m.books| {
      QuotientIs(payout, p.accepted * (SCALE + m.books[p.outcome].acc - p.entryAcc), SCALE);
    }
  }

  // ------------------------------------------------------------------ what is listed

  /** Claim c is what its position is due, the position is `owner`'s up to case and not claimed yet,
      and the market it is in has settled. */
  ghost predicate Standing(w: World, owner: string, c: Claim) {
    && 1 <= c.number <= |w.positions|
    && var p := w.positions[c.number - 1];
       && SameUpToCase(p.owner, owner) && !p.claimed
       && c.marketId == p.marketId && c.refund == p.offered - p.accepted
       && (c.payout != 0 || c.refund != 0)
       && exists i :: 0 <= i < |w.markets| && w.markets[i].id == p.marketId
                      && w.markets[i].status != Open && Settlement(w.markets[i], p, c.payout)
  }

  lemma ClaimIsStanding(w: World, owner: string, n: nat, c: Claim)
    requires WellFormed(w) && n < |w.positions|
    ensures ClaimOf(w, owner, n) == Some(c) <==> c.number == n + 1 && Standing(w, owner, c)
  {
    hide Lower, SameUpToCase, Settlement, Payout, WellFormed;
    var p := w.positions[n];
    LowerIsCaseBlind(p.owner, owner);
    forall i | 0 <= i < |w.markets| && w.markets[i].id == p.marketId
      ensures FindMarket(w.markets, p.marketId) == Some(i)
      ensures Settlement(w.markets[i], p, c.payout) <==> c.payout == Payout(w.markets[i], p)
    {
      FindSelf(w, i);
      PayoutSettles(w.markets[i], p, c.payout);
    }
  }

  ghost predicate Increasing(claims: seq<Claim>) {
    forall a, b :: 0 <= a < b < |claims| ==> claims[a].number < claims[b].number
  }

  lemma IncreasesOn(claims: seq<Claim>, c: Claim)
    requires Increasing(claims) && forall a :: 0 <= a < |claims| ==> claims[a].number < c.number
    ensures Increasing(claims + [c])
  {
  }

  /** The list has a claim if and only if it stands, in position order, each once. */
  lemma {:induction false} ListsWhatStands(w: World, owner: string, k: nat)
    requires WellFormed(w) && k <= |w.positions|
    ensures forall c :: c in Claimable(w, owner, k) <==> c.number <= k && Standing(w, owner, c)
    ensures Increasing(Claimable(w, owner, k))
  {
    hide ClaimOf, Standing, WellFormed;
    if k == 0 {
      forall c: Claim ensures !(c.number <= 0 && Standing(w, owner, c)) { StandingIsNumbered(w, owner, c); }
    } else {
      ListsWhatStands(w, owner, k - 1);
      var before := Claimable(w, owner, k - 1);
      forall c: Claim ensures ClaimOf(w, owner, k - 1) == Some(c) <==> c.number == k && Standing(w, owner, c) {
        ClaimIsStanding(w, owner, k - 1, c);
      }
      forall a | 0 <= a < |before| ensures before[a].number < k { assert before[a] in before; }
      if ClaimOf(w, owner, k - 1).Some? { IncreasesOn(before, ClaimOf(w, owner, k - 1).value); }
    }
  }

  lemma StandingIsNumbered(w: World, owner: string, c: Claim)
    ensures Standing(w, owner, c) ==> c.number >= 1
  {
  }

  /** A wallet is given a claim exactly when it stands. */
  lemma ClaimableIff(w: World, owner: string, c: Claim)
    requires WellFormed(w)
    ensures c in Claimable(w, owner, |w.positions|) <==> Standing(w, owner, c)
    ensures Increasing(Claimable(w, owner, |w.positions|))
  {
    ListsWhatStands(w, owner, |w.positions|);
  }

  // ------------------------------------------------------------------ all wallets together

  /** What position p is due from a market that looks like m: nothing once claimed or while it is open. */
  function DueTo(m: Market, p: Position): int {
    if p.marketId != m.id || p.claimed || m.status == Open then 0 else Payout(m, p) + (p.offered - p.accepted)
  }

  function AllDue(m: Market, ps: seq<Position>): int {
    if ps == [] then 0 else AllDue(m, ps[..|ps| - 1]) + DueTo(m, ps[|ps| - 1])
  }

  /** What the claims of all these wallets on market `id` come to. */
  function AllWorth(w: World, owners: seq<string>, k: nat, id: string): int
    requires k <= |w.positions|
  {
    if owners == [] then 0
    else AllWorth(w, owners[..|owners| - 1], k, id) + Worth(Claimable(w, owners[|owners| - 1], k), id)
  }

  /** No wallet is listed twice, in whatever case. */
  ghost predicate Different(owners: seq<string>) {
    forall a, b :: 0 <= a < b < |owners| ==> !SameUpToCase(owners[a], owners[b])
  }

  ghost predicate Listed(owners: seq<string>, owner: string) {
    exists a :: 0 <= a < |owners| && SameUpToCase(owner, owners[a])
  }

  /** What position n adds to the claims of all these wallets. */
  function AllOf(w: World, owners: seq<string>, n: nat, id: string): int
    requires n < |w.positions|
  {
    if owners == [] then 0
    else AllOf(w, owners[..|owners| - 1], n, id) + WorthOf(ClaimOf(w, owners[|owners| - 1], n), id)
  }

  lemma SameCaseBoth(a: string, b: string, c: string)
    ensures SameUpToCase(a, b) && SameUpToCase(a, c) ==> SameUpToCase(b, c)
  {
    LowerIsCaseBlind(a, b);
    LowerIsCaseBlind(a, c);
    LowerIsCaseBlind(b, c);
  }

  lemma OwnersClaim(w: World, i: nat, owner: string, n: nat)
    requires WellFormed(w) && i < |w.markets| && n < |w.positions|
    ensures var m, p := w.markets[i], w.positions[n];
            WorthOf(ClaimOf(w, owner, n), m.id) == if SameUpToCase(p.owner, owner) then DueTo(m, p) else 0
  {
    hide Lower, SameUpToCase, Payout;
    FindSelf(w, i);
    LowerIsCaseBlind(w.positions[n].owner, owner);
  }

  /** Of wallets listed once each, the position's own is given what it is due and no other anything. */
  lemma {:induction false} OneOwnerClaims(w: World, i: nat, owners: seq<string>, n: nat)
    requires WellFormed(w) && i < |w.markets| && n < |w.positions| && Different(owners)
    ensures AllOf(w, owners, n, w.markets[i].id)
            == if Listed(owners, w.positions[n].owner) then DueTo(w.markets[i], w.positions[n]) else 0
  {
    hide ClaimOf, WorthOf, SameUpToCase, DueTo, WellFormed;
    if owners != [] {
      var front, last, owner := owners[..|owners| - 1], owners[|owners| - 1], w.positions[n].owner;
      OneOwnerClaims(w, i, front, n);
      OwnersClaim(w, i, last, n);
      if SameUpToCase(owner, last) {
        forall a | 0 <= a < |front| ensures !SameUpToCase(owner, front[a]) { SameCaseBoth(owner, front[a], last); }
      } else if Listed(owners, owner) {
        var a :| 0 <= a < |owners| && SameUpToCase(owner, owners[a]);
        assert SameUpToCase(owner, front[a]);
      }
      if Listed(front, owner) {
        var a :| 0 <= a < |front| && SameUpToCase(owner, front[a]);
        assert SameUpToCase(owner, owners[a]);
      }
    }
  }

  lemma {:induction false} AllWorthOn(w: World, owners: seq<string>, k: nat, id: string)
    requires 0 < k <= |w.positions|
    ensures AllWorth(w, owners, k, id) == AllWorth(w, owners, k - 1, id) + AllOf(w, owners, k - 1, id)
  {
    hide ClaimOf, WorthOf, Worth, Claimable;
    if owners != [] {
      AllWorthOn(w, owners[..|owners| - 1], k, id);
      WorthFront(w, owners[|owners| - 1], k, id);
    }
  }

  lemma {:induction false} NoneWorth(w: World, owners: seq<string>, id: string)
    ensures AllWorth(w, owners, 0, id) == 0
  {
    if owners != [] { NoneWorth(w, owners[..|owners| - 1], id); }
  }

  /** Wallets listed once each that own every position are together given exactly what a market owes
      its unclaimed positions: nothing is left out and nothing is given twice. */
  lemma {:induction false} ClaimsGiveAllDue(w: World, i: nat, owners: seq<string>, k: nat)
    requires WellFormed(w) && i < |w.markets| && k <= |w.positions| && Different(owners)
    requires forall n :: 0 <= n < k ==> Listed(owners, w.positions[n].owner)
    ensures AllWorth(w, owners, k, w.markets[i].id) == AllDue(w.markets[i], w.positions[..k])
  {
    hide WellFormed, Different, Listed, DueTo, AllWorth, AllOf;
    if k == 0 {
      NoneWorth(w, owners, w.markets[i].id);
    } else {
      ClaimsGiveAllDue(w, i, owners, k - 1);
      AllWorthOn(w, owners, k, w.markets[i].id);
      OneOwnerClaims(w, i, owners, k - 1);
      assert w.positions[..k][..k - 1] == w.positions[..k - 1];
    }
  }
}
