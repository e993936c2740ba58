/** What a reader of the venue index may rely on after any run, in terms of the stored
    entities alone. */
module VenueReports {
  import opened Numbers
  import opened Tallies
  import opened VenueLedger
  import opened VenueAgreement
  import opened VenueIndexes
  import opened VenueRuns

  const OFFER: Position -> int := (p: Position) => p.offered
  const FINAL: Position -> int := (p: Position) => if p.finalized then p.accepted else 0
  const PAID: Position -> int := (p: Position) => p.payout
  const GAIN: Position -> int := (p: Position) => p.payout - if p.claimed then p.accepted else 0

  /** The index after a run of events that can happen, from nothing. */
  ghost predicate Reached(es: seq<Event>) {
    CanRun(START, es)
  }

  function After(es: seq<Event>): Index {
    RunFrom(START, es).x
  }

  lemma ReachedAgrees(es: seq<Event>)
    requires Reached(es)
    ensures var v := RunFrom(START, es); Agrees(v.x, v.rows, v.now)
  {
    EmptyAgrees();
    RunAgrees(START, es);
  }

  /** The listed agents' totals sum to the positions': offers, finalized acceptances, payouts,
      and payouts less the principal of claimed positions; the protocol's own totals are the same
      sums, and every position's owner is a listed agent. */
  lemma {:induction false} LedgerConserves(es: seq<Event>)
    requires Reached(es)
    ensures var x := After(es);
            && Sum(x.agents, TOTAL_OFFERED) == Sum(x.positions, OFFER)
            && Sum(x.agents, TOTAL_ACCEPTED) == Sum(x.positions, FINAL) == x.totalAccepted
            && Sum(x.agents, TOTAL_CLAIMED) == Sum(x.positions, PAID) == x.totalClaimed
            && Sum(x.agents, REALIZED_PNL) == Sum(x.positions, GAIN)
    ensures After(es).agentCount == |After(es).agents| && After(es).positionCount == |After(es).positions|
    ensures forall id :: id in After(es).positions ==> After(es).positions[id].owner in After(es).agents
  {
    var v := RunFrom(START, es);
    ReachedAgrees(es);
    Conserves(v.x, v.rows, v.now);
  }

  lemma OwnersListed(x: Index, rows: Rows, now: nat)
    requires RowsOk(rows, x.agents, now) && x.positions.Keys == rows.Keys
    requires forall id :: id in rows ==> rows[id].p == x.positions[id]
    ensures forall id :: id in x.positions ==> x.positions[id].owner in x.agents
  {
    forall id | id in x.positions ensures x.positions[id].owner in x.agents { assert RowOk(rows[id], x.agents, now); }
  }

  lemma {:induction false} Conserves(x: Index, rows: Rows, now: nat)
    requires Core(x, rows, now)
    ensures && Sum(x.agents, TOTAL_OFFERED) == Sum(x.positions, OFFER)
            && Sum(x.agents, TOTAL_ACCEPTED) == Sum(x.positions, FINAL) == x.totalAccepted
            && Sum(x.agents, TOTAL_CLAIMED) == Sum(x.positions, PAID) == x.totalClaimed
            && Sum(x.agents, REALIZED_PNL) == Sum(x.positions, GAIN)
    ensures x.agentCount == |x.agents| && x.positionCount == |x.positions|
    ensures forall id :: id in x.positions ==> x.positions[id].owner in x.agents
  {
    hide RowsOk, LinksOk, DaysOk, Stored, MoneyAgrees, NothingOwed, Sum;
    RowsAre(x, rows, now);
    OwnersListed(x, rows, now);
    SumAgree(rows, x.positions, OFFERED, OFFER);
    SumAgree(rows, x.positions, ACCEPTED, FINAL);
    SumAgree(rows, x.positions, PAYOUT, PAID);
    SumAgree(rows, x.positions, REALIZED, GAIN);
  }

  // ------------------------------------------------------------------ who holds what where

  ghost function HeldBy(x: Index, a: Addr, m: MarketId): set<PositionId> {
    set id | id in x.positions && x.positions[id].owner == a && x.positions[id].market == m
  }

  ghost function MarketsHeld(x: Index, a: Addr): set<MarketId> {
    set id | id in x.positions && x.positions[id].owner == a :: x.positions[id].market
  }

  /** A link counts the positions a wallet holds in a market and is there only while it holds
      one; marketsEntered is the number of markets it holds positions in. */
  lemma LinksCount(es: seq<Event>, a: Addr, m: MarketId)
    requires Reached(es)
    ensures Get(After(es).links, (a, m)) == |HeldBy(After(es), a, m)|
    ensures (a, m) in After(es).links <==> HeldBy(After(es), a, m) != {}
    ensures AgentOf(After(es).agents, a).marketsEntered == |MarketsHeld(After(es), a)|
  {
    var v := RunFrom(START, es);
    ReachedAgrees(es);
    HoldingsCounted(v.x, v.rows, v.now, a, m);
    MarketsCounted(v.x, v.rows, v.now, a);
  }

  lemma HoldingsCounted(x: Index, rows: Rows, now: nat, a: Addr, m: MarketId)
    requires Core(x, rows, now)
    ensures Get(x.links, (a, m)) == |HeldBy(x, a, m)|
    ensures (a, m) in x.links <==> HeldBy(x, a, m) != {}
  {
    RowsAre(x, rows, now);
    CountIsSize(rows, HOLDING, (a, m));
    assert RowsWith(rows, HOLDING, (a, m)) == HeldBy(x, a, m);
    assert Get(x.links, (a, m)) == Sum(rows, Keyed(HOLDING, (a, m)));
  }

  lemma MarketsCounted(x: Index, rows: Rows, now: nat, a: Addr)
    requires Core(x, rows, now)
    ensures AgentOf(x.agents, a).marketsEntered == |MarketsHeld(x, a)|
  {
    var links := LinksOf(x.links, a);
    assert AgentOf(x.agents, a).marketsEntered == |links|;
    forall m ensures (a, m) in links <==> m in MarketsHeld(x, a) { HoldingsCounted(x, rows, now, a, m); HeldSomewhere(x, a, m); }
    LinkImage(links, a, MarketsHeld(x, a));
  }

  lemma HeldSomewhere(x: Index, a: Addr, m: MarketId)
    ensures HeldBy(x, a, m) != {} <==> m in MarketsHeld(x, a)
  {
    if id :| id in HeldBy(x, a, m) { assert x.positions[id].market in MarketsHeld(x, a); }
    if m in MarketsHeld(x, a) {
      var id :| id in x.positions && x.positions[id].owner == a && x.positions[id].market == m;
      assert id in HeldBy(x, a, m);
    }
  }

  lemma LinkImage(links: set<Holding>, a: Addr, markets: set<MarketId>)
    requires forall h :: h in links ==> h.0 == a
    requires forall m :: (a, m) in links <==> m in markets
    ensures |links| == |markets|
  {
    var f := (h: Holding) => h.1;
    forall m ensures m in markets <==> m in set h | h in links :: f(h) {
      if m in markets { assert f((a, m)) == m; }
    }
    ImageSize(links, f, markets);
  }

  // ------------------------------------------------------------------ days

  /** A bucket is a market and the number of a day: the 86,400 seconds from that many days on. */
  predicate Opened(p: Position, b: Bucket) {
    p.market == b.0 && 86_400 * b.1 <= p.createdAt < 86_400 * b.1 + 86_400
  }

  function OfferOn(b: Bucket): Position -> int {
    (p: Position) => if Opened(p, b) then p.offered else 0
  }

  function FinalOn(b: Bucket): Position -> int {
    (p: Position) => if Opened(p, b) && p.finalized then p.accepted else 0
  }

  function RefusedOn(b: Bucket): Position -> int {
    (p: Position) => if Opened(p, b) && p.finalized then p.offered - p.accepted else 0
  }

  function PendingOn(b: Bucket): Position -> int {
    (p: Position) => if Opened(p, b) && !p.finalized then p.offered else 0
  }

  /** The wallets credited with the positions a market opened on a day. */
  ghost function StakersIn(rows: Rows, b: Bucket): set<Addr> {
    set id | id in rows && Opened(rows[id].p, b) :: rows[id].staker
  }

  /** A day's bucket holds what its positions offered, were accepted and were refused, which with
      the offers still pending is all of it; its uniqueAgents are its distinct credited wallets. */
  lemma {:induction false} DaysBalance(es: seq<Event>, b: Bucket)
    requires Reached(es)
    ensures var x, s := After(es), StatOf(After(es).days, b);
            && s.offered == Sum(x.positions, OfferOn(b)) && s.accepted == Sum(x.positions, FinalOn(b))
            && s.rationed == Sum(x.positions, RefusedOn(b))
            && s.offered == s.accepted + s.rationed + Sum(x.positions, PendingOn(b))
            && s.uniqueAgents == |StakersIn(RunFrom(START, es).rows, b)|
  {
    var v := RunFrom(START, es);
    ReachedAgrees(es);
    DayAmounts(v.x, v.rows, v.now, b);
    DayWallets(v.x, v.rows, v.now, b);
  }

  lemma {:induction false} DayAmounts(x: Index, rows: Rows, now: nat, b: Bucket)
    requires Core(x, rows, now)
    ensures var s := StatOf(x.days, b);
            && s.offered == Sum(x.positions, OfferOn(b)) && s.accepted == Sum(x.positions, FinalOn(b))
            && s.rationed == Sum(x.positions, RefusedOn(b))
            && s.offered == s.accepted + s.rationed + Sum(x.positions, PendingOn(b))
  {
    RowsAre(x, rows, now);
    BucketBalances(x.days, rows, x.agents, now, b);
    assert StatAgrees(StatOf(x.days, b), rows, b);
    DaySums(x, rows, now, b);
  }

  lemma {:induction false} DaySums(x: Index, rows: Rows, now: nat, b: Bucket)
    requires RowsOk(rows, x.agents, now) && x.positions.Keys == rows.Keys
    requires forall id :: id in rows ==> rows[id].p == x.positions[id]
    ensures Sum(rows, OfferedIn(b)) == Sum(x.positions, OfferOn(b)) && Sum(rows, AcceptedIn(b)) == Sum(x.positions, FinalOn(b))
    ensures Sum(rows, RationedIn(b)) == Sum(x.positions, RefusedOn(b)) && Sum(rows, PendingIn(b)) == Sum(x.positions, PendingOn(b))
  {
    forall id | id in rows ensures RationedIn(b)(rows[id]) == RefusedOn(b)(x.positions[id]) {
      assert RowOk(rows[id], x.agents, now);
    }
    SumAgree(rows, x.positions, OfferedIn(b), OfferOn(b));
    SumAgree(rows, x.positions, AcceptedIn(b), FinalOn(b));
    SumAgree(rows, x.positions, RationedIn(b), RefusedOn(b));
    SumAgree(rows, x.positions, PendingIn(b), PendingOn(b));
  }

  lemma DayWallets(x: Index, rows: Rows, now: nat, b: Bucket)
    requires Core(x, rows, now)
    ensures StatOf(x.days, b).uniqueAgents == |StakersIn(rows, b)|
  {
    var credits := CreditedIn(x.dayAgents, b);
    assert StatOf(x.days, b).uniqueAgents == |credits|;
    forall a ensures (b.0, b.1, a) in credits <==> a in StakersIn(rows, b) { CreditedSomewhere(x.dayAgents, rows, b, a); }
    CreditImage(credits, b, StakersIn(rows, b));
  }

  lemma OpenedIn(r: Row, b: Bucket)
    ensures Opened(r.p, b) <==> InBucket(r, b)
  {
  }

  lemma CreditedSomewhere(dayAgents: map<Credit, nat>, rows: Rows, b: Bucket, a: Addr)
    requires Counts(dayAgents, rows, CREDIT)
    ensures (b.0, b.1, a) in dayAgents <==> a in StakersIn(rows, b)
  {
    hide Opened;
    var k := (b.0, b.1, a);
    CountIsSize(rows, CREDIT, k);
    assert Get(dayAgents, k) == |RowsWith(rows, CREDIT, k)|;
    if id :| id in RowsWith(rows, CREDIT, k) {
      OpenedIn(rows[id], b);
      assert rows[id].staker in StakersIn(rows, b);
    }
    if a in StakersIn(rows, b) {
      var id :| id in rows && Opened(rows[id].p, b) && rows[id].staker == a;
      OpenedIn(rows[id], b);
      assert id in RowsWith(rows, CREDIT, k);
    }
  }

  lemma CreditImage(credits: set<Credit>, b: Bucket, wallets: set<Addr>)
    requires forall k :: k in credits ==> (k.0, k.1) == b
    requires forall a :: (b.0, b.1, a) in credits <==> a in wallets
    ensures |credits| == |wallets|
  {
    var f := (k: Credit) => k.2;
    forall a ensures a in wallets <==> a in set k | k in credits :: f(k) {
      if a in wallets { assert f((b.0, b.1, a)) == a; }
    }
    ImageSize(credits, f, wallets);
  }

  // ------------------------------------------------------------------ hand-overs and vintages

  /** Everything a hand-over takes off the sender is there to take, so no subtraction in it is cut
      short: the stake, the market link and its market, the day's credit and its wallet. */
  lemma HandOverIsExact(es: seq<Event>, id: PositionId, to: Addr, tx: nat)
    requires Reached(es) && CanHappen(RunFrom(START, es), Transferred(id, to, tx)) && id in After(es).positions
    requires After(es).positions[id].createdTx == tx && After(es).positions[id].owner != to
    ensures var x, p := After(es), After(es).positions[id];
            var h, k := (p.owner, p.market), (p.market, DayOf(p.createdAt), p.owner);
            && p.owner in x.agents
            && p.offered <= x.agents[p.owner].totalOffered && p.accepted <= x.agents[p.owner].totalAccepted
            && Get(x.links, h) >= 1 && x.agents[p.owner].marketsEntered >= 1
            && Get(x.dayAgents, k) >= 1 && StatOf(x.days, (k.0, k.1)).uniqueAgents >= 1
  {
    var v := RunFrom(START, es);
    ReachedAgrees(es);
    AgreesLater(v.x, v.rows, v.now, tx);
    TakenIsThere(v.x, v.rows, tx, id);
  }

  lemma TakenIsThere(x: Index, rows: Rows, now: nat, id: PositionId)
    requires Core(x, rows, now) && id in x.positions && x.positions[id].createdTx == now
    ensures var p := x.positions[id];
            var h, k := (p.owner, p.market), (p.market, DayOf(p.createdAt), p.owner);
            && p.owner in x.agents
            && p.offered <= x.agents[p.owner].totalOffered && p.accepted <= x.agents[p.owner].totalAccepted
            && Get(x.links, h) >= 1 && x.agents[p.owner].marketsEntered >= 1
            && Get(x.dayAgents, k) >= 1 && StatOf(x.days, (k.0, k.1)).uniqueAgents >= 1
  {
    var p := x.positions[id];
    KnownRow(x, rows, now, id);
    CreditCovers(x.agents, rows, now, id);
    TotalsNonNegative(x.agents, rows, now, p.owner);
    CountsHas(x.links, rows, HOLDING, id);
    CountsHas(x.dayAgents, rows, CREDIT, id);
    assert (p.owner, p.market) in LinksOf(x.links, p.owner);
    assert AgentOf(x.agents, p.owner).marketsEntered == |LinksOf(x.links, p.owner)|;
    var b := (p.market, DayOf(p.createdAt));
    assert CREDIT(rows[id]) in CreditedIn(x.dayAgents, b);
    assert StatOf(x.days, b).uniqueAgents == |CreditedIn(x.dayAgents, b)|;
  }

  function OfferTo(v: VintageId): Position -> int {
    (p: Position) => if p.vintage == Some(v) then p.offered else 0
  }

  function FinalTo(v: VintageId): Position -> int {
    (p: Position) => if p.vintage == Some(v) && p.finalized then p.accepted else 0
  }

  /** A vintage holds what its positions offered and were accepted; once finalized the rest is
      rationed and nothing waits; until then exactly its own unfinalized positions may wait. */
  lemma {:induction false} VintagesBalance(es: seq<Event>, v: VintageId)
    requires Reached(es)
    ensures var x, t := After(es), VintageOf(After(es).vintages, v);
            && t.offered == Sum(x.positions, OfferTo(v)) && t.accepted == Sum(x.positions, FinalTo(v))
            && (t.finalized ==> t.rationed == t.offered - t.accepted && t.pending == [])
            && (forall i :: 0 <= i < |t.pending| ==>
                  t.pending[i] in x.positions && x.positions[t.pending[i]].vintage == Some(v)
                  && !x.positions[t.pending[i]].finalized)
  {
    var n := RunFrom(START, es);
    ReachedAgrees(es);
    RowsAre(n.x, n.rows, n.now);
    assert VintageOk(VintageOf(n.x.vintages, v), n.rows, v);
    VintageTotals(n.x, n.rows, v);
  }

  lemma {:induction false} VintageTotals(x: Index, rows: Rows, v: VintageId)
    requires x.positions.Keys == rows.Keys && forall id :: id in rows ==> rows[id].p == x.positions[id]
    ensures Sum(rows, OfferedInVintage(v)) == Sum(x.positions, OfferTo(v))
    ensures Sum(rows, AcceptedInVintage(v)) == Sum(x.positions, FinalTo(v))
  {
    SumAgree(rows, x.positions, OfferedInVintage(v), OfferTo(v));
    SumAgree(rows, x.positions, AcceptedInVintage(v), FinalTo(v));
  }
}
