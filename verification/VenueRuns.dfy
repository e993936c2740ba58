/** Whole runs of the venue index: whatever valid events arrive, every stored total, count and
    link equals its recomputation from the positions and the wallets credited with them. */
module VenueRuns {
  import opened Numbers
  import opened Tallies
  import opened VenueLedger
  import opened VenueAgreement
  import opened VenueIndexes

  // ------------------------------------------------------------------ agreement of the whole index

  /** The stored positions are the rows'. */
  ghost predicate Stored(x: Index, rows: Rows) {
    x.positions.Keys == rows.Keys && forall id :: id in rows ==> Kept(x, rows, id)
  }

  ghost predicate Kept(x: Index, rows: Rows, id: PositionId) {
    id in rows && id in x.positions && rows[id].p == x.positions[id] && rows[id].p.market in x.markets
  }

  ghost predicate Counters(x: Index, rows: Rows) {
    && x.agentCount == |x.agents| && x.positionCount == |x.positions| && x.marketCount == |x.markets|
    && x.totalAccepted == Sum(rows, ACCEPTED) && x.totalClaimed == Sum(rows, PAYOUT)
  }

  ghost predicate Core(x: Index, rows: Rows, now: nat) {
    && Stored(x, rows) && Counters(x, rows) && RowsOk(rows, x.agents, now)
    && MoneyOk(x.agents, rows) && LinksOk(x.agents, x.links, rows) && DaysOk(x.days, x.dayAgents, rows)
  }

  ghost predicate Agrees(x: Index, rows: Rows, now: nat) {
    Core(x, rows, now) && Books(x.vintages, rows)
  }

  lemma EmptyAgrees()
    ensures Agrees(EMPTY, map[], 0)
  {
    assert forall b: Bucket :: CreditedIn(EMPTY.dayAgents, b) == {};
    assert forall a: Addr :: LinksOf(EMPTY.links, a) == {};
  }

  // ------------------------------------------------------------------ entries

  /** A new position, credited to the wallet its log names. */
  function EnteredRow(e: Entry): Row {
    Row(NewPosition(e).(vintage := Some((e.market, e.vintage))), e.owner, e.owner)
  }

  lemma KnownRow(x: Index, rows: Rows, now: nat, id: PositionId)
    requires Core(x, rows, now) && id in rows
    ensures Kept(x, rows, id) && RowOk(rows[id], x.agents, now)
  {
  }

  lemma StoredPut(x: Index, y: Index, rows: Rows, id: PositionId, r: Row)
    requires Stored(x, rows) && x.markets <= y.markets && r.p.market in y.markets
    requires y.positions == x.positions[id := r.p]
    ensures Stored(y, rows[id := r])
  {
    var rs := rows[id := r];
    forall k | k in rs ensures Kept(y, rs, k) {
      if k != id { assert Kept(x, rows, k); }
    }
  }

  /** What taking up an entry changes, field by field. */
  lemma RecordedFields(x: Index, e: Entry)
    ensures var y, r := RecordEntry(x, e), EnteredRow(e);
            && y.agents == Linked(x.links, AddOffered(Ensured(x.agents, e.owner), e.owner, e.offered), HOLDING(r))
            && y.agents.Keys == Ensured(x.agents, e.owner).Keys
            && y.days == DayCounted(DayEntered(x.days, r), x.dayAgents, CREDIT(r))
            && y == x.(agents := y.agents, links := Incr(x.links, HOLDING(r)),
                       positions := x.positions[e.id := NewPosition(e)], days := y.days,
                       dayAgents := Incr(x.dayAgents, CREDIT(r)), heads := Incr(x.heads, (e.market, e.outcome)),
                       positionCount := x.positionCount + 1,
                       agentCount := x.agentCount + if e.owner in x.agents then 0 else 1)
  {
    hide DayCounted, Incr, DayEntered, WithAgent, Linked;
    AgentIs(x, e.owner);
    SameDay(x.days, e);
    SameKeys(x.links, AddOffered(Ensured(x.agents, e.owner), e.owner, e.offered), HOLDING(EnteredRow(e)));
  }

  lemma SameDay(days: map<Bucket, DayStat>, e: Entry)
    ensures DayEntered(days, Row(NewPosition(e), e.owner, e.owner)) == DayEntered(days, EnteredRow(e))
  {
  }

  lemma SameKeys(links: map<Holding, nat>, agents: Agents, h: Holding)
    requires h.0 in agents
    ensures Linked(links, agents, h).Keys == agents.Keys
  {
  }

  lemma FiledFields(x: Index, e: Entry)
    ensures var y, r := Filed(x, e), EnteredRow(e);
            && y.agents == Linked(x.links, AddOffered(Ensured(x.agents, e.owner), e.owner, e.offered), HOLDING(r))
            && y.agents.Keys == Ensured(x.agents, e.owner).Keys
            && y.days == DayCounted(DayEntered(x.days, r), x.dayAgents, CREDIT(r))
            && y == x.(agents := y.agents, links := Incr(x.links, HOLDING(r)), positions := x.positions[e.id := r.p],
                       days := y.days, dayAgents := Incr(x.dayAgents, CREDIT(r)), markets := x.markets + {e.market},
                       heads := Incr(x.heads, (e.market, e.outcome)), positionCount := x.positionCount + 1,
                       agentCount := x.agentCount + (if e.owner in x.agents then 0 else 1),
                       marketCount := x.marketCount + if e.market in x.markets then 0 else 1)
  {
    hide RecordEntry, WithMarket, DayCounted, DayEntered, Incr, Linked, AddOffered, Ensured;
    MarketIs(x, e.market);
    RecordedFields(WithMarket(x, e.market), e);
    assert x.positions[e.id := NewPosition(e)][e.id := EnteredRow(e).p] == x.positions[e.id := EnteredRow(e).p];
  }

  lemma MarketIs(x: Index, m: MarketId)
    ensures WithMarket(x, m) ==
            x.(markets := x.markets + {m}, marketCount := x.marketCount + if m in x.markets then 0 else 1)
  {
    assert m in x.markets ==> x.markets + {m} == x.markets;
  }

  lemma AgentIs(x: Index, a: Addr)
    ensures WithAgent(x, a) == x.(agents := Ensured(x.agents, a), agentCount := x.agentCount + if a in x.agents then 0 else 1)
  {
  }

  lemma {:induction false} EntryCounters(x: Index, y: Index, rows: Rows, id: PositionId, r: Row)
    requires Stored(x, rows) && Counters(x, rows) && id !in rows && !r.p.finalized && r.p.payout == 0
    requires y.agents.Keys == Ensured(x.agents, r.p.owner).Keys && y.positions == x.positions[id := r.p]
    requires y.agentCount == x.agentCount + (if r.p.owner in x.agents then 0 else 1)
    requires y.markets == x.markets + {r.p.market} && y.positionCount == x.positionCount + 1
    requires y.marketCount == x.marketCount + if r.p.market in x.markets then 0 else 1
    requires y.totalAccepted == x.totalAccepted && y.totalClaimed == x.totalClaimed
    ensures Counters(y, rows[id := r])
  {
    hide Sum, Kept;
    RowSums(rows, id, r);
    SameSize(y.agents, Ensured(x.agents, r.p.owner));
    MapGrows(x.agents, r.p.owner, NEW_AGENT);
    MapGrows(x.positions, id, r.p);
    assert r.p.market in x.markets ==> x.markets + {r.p.market} == x.markets;
  }

  lemma SameSize(agents: Agents, e: Agents)
    requires agents.Keys == e.Keys
    ensures |agents| == |e|
  {
    assert |agents| == |agents.Keys| && |e| == |e.Keys|;
  }

  /** An entry keeps the index in agreement. */
  lemma EntryKeeps(x: Index, rows: Rows, now: nat, e: Entry)
    requires Core(x, rows, now) && e.id !in rows && now <= e.tx
    ensures Core(Filed(x, e), rows[e.id := EnteredRow(e)], e.tx)
  {
    hide Filed, Stored, Counters, RowsOk, MoneyOk, LinksOk, DaysOk, Linked, AddOffered, Ensured, DayEntered, DayCounted, Incr;
    var r := EnteredRow(e);
    FiledFields(x, e);
    EntryCounters(x, Filed(x, e), rows, e.id, r);
    StoredPut(x, Filed(x, e), rows, e.id, r);
    EntryAgents(x.agents, x.links, rows, now, e.tx, e.id, r);
    EntryDays(x.days, x.dayAgents, rows, e.id, r);
  }

  // ------------------------------------------------------------------ acceptances

  lemma AcceptanceFields(x: Index, rows: Rows, id: PositionId, accepted: nat)
    requires Kept(x, rows, id) && rows[id].p.owner in x.agents
    ensures var y, r := RecordAcceptance(x, id, accepted), AcceptedRow(rows[id], accepted);
            && y.agents == AddAccepted(x.agents, r.p.owner, r.p.accepted) && y.agents.Keys == x.agents.Keys
            && y.days == DayAccepted(x.days, r) && y.positions == x.positions[id := r.p]
            && y == x.(agents := y.agents, days := y.days, positions := y.positions, totalAccepted := x.totalAccepted + accepted)
  {
  }

  lemma CountersKeep(x: Index, y: Index, rows: Rows, id: PositionId, r: Row)
    requires Counters(x, rows) && id in rows && id in x.positions
    requires y.agents.Keys == x.agents.Keys && y.positions.Keys == x.positions.Keys && y.markets == x.markets
    requires y.agentCount == x.agentCount && y.positionCount == x.positionCount && y.marketCount == x.marketCount
    requires y.totalAccepted == x.totalAccepted - ACCEPTED(rows[id]) + ACCEPTED(r)
    requires y.totalClaimed == x.totalClaimed - PAYOUT(rows[id]) + PAYOUT(r)
    ensures Counters(y, rows[id := r])
  {
    RowSums(rows, id, r);
    SameSize(x.agents, y.agents);
    assert |x.positions| == |x.positions.Keys| && |y.positions| == |y.positions.Keys|;
  }

  /** An acceptance that becomes known keeps the index in agreement. */
  lemma AcceptanceKeeps(x: Index, rows: Rows, now: nat, id: PositionId, accepted: nat)
    requires Core(x, rows, now) && id in rows && !rows[id].p.finalized && !rows[id].p.claimed
    requires accepted <= rows[id].p.offered
    ensures id in x.positions && Core(RecordAcceptance(x, id, accepted), rows[id := AcceptedRow(rows[id], accepted)], now)
  {
    hide Stored, Counters, RowsOk, MoneyOk, LinksOk, DaysOk, RecordAcceptance, AddAccepted, DayAccepted;
    var r := AcceptedRow(rows[id], accepted);
    KnownRow(x, rows, now, id);
    AcceptanceFields(x, rows, id, accepted);
    AcceptanceAgents(x.agents, x.links, rows, now, id, r);
    AcceptanceDays(x.days, x.dayAgents, rows, id, r);
    AcceptanceStored(x, rows, id, accepted);
  }

  lemma AcceptanceStored(x: Index, rows: Rows, id: PositionId, accepted: nat)
    requires Stored(x, rows) && Counters(x, rows) && id in rows && !rows[id].p.finalized && rows[id].p.owner in x.agents
    ensures id in x.positions
            && var y, rs := RecordAcceptance(x, id, accepted), rows[id := AcceptedRow(rows[id], accepted)];
               Stored(y, rs) && Counters(y, rs)
  {
    var r, y := AcceptedRow(rows[id], accepted), RecordAcceptance(x, id, accepted);
    assert Kept(x, rows, id);
    AcceptanceFields(x, rows, id, accepted);
    StoredPut(x, y, rows, id, r);
    CountersKeep(x, y, rows, id, r);
  }

  // ------------------------------------------------------------------ settlement

  function Paid(g: Agent, r: Row, after: Row): Agent {
    g.(totalClaimed := g.totalClaimed + (after.p.payout - r.p.payout),
       realizedPnl := g.realizedPnl + (REALIZED(after) - REALIZED(r)))
  }

  lemma SettlementFields(x: Index, rows: Rows, id: PositionId, payout: nat, refund: nat, settled: bool)
    requires Kept(x, rows, id) && rows[id].p.owner in x.agents
    ensures var y, r, o := RecordSettlement(x, id, payout, refund, settled),
                           SettledRow(rows[id], payout, refund, settled), rows[id].p.owner;
            && y.agents == x.agents[o := Paid(x.agents[o], rows[id], r)] && y.agents.Keys == x.agents.Keys
            && y.positions == x.positions[id := r.p]
            && y == x.(agents := y.agents, positions := y.positions, totalClaimed := x.totalClaimed + payout)
  {
  }

  lemma SettlementStored(x: Index, rows: Rows, id: PositionId, payout: nat, refund: nat, settled: bool)
    requires Stored(x, rows) && Counters(x, rows) && id in rows && rows[id].p.owner in x.agents
    ensures id in x.positions
            && var y, rs := RecordSettlement(x, id, payout, refund, settled),
                            rows[id := SettledRow(rows[id], payout, refund, settled)];
               Stored(y, rs) && Counters(y, rs)
  {
    var r, y := SettledRow(rows[id], payout, refund, settled), RecordSettlement(x, id, payout, refund, settled);
    assert Kept(x, rows, id);
    SettlementFields(x, rows, id, payout, refund, settled);
    StoredPut(x, y, rows, id, r);
    CountersKeep(x, y, rows, id, r);
  }

  /** A settlement keeps the index in agreement. */
  lemma SettlementKeeps(x: Index, rows: Rows, now: nat, id: PositionId, payout: nat, refund: nat, settled: bool)
    requires Core(x, rows, now) && id in rows
    ensures id in x.positions
            && Core(RecordSettlement(x, id, payout, refund, settled),
                    rows[id := SettledRow(rows[id], payout, refund, settled)], now)
  {
    hide Stored, Counters, RowsOk, MoneyOk, LinksOk, DaysOk, RecordSettlement;
    var r := SettledRow(rows[id], payout, refund, settled);
    KnownRow(x, rows, now, id);
    SettlementFields(x, rows, id, payout, refund, settled);
    SettlementAgents(x.agents, x.links, rows, now, id, r, Paid(x.agents[r.p.owner], rows[id], r));
    KeepDays(x.days, x.dayAgents, rows, id, r);
    SettlementStored(x, rows, id, payout, refund, settled);
  }

  // ------------------------------------------------------------------ transfers

  lemma SameStored(x: Index, y: Index, rows: Rows)
    requires Stored(x, rows) && y.positions == x.positions && x.markets <= y.markets
    ensures Stored(y, rows)
  {
    forall k | k in rows ensures Kept(y, rows, k) { assert Kept(x, rows, k); }
  }

  lemma MetCounters(x: Index, rows: Rows, a: Addr)
    requires Counters(x, rows)
    ensures Counters(WithAgent(x, a), rows)
  {
    MapGrows(x.agents, a, NEW_AGENT);
  }

  /** Meeting a wallet, and time passing, change nothing that must agree. */
  lemma AgentKeeps(x: Index, rows: Rows, now: nat, a: Addr, later: nat)
    requires Core(x, rows, now) && now <= later
    ensures Core(WithAgent(x, a), rows, later)
  {
    hide Stored, Counters, RowsOk, MoneyOk, LinksOk, DaysOk, Ensured, WithAgent;
    AgentIs(x, a);
    EnsuredOk(x.agents, x.links, rows, now, a);
    LaterOk(rows, Ensured(x.agents, a), now, later);
    SameStored(x, WithAgent(x, a), rows);
    MetCounters(x, rows, a);
  }

  /** While it covers what is taken off, a saturating subtraction is exact. */
  lemma DetachedExact(links: map<Holding, nat>, agents: Agents, h: Holding)
    requires h.0 in agents && h in links && (h !in Decr(links, h) ==> agents[h.0].marketsEntered >= 1)
    ensures Detached(links, agents, h) == Unlinked(links, agents, h)
  {
  }

  lemma DroppedExact(days: map<Bucket, DayStat>, dayAgents: map<Credit, nat>, k: Credit)
    requires k in dayAgents && (k !in Decr(dayAgents, k) ==> StatOf(days, (k.0, k.1)).uniqueAgents >= 1)
    ensures DayDropped(days, dayAgents, k) == DayUncounted(days, dayAgents, k)
  {
  }

  lemma MovedExact(agents: Agents, from: Addr, to: Addr, offered: int, accepted: int)
    requires from in agents && to in agents && from != to
    requires 0 <= offered <= agents[from].totalOffered && 0 <= accepted <= agents[from].totalAccepted
    ensures Moved(agents, from, to, offered, accepted) == Rewritten(agents, from, to, offered, accepted)
  {
  }

  /** What a resale leaves: the link moved, exactly. */
  lemma ResoldFields(x: Index, rows: Rows, id: PositionId, r: Row)
    requires Kept(x, rows, id) && LinksOk(x.agents, x.links, rows)
    requires rows[id].p.owner in x.agents && r.p.owner in x.agents && r.p.owner != rows[id].p.owner
    requires r.p == rows[id].p.(owner := r.p.owner)
    ensures var from, to := HOLDING(rows[id]), HOLDING(r);
            var y := Resold(x, id, from.0, to.0);
            && y == x.(agents := y.agents, links := y.links, positions := x.positions[id := r.p])
            && y.agents == Relinked(x.links, x.agents, from, to) && y.agents.Keys == x.agents.Keys
            && LinksOk(y.agents, y.links, rows[id := r])
  {
    hide LinksOk, Decr;
    TransferLinks(x.agents, x.links, rows, id, r);
    DetachedExact(Incr(x.links, HOLDING(r)), Linked(x.links, x.agents, HOLDING(r)), HOLDING(rows[id]));
  }

  /** New hands change neither what is stored elsewhere nor any counter. */
  lemma MovedStored(x: Index, y: Index, rows: Rows, id: PositionId, r: Row)
    requires Stored(x, rows) && Counters(x, rows) && id in rows && r.p == rows[id].p.(owner := r.p.owner)
    requires y == x.(agents := y.agents, links := y.links, positions := x.positions[id := r.p], days := y.days,
                     dayAgents := y.dayAgents)
    requires y.agents.Keys == x.agents.Keys
    ensures Stored(y, rows[id := r]) && Counters(y, rows[id := r])
  {
    assert Kept(x, rows, id);
    StoredPut(x, y, rows, id, r);
    CountersKeep(x, y, rows, id, r);
  }

  lemma SaleAgents(agents: Agents, e: Agents, links: map<Holding, nat>, rows: Rows, now: nat, id: PositionId, r: Row)
    requires MoneyOk(agents, rows) && RowsOk(rows, agents, now) && id in rows && RowOk(r, agents, now)
    requires r == rows[id].(p := r.p) && r.p == rows[id].p.(owner := r.p.owner) && rows[id].p.owner in agents
    requires e == Relinked(links, agents, HOLDING(rows[id]), HOLDING(r))
    ensures MoneyOk(e, rows[id := r]) && RowsOk(rows[id := r], e, now)
  {
    SaleMoney(agents, rows, id, r);
    MovedMoney(agents, links, HOLDING(rows[id]), HOLDING(r), rows[id := r]);
    RowsPut(rows, agents, e, now, id, r);
  }

  /** A sale in a later transaction keeps the index in agreement. */
  lemma SaleKeeps(x: Index, rows: Rows, now: nat, id: PositionId, to: Addr)
    requires Core(x, rows, now) && id in rows && rows[id].p.owner != to && to in x.agents && rows[id].p.createdTx < now
    ensures id in x.positions && rows[id].p.owner in x.agents
            && Core(Resold(x, id, rows[id].p.owner, to), rows[id := rows[id].(p := rows[id].p.(owner := to))], now)
  {
    hide Stored, Counters, RowsOk, MoneyOk, LinksOk, DaysOk, Resold, Relinked;
    var r := rows[id].(p := rows[id].p.(owner := to));
    KnownRow(x, rows, now, id);
    var y := Resold(x, id, rows[id].p.owner, to);
    ResoldFields(x, rows, id, r);
    MovedStored(x, y, rows, id, r);
    SaleAgents(x.agents, y.agents, x.links, rows, now, id, r);
    KeepDays(x.days, x.dayAgents, rows, id, r);
  }

  /** What a hand-over leaves: the stake and the day's credit moved, exactly. */
  lemma CreditedFields(x: Index, y: Index, rows: Rows, now: nat, id: PositionId, to: Addr)
    requires MoneyOk(x.agents, rows) && RowsOk(rows, x.agents, now) && DaysOk(x.days, x.dayAgents, rows)
    requires Kept(x, rows, id) && rows[id].p.createdTx == now && rows[id].p.owner != to && to in x.agents
    requires y.days == x.days && y.dayAgents == x.dayAgents && rows[id].p.owner in x.agents
    requires var from := HOLDING(rows[id]);
             y.agents == Relinked(x.links, x.agents, from, (to, from.1)) && y.positions == x.positions[id := rows[id].p.(owner := to)]
    ensures var p, r := rows[id].p, Row(rows[id].p.(owner := to), to, to);
            var z := Credited(y, id, p.owner, to);
            && z == y.(agents := z.agents, days := z.days, dayAgents := z.dayAgents)
            && z.agents == Rewritten(y.agents, p.owner, to, p.offered, p.accepted) && z.agents.Keys == y.agents.Keys
            && DaysOk(z.days, z.dayAgents, rows[id := r])
  {
    hide MoneyOk, DaysOk, DayDropped, DayUncounted, DayCounted;
    var p, r := rows[id].p, Row(rows[id].p.(owner := to), to, to);
    assert RowOk(rows[id], x.agents, now);
    HandOverCovered(x.agents, y.agents, x.links, HOLDING(rows[id]), HOLDING(r), rows, now, id);
    MovedExact(y.agents, p.owner, to, p.offered, p.accepted);
    HandOverDays(x.days, x.dayAgents, rows, id, r);
    DroppedExact(x.days, x.dayAgents, CREDIT(rows[id]));
  }

  /** A hand-over inside the opening transaction keeps the index in agreement. */
  lemma HandOverKeeps(x: Index, rows: Rows, now: nat, id: PositionId, to: Addr)
    requires Core(x, rows, now) && id in rows && rows[id].p.owner != to && to in x.agents && rows[id].p.createdTx == now
    ensures id in x.positions && rows[id].p.owner in x.agents
            && var from := rows[id].p.owner;
               Core(Credited(Resold(x, id, from, to), id, from, to),
                    rows[id := Row(rows[id].p.(owner := to), to, to)], now)
  {
    hide Stored, Counters, RowsOk, MoneyOk, LinksOk, DaysOk, Resold, Credited, Relinked, Rewritten;
    var from, r := rows[id].p.owner, Row(rows[id].p.(owner := to), to, to);
    KnownRow(x, rows, now, id);
    var y := Resold(x, id, from, to);
    ResoldFields(x, rows, id, r);
    CreditedFields(x, y, rows, now, id, to);
    var z := Credited(y, id, from, to);
    HandOverAgents(x.agents, y.agents, z.agents, x.links, z.links, rows, now, id, r, from, to);
    MovedStored(x, z, rows, id, r);
  }

  lemma DroppedAgents(agents: Agents, links: map<Holding, nat>, rows: Rows, now: nat, a: Addr)
    requires MoneyOk(agents, rows) && LinksOk(agents, links, rows) && RowsOk(rows, agents, now)
    requires a in agents && agents[a] == NEW_AGENT && forall id :: id in rows ==> rows[id].p.owner != a
    ensures var e := agents - {a}; MoneyOk(e, rows) && LinksOk(e, links, rows) && RowsOk(rows, e, now)
    ensures |agents - {a}| == |agents| - 1
  {
    DroppedKeeps(agents, rows, links, now, a);
    assert (agents - {a}).Keys == agents.Keys - {a};
    assert |agents - {a}| == |(agents - {a}).Keys| && |agents| == |agents.Keys|;
  }

  /** Only a wallet with nothing to its name and nothing in its hands is a conduit. */
  lemma ConduitIsNew(x: Index, rows: Rows, now: nat, a: Addr)
    requires MoneyOk(x.agents, rows) && LinksOk(x.agents, x.links, rows) && RowsOk(rows, x.agents, now) && a in x.agents
    ensures DropConduit(x, a) == if x.agents[a] == NEW_AGENT && HoldsNothing(x, a)
                                 then x.(agents := x.agents - {a}, agentCount := SaturatingSub(x.agentCount, 1)) else x
  {
    TotalsNonNegative(x.agents, rows, now, a);
    assert AgentOf(x.agents, a).marketsEntered == |LinksOf(x.links, a)|;
  }

  /** Dropping an address keeps the index in agreement, and no position is left without its
      owner. */
  lemma DropKeeps(x: Index, rows: Rows, now: nat, a: Addr)
    requires Core(x, rows, now) && a in x.agents
    ensures Core(DropConduit(x, a), rows, now)
  {
    ConduitIsNew(x, rows, now, a);
    if x.agents[a] == NEW_AGENT && HoldsNothing(x, a) {
      var y := DropConduit(x, a);
      forall id | id in rows ensures rows[id].p.owner != a { assert Kept(x, rows, id); }
      DroppedAgents(x.agents, x.links, rows, now, a);
      forall id | id in rows ensures Kept(y, rows, id) { assert Kept(x, rows, id); }
    }
  }

  /** A transfer of a known position, whichever kind it is, keeps the index in agreement. */
  lemma TransferKeeps(x: Index, rows: Rows, now: nat, id: PositionId, to: Addr, tx: nat)
    requires Core(x, rows, now) && id in rows && now <= tx
    ensures id in x.positions
            && Core(RecordTransfer(x, id, to, tx), rows[id := TransferredRow(rows[id], to, tx)], tx)
  {
    hide Core, Attach, Resold, Credited, DropConduit, RowOk;
    var known := WithAgent(x, to);
    AgentKeeps(x, rows, now, to, tx);
    KnownRow(known, rows, tx, id);
    var from := rows[id].p.owner;
    if from == to {
      assert rows[id := rows[id]] == rows;
    } else if rows[id].p.createdTx == tx {
      HandOverKeeps(known, rows, tx, id, to);
      DropKeeps(Credited(Resold(known, id, from, to), id, from, to), rows[id := Row(rows[id].p.(owner := to), to, to)], tx, from);
    } else {
      SaleKeeps(known, rows, tx, id, to);
    }
  }

  // ------------------------------------------------------------------ vintages

  /** How the rows stand after the first n of a vintage's waiting entries were accepted. */
  function AcceptedRows(rows: Rows, ids: seq<PositionId>, answers: Readings, n: nat): Rows
    requires n <= |ids|
  {
    if n == 0 then rows
    else
      var rs := AcceptedRows(rows, ids, answers, n - 1);
      var id := ids[n - 1];
      if id in rs && id in answers then rs[id := AcceptedRow(rs[id], answers[id].accepted)] else rs
  }

  ghost predicate Honest(rows: Rows, answers: Readings) {
    forall id :: id in answers && id in rows ==> answers[id].accepted <= rows[id].p.offered
  }

  /** Every vintage's sums over rs are those over rows, and v accepted more by `accepted`. */
  ghost predicate AcceptedMore(rows: Rows, rs: Rows, v: VintageId, accepted: nat) {
    forall u :: SumsMoved(rows, rs, u, v, accepted)
  }

  ghost predicate SumsMoved(rows: Rows, rs: Rows, u: VintageId, v: VintageId, accepted: nat) {
    && Sum(rs, OfferedInVintage(u)) == Sum(rows, OfferedInVintage(u))
    && Sum(rs, EntriesInVintage(u)) == Sum(rows, EntriesInVintage(u))
    && Sum(rs, AcceptedInVintage(u)) == Sum(rows, AcceptedInVintage(u)) + if u == v then accepted else 0
  }

  lemma AcceptedMoreStep(rows: Rows, rs: Rows, v: VintageId, accepted: nat, id: PositionId, more: nat)
    requires AcceptedMore(rows, rs, v, accepted) && id in rs && rs[id].p.vintage == Some(v) && !rs[id].p.finalized
    ensures AcceptedMore(rows, rs[id := AcceptedRow(rs[id], more)], v, accepted + more)
  {
    var rs' := rs[id := AcceptedRow(rs[id], more)];
    var sum := accepted + more;
    forall u ensures SumsMoved(rows, rs', u, v, sum) {
      assert SumsMoved(rows, rs, u, v, accepted);
      VintageSums(rs, id, rs'[id], u);
    }
  }

  lemma AcceptedNone(rows: Rows, v: VintageId)
    ensures AcceptedMore(rows, rows, v, 0)
  {
  }

  /** Accepting waiting entries touches no vintage, no market and no other position. */
  lemma {:induction false} AcceptFirstFrames(x: Index, ids: seq<PositionId>, answers: Readings, n: nat)
    requires n <= |ids|
    ensures var y := AcceptFirst(x, ids, answers, n);
            y.positions.Keys == x.positions.Keys && y.vintages == x.vintages && y.markets == x.markets
            && y.openVintage == x.openVintage
    decreases n
  {
    if n > 0 { AcceptFirstFrames(x, ids, answers, n - 1); }
  }

  lemma {:induction false} AcceptedRowsFrames(rows: Rows, ids: seq<PositionId>, answers: Readings, n: nat)
    requires n <= |ids| && forall i, j :: 0 <= i < j < |ids| ==> ids[i] != ids[j]
    ensures AcceptedRows(rows, ids, answers, n).Keys == rows.Keys
    ensures forall i :: n <= i < |ids| && ids[i] in rows ==> AcceptedRows(rows, ids, answers, n)[ids[i]] == rows[ids[i]]
    ensures forall k :: k in rows && k !in ids ==> AcceptedRows(rows, ids, answers, n)[k] == rows[k]
    decreases n
  {
    if n > 0 { AcceptedRowsFrames(rows, ids, answers, n - 1); }
  }

  /** What a vintage accepts in the loop is what its rows accept. */
  lemma {:induction false} AcceptFirstSums(x: Index, rows: Rows, v: VintageId, ids: seq<PositionId>, answers: Readings, n: nat)
    requires x.positions.Keys == rows.Keys && Waiting(ids, rows, v) && n <= |ids|
    ensures AcceptedMore(rows, AcceptedRows(rows, ids, answers, n), v, AcceptedFirst(x, ids, answers, n))
    decreases n
  {
    hide AcceptedMore, AcceptedRow, RecordAcceptance, Waiting;
    if n == 0 {
      AcceptedNone(rows, v);
    } else {
      AcceptFirstSums(x, rows, v, ids, answers, n - 1);
      AcceptFirstFrames(x, ids, answers, n - 1);
      NthWaits(rows, v, ids, answers, n - 1);
      var rs, id := AcceptedRows(rows, ids, answers, n - 1), ids[n - 1];
      if id in answers {
        AcceptedMoreStep(rows, rs, v, AcceptedFirst(x, ids, answers, n - 1), id, answers[id].accepted);
      }
    }
  }

  lemma NthWaits(rows: Rows, v: VintageId, ids: seq<PositionId>, answers: Readings, n: nat)
    requires Waiting(ids, rows, v) && n < |ids|
    ensures var rs, id := AcceptedRows(rows, ids, answers, n), ids[n];
            id in rows && id in rs && rs[id].p.vintage == Some(v) && !rs[id].p.finalized
  {
    AcceptedRowsFrames(rows, ids, answers, n);
  }

  /** Accepting waiting entries one by one keeps the index in agreement. */
  lemma {:induction false} AcceptFirstKeeps(x: Index, rows: Rows, now: nat, v: VintageId, ids: seq<PositionId>,
                                            answers: Readings, n: nat)
    requires Core(x, rows, now) && Waiting(ids, rows, v) && Honest(rows, answers) && n <= |ids|
    ensures Core(AcceptFirst(x, ids, answers, n), AcceptedRows(rows, ids, answers, n), now)
    decreases n
  {
    hide Core;
    if n > 0 {
      AcceptFirstKeeps(x, rows, now, v, ids, answers, n - 1);
      AcceptedRowsFrames(rows, ids, answers, n - 1);
      AcceptOneKeeps(AcceptFirst(x, ids, answers, n - 1), rows, AcceptedRows(rows, ids, answers, n - 1), now, v,
                     ids, answers, n - 1);
    }
  }

  lemma AcceptOneKeeps(y: Index, rows: Rows, rs: Rows, now: nat, v: VintageId, ids: seq<PositionId>, answers: Readings,
                       n: nat)
    requires Core(y, rs, now) && n < |ids| && ids[n] in rows && ids[n] in rs && rs[ids[n]] == rows[ids[n]]
    requires !rows[ids[n]].p.finalized && !rows[ids[n]].p.claimed && Honest(rows, answers)
    ensures ids[n] in y.positions
            && (ids[n] in answers ==>
                  Core(RecordAcceptance(y, ids[n], answers[ids[n]].accepted),
                       rs[ids[n] := AcceptedRow(rs[ids[n]], answers[ids[n]].accepted)], now))
  {
    assert Kept(y, rs, ids[n]);
    if ids[n] in answers { AcceptanceKeeps(y, rs, now, ids[n], answers[ids[n]].accepted); }
  }

  /** The seed vintages and every other, as the last part of agreement. */
  ghost predicate Books(vintages: map<VintageId, Vintage>, rows: Rows) {
    VintagesOk(vintages, rows) && forall m :: VintageOf(vintages, (m, 0)).pending == []
  }

  function ClosedWith(was: Vintage, accepted: nat): Vintage {
    was.(accepted := was.accepted + accepted, rationed := SaturatingSub(was.offered, was.accepted + accepted),
         finalized := true, pending := [])
  }

  /** Closing a vintage whose waiting entries have been gone through keeps every vintage. */
  lemma ClosedBooks(vintages: map<VintageId, Vintage>, rows: Rows, rs: Rows, agents: Agents, now: nat, v: VintageId,
                    accepted: nat)
    requires Books(vintages, rows) && v in vintages && rs.Keys == rows.Keys
    requires AcceptedMore(rows, rs, v, accepted) && RowsOk(rs, agents, now)
    requires forall k :: k in rows && k !in vintages[v].pending ==> rs[k] == rows[k]
    ensures Books(vintages[v := ClosedWith(vintages[v], accepted)], rs)
  {
    var vs := vintages[v := ClosedWith(vintages[v], accepted)];
    assert VintageOk(VintageOf(vintages, v), rows, v);
    forall u ensures VintageOk(VintageOf(vs, u), rs, u) {
      assert VintageOk(VintageOf(vintages, u), rows, u);
      assert SumsMoved(rows, rs, u, v, accepted);
      if u == v { VintageCovered(rs, agents, now, v); } else { StillWaiting(vintages[v].pending, VintageOf(vintages, u).pending, rows, rs, v, u); }
    }
  }

  lemma StillWaiting(gone: seq<PositionId>, ids: seq<PositionId>, rows: Rows, rs: Rows, v: VintageId, u: VintageId)
    requires Waiting(gone, rows, v) && Waiting(ids, rows, u) && u != v && rs.Keys == rows.Keys
    requires forall k :: k in rows && k !in gone ==> rs[k] == rows[k]
    ensures Waiting(ids, rs, u)
  {
  }

  lemma VintageWaits(x: Index, rows: Rows, now: nat, v: VintageId)
    requires Core(x, rows, now) && Books(x.vintages, rows) && v in x.vintages
    ensures x.positions.Keys == rows.Keys && Waiting(x.vintages[v].pending, rows, v)
  {
    assert VintageOk(VintageOf(x.vintages, v), rows, v);
  }

  /** A vintage's finalization keeps the index in agreement. */
  lemma FinalizationKeeps(x: Index, rows: Rows, now: nat, m: MarketId, vintage: nat, answers: Readings)
    requires Core(x, rows, now) && Books(x.vintages, rows) && Honest(rows, answers)
    requires m in x.markets && (m, vintage) in x.vintages
    ensures var ids := x.vintages[(m, vintage)].pending;
            Agrees(HandleVintageFinalized(x, m, vintage, answers), AcceptedRows(rows, ids, answers, |ids|), now)
  {
    hide Core, Books, AcceptedMore, Honest, Agrees, AcceptFirst, AcceptedFirst, AcceptedRows, Waiting;
    var v := (m, vintage);
    var ids := x.vintages[v].pending;
    VintageWaits(x, rows, now, v);
    AcceptFirstKeeps(x, rows, now, v, ids, answers, |ids|);
    AcceptFirstFrames(x, ids, answers, |ids|);
    AcceptedRowsFrames(rows, ids, answers, |ids|);
    AcceptFirstSums(x, rows, v, ids, answers, |ids|);
    ClosedKeeps(x, AcceptFirst(x, ids, answers, |ids|), rows, AcceptedRows(rows, ids, answers, |ids|), now, m, v,
                AcceptedFirst(x, ids, answers, |ids|));
  }

  lemma ClosedKeeps(x: Index, y: Index, rows: Rows, rs: Rows, now: nat, m: MarketId, v: VintageId, accepted: nat)
    requires Books(x.vintages, rows) && v in x.vintages && Core(y, rs, now) && rs.Keys == rows.Keys
    requires y.vintages == x.vintages && AcceptedMore(rows, rs, v, accepted)
    requires forall k :: k in rows && k !in x.vintages[v].pending ==> rs[k] == rows[k]
    ensures Agrees(y.(vintages := y.vintages[v := ClosedWith(x.vintages[v], accepted)],
                      openVintage := y.openVintage - {m}), rs, now)
  {
    var z := y.(vintages := y.vintages[v := ClosedWith(x.vintages[v], accepted)], openVintage := y.openVintage - {m});
    ClosedBooks(x.vintages, rows, rs, y.agents, now, v, accepted);
    CoreIgnoresVintages(y, z, rs, now);
  }

  lemma CoreIgnoresVintages(x: Index, y: Index, rows: Rows, now: nat)
    requires Core(x, rows, now) && y == x.(vintages := y.vintages, openVintage := y.openVintage)
    ensures Core(y, rows, now)
  {
    hide RowsOk, MoneyOk, LinksOk, DaysOk;
    SameStored(x, y, rows);
  }

  // ------------------------------------------------------------------ events

  datatype Event =
    | Created(m: MarketId)
    | Entered(e: Entry, read: Option<Reading>)
    | Finalized(m: MarketId, vintage: nat, answers: Readings)
    | Claimed(id: PositionId, payout: nat, refund: nat, flag: Option<bool>)
    | Transferred(id: PositionId, to: Addr, tx: nat)

  /** The index, and beside it the plain record of what was entered, accepted, paid and moved. */
  datatype Venue = Venue(x: Index, rows: Rows, now: nat)

  const START := Venue(EMPTY, map[], 0)

  function Handle(x: Index, ev: Event): Index {
    match ev
    case Created(m) => WithMarket(x, m)
    case Entered(e, read) => HandleEntered(x, e, read)
    case Finalized(m, vintage, answers) => HandleVintageFinalized(x, m, vintage, answers)
    case Claimed(id, payout, refund, flag) => HandleClaimed(x, id, payout, refund, flag)
    case Transferred(id, to, tx) => HandlePositionTransferred(x, id, to, tx)
  }

  /** A new row; a seed leg that could be read is accepted already. */
  function FirstRow(e: Entry, read: Option<Reading>): Row {
    if e.vintage == 0 && read.Some? then
      var r := AcceptedRow(EnteredRow(e), read.value.accepted);
      r.(p := r.p.(refundWithdrawn := read.value.refundWithdrawn))
    else EnteredRow(e)
  }

  function Record(v: Venue, ev: Event): Rows {
    match ev
    case Created(m) => v.rows
    case Entered(e, read) => v.rows[e.id := FirstRow(e, read)]
    case Finalized(m, vintage, answers) =>
      var ids := VintageOf(v.x.vintages, (m, vintage)).pending;
      if m in v.x.markets then AcceptedRows(v.rows, ids, answers, |ids|) else v.rows
    case Claimed(id, payout, refund, flag) =>
      if id in v.rows then v.rows[id := SettledRow(v.rows[id], payout, refund, Settles(payout, refund, flag))] else v.rows
    case Transferred(id, to, tx) =>
      if id in v.rows then v.rows[id := TransferredRow(v.rows[id], to, tx)] else v.rows
  }

  function Clock(now: nat, ev: Event): nat {
    match ev
    case Entered(e, _) => e.tx
    case Transferred(_, _, tx) => tx
    case _ => now
  }

  function Next(v: Venue, ev: Event): Venue {
    Venue(Handle(v.x, ev), Record(v, ev), Clock(v.now, ev))
  }

  predicate IsWaiting(x: Index, id: PositionId) {
    exists v | v in x.vintages :: id in x.vintages[v].pending
  }

  /** What the settler and the chain guarantee of the next event: ids are fresh, transactions come
      in order, a finalized vintage takes no entry, no more is accepted than was offered, and a
      position waiting for its vintage is not claimed. */
  ghost predicate CanHappen(v: Venue, ev: Event) {
    match ev
    case Created(m) => true
    case Entered(e, read) =>
      && e.id !in v.x.positions && v.now <= e.tx
      && (e.vintage != 0 ==> !VintageOf(v.x.vintages, (e.market, e.vintage)).finalized)
      && (read.Some? ==> read.value.accepted <= e.offered)
    case Finalized(m, vintage, answers) =>
      forall id :: id in answers && id in v.x.positions ==> answers[id].accepted <= v.x.positions[id].offered
    case Claimed(id, payout, refund, flag) => !IsWaiting(v.x, id)
    case Transferred(id, to, tx) => v.now <= tx
  }

  ghost predicate CanRun(v: Venue, es: seq<Event>)
    decreases |es|
  {
    es == [] || (CanHappen(v, es[0]) && CanRun(Next(v, es[0]), es[1..]))
  }

  function RunFrom(v: Venue, es: seq<Event>): Venue
    decreases |es|
  {
    if es == [] then v else RunFrom(Next(v, es[0]), es[1..])
  }

  // ------------------------------------------------------------------ every event keeps agreement

  lemma OpenedCounters(x: Index, rows: Rows, m: MarketId)
    requires Counters(x, rows)
    ensures Counters(WithMarket(x, m), rows)
  {
    hide Sum;
  }

  lemma MarketKeeps(x: Index, rows: Rows, now: nat, m: MarketId)
    requires Core(x, rows, now)
    ensures Core(WithMarket(x, m), rows, now)
  {
    hide RowsOk, MoneyOk, LinksOk, DaysOk, Stored, Counters, WithMarket;
    MarketIs(x, m);
    SameStored(x, WithMarket(x, m), rows);
    OpenedCounters(x, rows, m);
  }

  lemma BufferedBooks(vintages: map<VintageId, Vintage>, rows: Rows, e: Entry)
    requires Books(vintages, rows) && e.id !in rows && e.vintage != 0
    requires !VintageOf(vintages, (e.market, e.vintage)).finalized
    ensures var v := (e.market, e.vintage);
            var more := Grown(VintageOf(vintages, v), e.offered);
            Books(vintages[v := more.(pending := more.pending + [e.id])], rows[e.id := EnteredRow(e)])
  {
    var v := (e.market, e.vintage);
    var more := Grown(VintageOf(vintages, v), e.offered);
    EntryVintage(vintages, rows, e.id, EnteredRow(e), v, more.(pending := more.pending + [e.id]));
  }

  lemma SeededBooks(vintages: map<VintageId, Vintage>, rows: Rows, agents: Agents, now: nat, e: Entry, read: Option<Reading>)
    requires Books(vintages, rows) && RowsOk(rows, agents, now) && e.id !in rows && e.vintage == 0
    requires read.Some? ==> read.value.accepted <= e.offered
    ensures var v := (e.market, 0);
            Books(vintages[v := Closed(Grown(VintageOf(vintages, v), e.offered), if read.Some? then read.value.accepted else 0)],
                  rows[e.id := FirstRow(e, read)])
  {
    var v := (e.market, 0);
    var x := Closed(Grown(VintageOf(vintages, v), e.offered), if read.Some? then read.value.accepted else 0);
    assert VintageOk(VintageOf(vintages, v), rows, v);
    VintageCovered(rows, agents, now, v);
    DirectVintage(vintages, rows, e.id, FirstRow(e, read), v, x);
  }

  /** A position's withdrawn-refund flag is not part of any total. */
  lemma FlagKeeps(x: Index, rows: Rows, now: nat, id: PositionId, flag: bool)
    requires Core(x, rows, now) && id in rows
    ensures id in x.positions
            && Core(x.(positions := x.positions[id := x.positions[id].(refundWithdrawn := flag)]),
                    rows[id := rows[id].(p := rows[id].p.(refundWithdrawn := flag))], now)
  {
    var r := rows[id].(p := rows[id].p.(refundWithdrawn := flag));
    KnownRow(x, rows, now, id);
    var y := x.(positions := x.positions[id := r.p]);
    var o := r.p.owner;
    assert x.agents[o := x.agents[o]] == x.agents;
    SettlementAgents(x.agents, x.links, rows, now, id, r, x.agents[o]);
    KeepDays(x.days, x.dayAgents, rows, id, r);
    FlagStored(x, y, rows, id, r);
  }

  lemma FlagStored(x: Index, y: Index, rows: Rows, id: PositionId, r: Row)
    requires Stored(x, rows) && Counters(x, rows) && id in rows
    requires r.p == rows[id].p.(refundWithdrawn := r.p.refundWithdrawn) && y == x.(positions := x.positions[id := r.p])
    ensures Stored(y, rows[id := r]) && Counters(y, rows[id := r])
  {
    assert Kept(x, rows, id);
    StoredPut(x, y, rows, id, r);
    CountersKeep(x, y, rows, id, r);
  }

  lemma SeededKeeps(x: Index, rows: Rows, now: nat, e: Entry, read: Reading)
    requires Core(x, rows, now) && e.id !in rows && now <= e.tx && read.accepted <= e.offered && e.vintage == 0
    ensures e.id in Filed(x, e).positions
            && Core(Seeded(Filed(x, e), e.id, read), rows[e.id := FirstRow(e, Some(read))], e.tx)
  {
    hide Core, Filed, RecordAcceptance;
    var y, rs := Filed(x, e), rows[e.id := EnteredRow(e)];
    EntryKeeps(x, rows, now, e);
    AcceptanceKeeps(y, rs, e.tx, e.id, read.accepted);
    var r := AcceptedRow(EnteredRow(e), read.accepted);
    FlagKeeps(RecordAcceptance(y, e.id, read.accepted), rs[e.id := r], e.tx, e.id, read.refundWithdrawn);
    assert rs[e.id := r][e.id := FirstRow(e, Some(read))] == rows[e.id := FirstRow(e, Some(read))];
  }

  lemma EnteredKeeps(x: Index, rows: Rows, now: nat, e: Entry, read: Option<Reading>)
    requires Agrees(x, rows, now) && e.id !in rows && now <= e.tx && (read.Some? ==> read.value.accepted <= e.offered)
    requires e.vintage != 0 ==> !VintageOf(x.vintages, (e.market, e.vintage)).finalized
    ensures Agrees(HandleEntered(x, e, read), rows[e.id := FirstRow(e, read)], e.tx)
  {
    hide Core, Books, Filed, Seeded;
    var f, y := Filed(x, e), HandleEntered(x, e, read);
    FiledVintages(x, e);
    if e.vintage != 0 {
      EntryKeeps(x, rows, now, e);
      BufferedBooks(x.vintages, rows, e);
      CoreIgnoresVintages(f, y, rows[e.id := FirstRow(e, read)], e.tx);
    } else {
      RowsAre(x, rows, now);
      SeededBooks(x.vintages, rows, x.agents, now, e, read);
      if read.Some? {
        SeededKeeps(x, rows, now, e, read.value);
        SeededVintages(f, e.id, read.value);
        CoreIgnoresVintages(Seeded(f, e.id, read.value), y, rows[e.id := FirstRow(e, read)], e.tx);
      } else {
        EntryKeeps(x, rows, now, e);
        CoreIgnoresVintages(f, y, rows[e.id := FirstRow(e, read)], e.tx);
      }
    }
  }

  lemma FiledVintages(x: Index, e: Entry)
    ensures Filed(x, e).vintages == x.vintages && e.id in Filed(x, e).positions
  {
    FiledFields(x, e);
  }

  lemma SeededVintages(x: Index, id: PositionId, r: Reading)
    requires id in x.positions
    ensures Seeded(x, id, r).vintages == x.vintages
  {
  }

  lemma RowsAre(x: Index, rows: Rows, now: nat)
    requires Core(x, rows, now)
    ensures RowsOk(rows, x.agents, now) && x.positions.Keys == rows.Keys
    ensures forall id :: id in rows ==> rows[id].p == x.positions[id] && rows[id].p.market in x.markets
  {
    forall id | id in rows ensures rows[id].p == x.positions[id] && rows[id].p.market in x.markets {
      assert Kept(x, rows, id);
    }
  }

  lemma ClaimKeeps(x: Index, rows: Rows, now: nat, id: PositionId, payout: nat, refund: nat, settled: bool)
    requires Agrees(x, rows, now) && id in rows && !IsWaiting(x, id)
    ensures id in x.positions
            && Agrees(RecordSettlement(x, id, payout, refund, settled),
                      rows[id := SettledRow(rows[id], payout, refund, settled)], now)
  {
    hide Core;
    SettlementKeeps(x, rows, now, id, payout, refund, settled);
    KeepVintages(x.vintages, rows, id, SettledRow(rows[id], payout, refund, settled));
  }

  lemma MoveKeeps(x: Index, rows: Rows, now: nat, id: PositionId, to: Addr, tx: nat)
    requires Agrees(x, rows, now) && id in rows && now <= tx
    ensures id in x.positions
            && Agrees(RecordTransfer(x, id, to, tx), rows[id := TransferredRow(rows[id], to, tx)], tx)
  {
    hide Core;
    TransferKeeps(x, rows, now, id, to, tx);
    KeepVintages(x.vintages, rows, id, TransferredRow(rows[id], to, tx));
  }

  /** One event keeps the index in agreement. */
  lemma EventKeeps(v: Venue, ev: Event)
    requires Agrees(v.x, v.rows, v.now) && CanHappen(v, ev)
    ensures var n := Next(v, ev); Agrees(n.x, n.rows, n.now)
  {
    hide Core, Books, HandleEntered, HandleVintageFinalized, RecordSettlement, RecordTransfer;
    RowsAre(v.x, v.rows, v.now);
    match ev
    case Created(m) => MarketKeeps(v.x, v.rows, v.now, m);
    case Entered(e, read) => EnteredKeeps(v.x, v.rows, v.now, e, read);
    case Finalized(m, vintage, answers) =>
      if m in v.x.markets && (m, vintage) in v.x.vintages {
        FinalizationKeeps(v.x, v.rows, v.now, m, vintage, answers);
      } else {
        NoVintage(v.x, m, vintage, answers);
      }
    case Claimed(id, payout, refund, flag) =>
      if id in v.rows { ClaimKeeps(v.x, v.rows, v.now, id, payout, refund, Settles(payout, refund, flag)); }
    case Transferred(id, to, tx) =>
      if id in v.rows { MoveKeeps(v.x, v.rows, v.now, id, to, tx); } else { AgreesLater(v.x, v.rows, v.now, tx); }
  }

  lemma NoVintage(x: Index, m: MarketId, vintage: nat, answers: Readings)
    requires m !in x.markets || (m, vintage) !in x.vintages
    ensures HandleVintageFinalized(x, m, vintage, answers) == x
  {
  }

  lemma AgreesLater(x: Index, rows: Rows, now: nat, later: nat)
    requires Agrees(x, rows, now) && now <= later
    ensures Agrees(x, rows, later)
  {
    LaterOk(rows, x.agents, now, later);
  }

  /** Every run of events that can happen leaves the index in agreement. */
  lemma {:induction false} RunAgrees(v: Venue, es: seq<Event>)
    requires Agrees(v.x, v.rows, v.now) && CanRun(v, es)
    ensures var n := RunFrom(v, es); Agrees(n.x, n.rows, n.now)
    decreases |es|
  {
    hide Agrees, CanHappen, Next;
    if es != [] {
      EventKeeps(v, es[0]);
      RunAgrees(Next(v, es[0]), es[1..]);
    }
  }
}
