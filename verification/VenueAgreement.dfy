/** The venue index: entities loaded, changed and saved one event at a time, kept in agreement
    with the recomputation of VenueLedger. The ghost rows remember, for each position, the
    wallets its offer and its acceptance are credited to. */
module VenueAgreement {
  import opened Numbers
  import opened Tallies
  import opened VenueLedger

  // ------------------------------------------------------------------ each sub-ledger across one event

  /** What wallets are credited with agrees with the rows. */
  ghost predicate MoneyOk(agents: Agents, rows: Rows) {
    MoneyAgrees(agents, rows) && Conserved(agents, rows) && NothingOwed(agents)
  }

  /** Links and market counts agree with who holds the rows. */
  ghost predicate LinksOk(agents: Agents, links: map<Holding, nat>, rows: Rows) {
    MarketsAgree(agents, links) && Counts(links, rows, HOLDING)
  }

  /** Day buckets and their wallets agree with the rows. */
  ghost predicate DaysOk(days: map<Bucket, DayStat>, dayAgents: map<Credit, nat>, rows: Rows) {
    StatsAgree(days, rows) && UniqueAgree(days, dayAgents) && Counts(dayAgents, rows, CREDIT)
  }

  /** Time passing only closes the transaction in which hand-overs rewrite. */
  lemma LaterOk(rows: Rows, agents: Agents, now: nat, later: nat)
    requires RowsOk(rows, agents, now) && now <= later
    ensures RowsOk(rows, agents, later)
  {
    forall id | id in rows ensures RowOk(rows[id], agents, later) { assert RowOk(rows[id], agents, now); }
  }

  lemma RowsPut(rows: Rows, agents: Agents, e: Agents, now: nat, id: PositionId, r: Row)
    requires RowsOk(rows, agents, now) && RowOk(r, e, now)
    requires forall a :: a in agents ==> a in e
    ensures RowsOk(rows[id := r], e, now)
  {
    var rs := rows[id := r];
    forall k | k in rs ensures RowOk(rs[k], e, now) {
      if k != id { assert RowOk(rows[k], agents, now); }
    }
  }

  // ------------------------------------------------------------------ links

  function Linked(links: map<Holding, nat>, agents: Agents, h: Holding): Agents
    requires h.0 in agents
  {
    AddMarkets(agents, h.0, if h in links then 0 else 1)
  }

  function Unlinked(links: map<Holding, nat>, agents: Agents, h: Holding): Agents
    requires h.0 in agents
  {
    AddMarkets(agents, h.0, if h in links && h !in Decr(links, h) then -1 else 0)
  }

  lemma LinkedMoney(links: map<Holding, nat>, agents: Agents, h: Holding, rows: Rows)
    requires h.0 in agents && MoneyOk(agents, rows)
    ensures MoneyOk(Linked(links, agents, h), rows) && MoneyOk(Unlinked(links, agents, h), rows)
  {
    SameMoneyAgrees(agents, Linked(links, agents, h), rows);
    SameMoneyAgrees(agents, Unlinked(links, agents, h), rows);
  }

  lemma EntryLinks(agents: Agents, links: map<Holding, nat>, rows: Rows, id: PositionId, r: Row)
    requires LinksOk(agents, links, rows) && id !in rows && r.p.owner in agents
    ensures LinksOk(Linked(links, agents, HOLDING(r)), Incr(links, HOLDING(r)), rows[id := r])
  {
    AttachedMarkets(agents, links, r.p.owner, r.p.market);
    CountsAdd(links, rows, HOLDING, id, r);
  }

  /** A position that changes hands takes its link with it, exactly. */
  lemma TransferLinks(agents: Agents, links: map<Holding, nat>, rows: Rows, id: PositionId, r: Row)
    requires LinksOk(agents, links, rows) && id in rows && rows[id].p.owner in agents && r.p.owner in agents
    requires rows[id].p.owner != r.p.owner && rows[id].p.market == r.p.market
    ensures var from, to, more := HOLDING(rows[id]), HOLDING(r), Incr(links, HOLDING(r));
            var up := Linked(links, agents, to);
            && from in more && (from !in Decr(more, from) ==> up[from.0].marketsEntered >= 1)
            && LinksOk(Unlinked(more, up, from), Decr(more, from), rows[id := r])
  {
    var from, to, more := HOLDING(rows[id]), HOLDING(r), Incr(links, HOLDING(r));
    var up := Linked(links, agents, to);
    CountsHas(links, rows, HOLDING, id);
    AttachedMarkets(agents, links, to.0, to.1);
    DetachedMarkets(up, more, from.0, from.1);
    CountsMove(links, rows, HOLDING, id, r);
  }

  // ------------------------------------------------------------------ days

  /** A bucket with one more entry. */
  function DayEntered(days: map<Bucket, DayStat>, r: Row): map<Bucket, DayStat> {
    var was := StatOf(days, BucketOf(r));
    days[BucketOf(r) := was.(offered := was.offered + r.p.offered, entries := was.entries + 1)]
  }

  /** A bucket with one more wallet, if it is new there. */
  function DayCounted(days: map<Bucket, DayStat>, dayAgents: map<Credit, nat>, k: Credit): map<Bucket, DayStat> {
    AddUnique(days, (k.0, k.1), if k in dayAgents then 0 else 1)
  }

  function DayUncounted(days: map<Bucket, DayStat>, dayAgents: map<Credit, nat>, k: Credit): map<Bucket, DayStat> {
    AddUnique(days, (k.0, k.1), if k in dayAgents && k !in Decr(dayAgents, k) then -1 else 0)
  }

  lemma SameUnique(days: map<Bucket, DayStat>, days': map<Bucket, DayStat>, dayAgents: map<Credit, nat>)
    requires UniqueAgree(days, dayAgents)
    requires forall b :: StatOf(days', b).uniqueAgents == StatOf(days, b).uniqueAgents
    ensures UniqueAgree(days', dayAgents)
  {
  }

  lemma EntryDays(days: map<Bucket, DayStat>, dayAgents: map<Credit, nat>, rows: Rows, id: PositionId, r: Row)
    requires DaysOk(days, dayAgents, rows) && id !in rows && !r.p.finalized
    ensures DaysOk(DayCounted(DayEntered(days, r), dayAgents, CREDIT(r)), Incr(dayAgents, CREDIT(r)), rows[id := r])
  {
    var days' := DayEntered(days, r);
    StatsEntry(days, rows, id, r, days'[BucketOf(r)]);
    SameUnique(days, days', dayAgents);
    CountedUnique(days', dayAgents, CREDIT(r));
    SameAmountsAgree(days', DayCounted(days', dayAgents, CREDIT(r)), rows[id := r]);
    CountsAdd(dayAgents, rows, CREDIT, id, r);
  }

  function DayAccepted(days: map<Bucket, DayStat>, r: Row): map<Bucket, DayStat> {
    var was := StatOf(days, BucketOf(r));
    days[BucketOf(r) := was.(accepted := was.accepted + r.p.accepted, rationed := was.rationed + r.p.refused)]
  }

  lemma AcceptanceDays(days: map<Bucket, DayStat>, dayAgents: map<Credit, nat>, rows: Rows, id: PositionId, r: Row)
    requires DaysOk(days, dayAgents, rows) && id in rows && !rows[id].p.finalized && r.p.finalized
    requires r.staker == rows[id].staker
    requires r.p == rows[id].p.(finalized := true, accepted := r.p.accepted, refused := r.p.refused)
    ensures DaysOk(DayAccepted(days, r), dayAgents, rows[id := r])
  {
    StatsAcceptance(days, rows, id, r, DayAccepted(days, r)[BucketOf(r)]);
    SameUnique(days, DayAccepted(days, r), dayAgents);
    CountsKeep(dayAgents, rows, CREDIT, id, r);
  }

  /** A row that keeps its market, day, amounts and staker keeps its bucket. */
  lemma KeepDays(days: map<Bucket, DayStat>, dayAgents: map<Credit, nat>, rows: Rows, id: PositionId, r: Row)
    requires DaysOk(days, dayAgents, rows) && id in rows && r.staker == rows[id].staker
    requires r.p == rows[id].p.(owner := r.p.owner, payout := r.p.payout, claimed := r.p.claimed,
                                refundWithdrawn := r.p.refundWithdrawn)
    ensures DaysOk(days, dayAgents, rows[id := r])
  {
    StatsKeep(days, rows, id, r);
    CountsKeep(dayAgents, rows, CREDIT, id, r);
  }

  /** A hand-over moves the wallet credited in the bucket of the entry, exactly. */
  lemma HandOverDays(days: map<Bucket, DayStat>, dayAgents: map<Credit, nat>, rows: Rows, id: PositionId, r: Row)
    requires DaysOk(days, dayAgents, rows) && id in rows && r.staker != rows[id].staker
    requires r.p == rows[id].p.(owner := r.p.owner)
    ensures var from, to := CREDIT(rows[id]), CREDIT(r);
            var less := DayUncounted(days, dayAgents, from);
            && from in dayAgents
            && (from !in Decr(dayAgents, from) ==> StatOf(days, (from.0, from.1)).uniqueAgents >= 1)
            && DaysOk(DayCounted(less, Decr(dayAgents, from), to), Incr(Decr(dayAgents, from), to), rows[id := r])
  {
    var from, to := CREDIT(rows[id]), CREDIT(r);
    var less := DayUncounted(days, dayAgents, from);
    CountsHas(dayAgents, rows, CREDIT, id);
    UncountedUnique(days, dayAgents, from);
    CountedUnique(less, Decr(dayAgents, from), to);
    StatsKeep(days, rows, id, r);
    SameAmountsAgree(days, less, rows[id := r]);
    SameAmountsAgree(less, DayCounted(less, Decr(dayAgents, from), to), rows[id := r]);
    CountsMove(dayAgents, rows, CREDIT, id, r);
  }

  // ------------------------------------------------------------------ agents across one event

  lemma EnsuredOk(agents: Agents, links: map<Holding, nat>, rows: Rows, now: nat, a: Addr)
    requires MoneyOk(agents, rows) && LinksOk(agents, links, rows) && RowsOk(rows, agents, now)
    ensures var e := Ensured(agents, a); MoneyOk(e, rows) && LinksOk(e, links, rows) && RowsOk(rows, e, now)
  {
    EnsuredKeeps(agents, rows, links, now, a);
  }

  lemma EntryAgents(agents: Agents, links: map<Holding, nat>, rows: Rows, was: nat, now: nat, id: PositionId, r: Row)
    requires MoneyOk(agents, rows) && LinksOk(agents, links, rows) && RowsOk(rows, agents, was) && was <= now
    requires id !in rows && r.staker == r.acceptor == r.p.owner && r.p.createdTx == now && r.p.offered >= 0
    requires !r.p.finalized && r.p.accepted == 0 && r.p.payout == 0 && !r.p.claimed
    ensures var o, e := r.p.owner, Ensured(agents, r.p.owner);
            var paid := AddOffered(e, o, r.p.offered);
            var all := Linked(links, paid, HOLDING(r));
            MoneyOk(all, rows[id := r]) && LinksOk(all, Incr(links, HOLDING(r)), rows[id := r])
            && RowsOk(rows[id := r], all, now)
  {
    var o, e := r.p.owner, Ensured(agents, r.p.owner);
    var paid := AddOffered(e, o, r.p.offered);
    EnsuredOk(agents, links, rows, was, o);
    LaterOk(rows, e, was, now);
    EntryMoney(e, rows, id, r);
    MoneyKeepsMarkets(e, paid, links);
    LinkedMoney(links, paid, HOLDING(r), rows[id := r]);
    EntryLinks(paid, links, rows, id, r);
    RowsPut(rows, e, Linked(links, paid, HOLDING(r)), now, id, r);
  }

  lemma AcceptanceAgents(agents: Agents, links: map<Holding, nat>, rows: Rows, now: nat, id: PositionId, r: Row)
    requires MoneyOk(agents, rows) && LinksOk(agents, links, rows) && RowsOk(rows, agents, now)
    requires id in rows && !rows[id].p.finalized && !rows[id].p.claimed
    requires r.p.finalized && r.staker == rows[id].staker && r.acceptor == rows[id].p.owner && RowOk(r, agents, now)
    requires r.p == rows[id].p.(finalized := true, accepted := r.p.accepted, refused := r.p.refused)
    ensures var e := AddAccepted(agents, r.p.owner, r.p.accepted);
            MoneyOk(e, rows[id := r]) && LinksOk(e, links, rows[id := r]) && RowsOk(rows[id := r], e, now)
  {
    var e := AddAccepted(agents, r.p.owner, r.p.accepted);
    AcceptanceMoney(agents, rows, id, r);
    MoneyKeepsMarkets(agents, e, links);
    CountsKeep(links, rows, HOLDING, id, r);
    RowsPut(rows, agents, e, now, id, r);
  }

  /** The market counts after one link is made and another given up. */
  function Relinked(links: map<Holding, nat>, agents: Agents, from: Holding, to: Holding): Agents
    requires from.0 in agents && to.0 in agents
  {
    Unlinked(Incr(links, to), Linked(links, agents, to), from)
  }

  lemma MovedMoney(agents: Agents, links: map<Holding, nat>, from: Holding, to: Holding, rows: Rows)
    requires from.0 in agents && to.0 in agents && MoneyOk(agents, rows)
    ensures MoneyOk(Relinked(links, agents, from, to), rows)
  {
    LinkedMoney(links, agents, to, rows);
    LinkedMoney(Incr(links, to), Linked(links, agents, to), from, rows);
  }

  /** The sender's totals cover what a hand-over takes off them. */
  lemma HandOverCovered(agents: Agents, moved: Agents, links: map<Holding, nat>, from: Holding, to: Holding,
                        rows: Rows, now: nat, id: PositionId)
    requires MoneyOk(agents, rows) && RowsOk(rows, agents, now) && id in rows && rows[id].p.createdTx == now
    requires from.0 == rows[id].p.owner && from.0 in agents && to.0 in agents && moved == Relinked(links, agents, from, to)
    ensures rows[id].p.offered <= moved[from.0].totalOffered && rows[id].p.accepted <= moved[from.0].totalAccepted
  {
    assert RowOk(rows[id], agents, now);
    CreditCovers(agents, rows, now, id);
    TotalsNonNegative(agents, rows, now, from.0);
  }

  lemma HandOverWallets(agents: Agents, moved: Agents, e: Agents, links: map<Holding, nat>,
                        rows: Rows, id: PositionId, r: Row, from: Addr, to: Addr)
    requires MoneyOk(agents, rows) && id in rows && (rows[id].p.finalized || rows[id].p.accepted == 0)
    requires rows[id].staker == from && (rows[id].p.finalized ==> rows[id].acceptor == from)
    requires from in agents && to in agents && from != to && r == Row(rows[id].p.(owner := to), to, to)
    requires moved == Relinked(links, agents, (from, r.p.market), (to, r.p.market))
    requires e == Rewritten(moved, from, to, r.p.offered, r.p.accepted)
    ensures MoneyOk(e, rows[id := r])
  {
    MovedMoney(agents, links, (from, r.p.market), (to, r.p.market), rows);
    HandOverMoney(moved, rows, id, r, from, to);
  }

  lemma HandOverAgents(agents: Agents, moved: Agents, e: Agents, links: map<Holding, nat>, links': map<Holding, nat>,
                       rows: Rows, now: nat, id: PositionId, r: Row, from: Addr, to: Addr)
    requires MoneyOk(agents, rows) && RowsOk(rows, agents, now) && id in rows && rows[id].p.createdTx == now
    requires from == rows[id].p.owner && from in agents && to in agents && from != to
    requires r == Row(rows[id].p.(owner := to), to, to)
    requires moved == Relinked(links, agents, (from, r.p.market), (to, r.p.market))
    requires LinksOk(moved, links', rows[id := r]) && e == Rewritten(moved, from, to, r.p.offered, r.p.accepted)
    ensures MoneyOk(e, rows[id := r]) && LinksOk(e, links', rows[id := r]) && RowsOk(rows[id := r], e, now)
  {
    assert RowOk(rows[id], agents, now);
    HandOverWallets(agents, moved, e, links, rows, id, r, from, to);
    MoneyKeepsMarkets(moved, e, links');
    RowsPut(rows, agents, e, now, id, r);
  }

  lemma SettlementAgents(agents: Agents, links: map<Holding, nat>, rows: Rows, now: nat, id: PositionId, r: Row, a: Agent)
    requires MoneyOk(agents, rows) && LinksOk(agents, links, rows) && RowsOk(rows, agents, now)
    requires id in rows && rows[id].p.owner in agents && r == rows[id].(p := r.p) && r.p.payout >= rows[id].p.payout
    requires r.p == rows[id].p.(payout := r.p.payout, claimed := r.p.claimed, refundWithdrawn := r.p.refundWithdrawn)
    requires var was := agents[rows[id].p.owner];
             a == was.(totalClaimed := was.totalClaimed + (r.p.payout - rows[id].p.payout),
                       realizedPnl := was.realizedPnl + (REALIZED(r) - REALIZED(rows[id])))
    ensures var e := agents[rows[id].p.owner := a];
            MoneyOk(e, rows[id := r]) && LinksOk(e, links, rows[id := r]) && RowsOk(rows[id := r], e, now)
  {
    var e := agents[rows[id].p.owner := a];
    assert RowOk(rows[id], agents, now);
    SettlementMoney(agents, rows, id, r, a);
    MoneyKeepsMarkets(agents, e, links);
    CountsKeep(links, rows, HOLDING, id, r);
    RowsPut(rows, agents, e, now, id, r);
  }

  // ------------------------------------------------------------------ vintages

  function OfferedInVintage(v: VintageId): Row -> int {
    (r: Row) => if r.p.vintage == Some(v) then r.p.offered else 0
  }

  function AcceptedInVintage(v: VintageId): Row -> int {
    (r: Row) => if r.p.vintage == Some(v) && r.p.finalized then r.p.accepted else 0
  }

  function EntriesInVintage(v: VintageId): Row -> int {
    (r: Row) => if r.p.vintage == Some(v) then 1 else 0
  }

  function VintageOf(vintages: map<VintageId, Vintage>, v: VintageId): Vintage {
    if v in vintages then vintages[v] else NEW_VINTAGE
  }

  /** The ids wait, each once, for an acceptance not known yet. */
  ghost predicate Waiting(pending: seq<PositionId>, rows: Rows, v: VintageId) {
    && (forall i, j :: 0 <= i < j < |pending| ==> pending[i] != pending[j])
    && (forall i :: 0 <= i < |pending| ==>
          pending[i] in rows && rows[pending[i]].p.vintage == Some(v)
          && !rows[pending[i]].p.finalized && !rows[pending[i]].p.claimed)
  }

  /** A vintage's totals are the recomputation over its rows; once finalized, what it did not
      accept it rationed, and nothing waits. */
  ghost predicate VintageOk(x: Vintage, rows: Rows, v: VintageId) {
    && x.offered == Sum(rows, OfferedInVintage(v)) && x.accepted == Sum(rows, AcceptedInVintage(v))
    && x.entryCount == Sum(rows, EntriesInVintage(v))
    && (x.finalized ==> x.rationed == x.offered - x.accepted && x.pending == [])
    && Waiting(x.pending, rows, v)
  }

  ghost predicate VintagesOk(vintages: map<VintageId, Vintage>, rows: Rows) {
    forall v :: VintageOk(VintageOf(vintages, v), rows, v)
  }

  lemma {:induction false} VintageSums(rows: Rows, id: PositionId, r: Row, v: VintageId)
    ensures var rs, there := rows[id := r], id in rows;
            && Sum(rs, OfferedInVintage(v)) ==
               Sum(rows, OfferedInVintage(v)) - (if there then OfferedInVintage(v)(rows[id]) else 0) + OfferedInVintage(v)(r)
            && Sum(rs, AcceptedInVintage(v)) ==
               Sum(rows, AcceptedInVintage(v)) - (if there then AcceptedInVintage(v)(rows[id]) else 0) + AcceptedInVintage(v)(r)
            && Sum(rs, EntriesInVintage(v)) ==
               Sum(rows, EntriesInVintage(v)) - (if there then EntriesInVintage(v)(rows[id]) else 0) + EntriesInVintage(v)(r)
  {
    SumPut(rows, OfferedInVintage(v), id, r);
    SumPut(rows, AcceptedInVintage(v), id, r);
    SumPut(rows, EntriesInVintage(v), id, r);
  }

  /** A row that keeps its stake keeps every vintage, if it is not waiting or stays unclaimed. */
  lemma KeepVintages(vintages: map<VintageId, Vintage>, rows: Rows, id: PositionId, r: Row)
    requires VintagesOk(vintages, rows) && id in rows
    requires r.p == rows[id].p.(owner := r.p.owner, payout := r.p.payout, claimed := r.p.claimed,
                                refundWithdrawn := r.p.refundWithdrawn)
    requires r.p.claimed == rows[id].p.claimed || forall v :: id !in VintageOf(vintages, v).pending
    ensures VintagesOk(vintages, rows[id := r])
  {
    forall v ensures VintageOk(VintageOf(vintages, v), rows[id := r], v) {
      assert VintageOk(VintageOf(vintages, v), rows, v);
      VintageSums(rows, id, r, v);
    }
  }

  /** A vintage takes one more waiting entry. */
  lemma EntryVintage(vintages: map<VintageId, Vintage>, rows: Rows, id: PositionId, r: Row, v: VintageId, x: Vintage)
    requires VintagesOk(vintages, rows) && id !in rows && r.p.vintage == Some(v) && !r.p.finalized && !r.p.claimed
    requires var was := VintageOf(vintages, v);
             && !was.finalized
             && x == was.(offered := was.offered + r.p.offered, entryCount := was.entryCount + 1,
                          pending := was.pending + [id])
    ensures VintagesOk(vintages[v := x], rows[id := r])
  {
    var vs := vintages[v := x];
    forall u ensures VintageOk(VintageOf(vs, u), rows[id := r], u) {
      assert VintageOk(VintageOf(vintages, u), rows, u);
      VintageSums(rows, id, r, u);
    }
  }

  /** Rows that no vintage waits for may be accepted or added as long as the totals follow. */
  lemma DirectVintage(vintages: map<VintageId, Vintage>, rows: Rows, id: PositionId, r: Row, v: VintageId, x: Vintage)
    requires VintagesOk(vintages, rows) && id !in rows && r.p.vintage == Some(v)
    requires var was := VintageOf(vintages, v);
             && was.pending == [] && x.pending == []
             && x.offered == was.offered + r.p.offered && x.entryCount == was.entryCount + 1
             && x.accepted == was.accepted + (if r.p.finalized then r.p.accepted else 0)
             && x.rationed == x.offered - x.accepted
    ensures VintagesOk(vintages[v := x], rows[id := r])
  {
    var vs := vintages[v := x];
    forall u ensures VintageOk(VintageOf(vs, u), rows[id := r], u) {
      assert VintageOk(VintageOf(vintages, u), rows, u);
      VintageSums(rows, id, r, u);
    }
  }

  /** A vintage never accepts more than it was offered. */
  lemma {:induction false} VintageCovered(rows: Rows, agents: Agents, now: nat, v: VintageId)
    requires RowsOk(rows, agents, now)
    ensures 0 <= Sum(rows, AcceptedInVintage(v)) <= Sum(rows, OfferedInVintage(v))
  {
    var refused := (r: Row) => OfferedInVintage(v)(r) - AcceptedInVintage(v)(r);
    forall id | id in rows ensures AcceptedInVintage(v)(rows[id]) >= 0 && refused(rows[id]) >= 0 {
      assert RowOk(rows[id], agents, now);
    }
    SumSplit(rows, OfferedInVintage(v), AcceptedInVintage(v), refused);
    SumNonNegative(rows, AcceptedInVintage(v));
    SumNonNegative(rows, refused);
  }

  // ------------------------------------------------------------------ what one event does to a row

  /** A position whose acceptance has become known while its owner holds it. */
  function AcceptedRow(r: Row, accepted: int): Row {
    Row(r.p.(accepted := accepted, refused := SaturatingSub(r.p.offered, accepted), finalized := true),
        r.staker, r.p.owner)
  }

  /** A position after a transfer in transaction tx: its credit goes along only when that is the
      transaction it was opened in. */
  function TransferredRow(r: Row, to: Addr, tx: nat): Row {
    if r.p.owner == to then r
    else if r.p.createdTx == tx then Row(r.p.(owner := to), to, to)
    else Row(r.p.(owner := to), r.staker, r.acceptor)
  }

  function SettledRow(r: Row, payout: int, refund: int, settled: bool): Row {
    r.(p := r.p.(payout := r.p.payout + payout, claimed := r.p.claimed || settled,
                 refundWithdrawn := r.p.refundWithdrawn || refund > 0))
  }
}
