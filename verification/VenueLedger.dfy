/** What the venue index must agree with: the recomputation of every total and count from the
    positions. Facts about values; the class that keeps them up to date is VenueIndex. */
module VenueLedger {
  import opened Numbers
  import opened Tallies

  type Addr = string
  type MarketId = string
  type PositionId = string
  type Holding = (Addr, MarketId)
  type Bucket = (MarketId, int)
  type Credit = (MarketId, int, Addr)
  type VintageId = (MarketId, nat)

  datatype Agent = Agent(marketsEntered: int, totalOffered: int, totalAccepted: int, totalClaimed: int, realizedPnl: int)

  const NEW_AGENT := Agent(0, 0, 0, 0, 0)

  /** createdAt in seconds; createdTx numbers the chain's transactions in order. */
  datatype Position = Position(market: MarketId, owner: Addr, outcome: nat, offered: int, accepted: int, refused: int,
                               finalized: bool, refundWithdrawn: bool, claimed: bool, payout: int,
                               createdAt: nat, createdTx: nat, vintage: Option<VintageId>)

  datatype DayStat = DayStat(offered: int, accepted: int, rationed: int, entries: int, uniqueAgents: int)

  const NEW_DAY := DayStat(0, 0, 0, 0, 0)

  datatype Vintage = Vintage(offered: int, accepted: int, rationed: int, entryCount: int, finalized: bool,
                             pending: seq<PositionId>)

  const NEW_VINTAGE := Vintage(0, 0, 0, 0, false, [])

  /** A position together with the wallets its offer and its acceptance are credited to. */
  datatype Row = Row(p: Position, staker: Addr, acceptor: Addr)

  function SaturatingSub(a: int, b: int): int {
    if a > b then a - b else 0
  }

  function DayOf(timestamp: nat): int {
    timestamp / 86400
  }

  // ------------------------------------------------------------------ what a row contributes

  const OFFERED: Row -> int := (r: Row) => r.p.offered
  const ACCEPTED: Row -> int := (r: Row) => if r.p.finalized then r.p.accepted else 0
  const PAYOUT: Row -> int := (r: Row) => r.p.payout
  const REALIZED: Row -> int := (r: Row) => r.p.payout - if r.p.claimed then r.p.accepted else 0
  const HOLDING: Row -> Holding := (r: Row) => (r.p.owner, r.p.market)
  const CREDIT: Row -> Credit := (r: Row) => (r.p.market, DayOf(r.p.createdAt), r.staker)

  function OfferedBy(a: Addr): Row -> int {
    (r: Row) => if r.staker == a then r.p.offered else 0
  }

  function AcceptedBy(a: Addr): Row -> int {
    (r: Row) => if r.p.finalized && r.acceptor == a then r.p.accepted else 0
  }

  predicate InBucket(r: Row, b: Bucket) {
    r.p.market == b.0 && DayOf(r.p.createdAt) == b.1
  }

  function OfferedIn(b: Bucket): Row -> int {
    (r: Row) => if InBucket(r, b) then r.p.offered else 0
  }

  function AcceptedIn(b: Bucket): Row -> int {
    (r: Row) => if InBucket(r, b) && r.p.finalized then r.p.accepted else 0
  }

  function RationedIn(b: Bucket): Row -> int {
    (r: Row) => if InBucket(r, b) && r.p.finalized then r.p.refused else 0
  }

  function PendingIn(b: Bucket): Row -> int {
    (r: Row) => if InBucket(r, b) && !r.p.finalized then r.p.offered else 0
  }

  function SettledIn(b: Bucket): Row -> int {
    (r: Row) => if InBucket(r, b) && r.p.finalized then r.p.offered else 0
  }

  function EntriesIn(b: Bucket): Row -> int {
    (r: Row) => if InBucket(r, b) then 1 else 0
  }

  const TOTAL_OFFERED: Agent -> int := (a: Agent) => a.totalOffered
  const TOTAL_ACCEPTED: Agent -> int := (a: Agent) => a.totalAccepted
  const TOTAL_CLAIMED: Agent -> int := (a: Agent) => a.totalClaimed
  const REALIZED_PNL: Agent -> int := (a: Agent) => a.realizedPnl

  // ------------------------------------------------------------------ agreement

  type Rows = map<PositionId, Row>
  type Agents = map<Addr, Agent>

  function AgentOf(agents: Agents, a: Addr): Agent {
    if a in agents then agents[a] else NEW_AGENT
  }

  /** Every wallet's stake totals are the recomputation over the rows credited to it; a
      wallet the index does not list has none. */
  ghost predicate MoneyAgrees(agents: Agents, rows: Rows) {
    forall a :: CreditAgrees(AgentOf(agents, a), rows, a)
  }

  ghost predicate CreditAgrees(agent: Agent, rows: Rows, a: Addr) {
    agent.totalOffered == Sum(rows, OfferedBy(a)) && agent.totalAccepted == Sum(rows, AcceptedBy(a))
  }

  /** The listed agents' totals sum to the positions'. */
  ghost predicate Conserved(agents: Agents, rows: Rows) {
    && Sum(agents, TOTAL_OFFERED) == Sum(rows, OFFERED)
    && Sum(agents, TOTAL_ACCEPTED) == Sum(rows, ACCEPTED)
    && Sum(agents, TOTAL_CLAIMED) == Sum(rows, PAYOUT)
    && Sum(agents, REALIZED_PNL) == Sum(rows, REALIZED)
  }

  ghost predicate NothingOwed(agents: Agents) {
    forall a :: a in agents ==> agents[a].totalClaimed >= 0
  }

  ghost function LinksOf(links: map<Holding, nat>, a: Addr): set<Holding> {
    Group(links, (k: Holding) => k.0, a)
  }

  /** marketsEntered is the number of markets a wallet has a link to. */
  ghost predicate MarketsAgree(agents: Agents, links: map<Holding, nat>) {
    forall a :: AgentOf(agents, a).marketsEntered == |LinksOf(links, a)|
  }

  function StatOf(days: map<Bucket, DayStat>, b: Bucket): DayStat {
    if b in days then days[b] else NEW_DAY
  }

  ghost predicate StatsAgree(days: map<Bucket, DayStat>, rows: Rows) {
    forall b :: StatAgrees(StatOf(days, b), rows, b)
  }

  ghost predicate StatAgrees(s: DayStat, rows: Rows, b: Bucket) {
    && s.offered == Sum(rows, OfferedIn(b)) && s.accepted == Sum(rows, AcceptedIn(b))
    && s.rationed == Sum(rows, RationedIn(b)) && s.entries == Sum(rows, EntriesIn(b))
  }

  /** The distinct wallets credited in bucket b. */
  ghost function CreditedIn(dayAgents: map<Credit, nat>, b: Bucket): set<Credit> {
    Group(dayAgents, (k: Credit) => (k.0, k.1), b)
  }

  ghost predicate UniqueAgree(days: map<Bucket, DayStat>, dayAgents: map<Credit, nat>) {
    forall b :: StatOf(days, b).uniqueAgents == |CreditedIn(dayAgents, b)|
  }

  /** What each row satisfies by itself, as of transaction `now`. */
  ghost predicate RowOk(r: Row, agents: Agents, now: nat) {
    && r.p.owner in agents
    && r.p.offered >= 0 && 0 <= r.p.accepted <= r.p.offered && r.p.payout >= 0
    && (if r.p.finalized then r.p.refused == r.p.offered - r.p.accepted else r.p.accepted == 0)
    && r.p.createdTx <= now
    && (r.p.createdTx == now ==> r.staker == r.p.owner && (r.p.finalized ==> r.acceptor == r.p.owner))
  }

  ghost predicate RowsOk(rows: Rows, agents: Agents, now: nat) {
    forall id :: id in rows ==> RowOk(rows[id], agents, now)
  }

  // ------------------------------------------------------------------ consequences

  /** Every bucket's offers are what was accepted, what was refused and what is still pending. */
  lemma {:induction false} BucketBalances(days: map<Bucket, DayStat>, rows: Rows, agents: Agents, now: nat, b: Bucket)
    requires StatsAgree(days, rows) && RowsOk(rows, agents, now)
    ensures StatOf(days, b).offered ==
            StatOf(days, b).accepted + StatOf(days, b).rationed + Sum(rows, PendingIn(b))
  {
    assert StatAgrees(StatOf(days, b), rows, b);
    SumSplit(rows, OfferedIn(b), SettledIn(b), PendingIn(b));
    forall id | id in rows
      ensures SettledIn(b)(rows[id]) == AcceptedIn(b)(rows[id]) + RationedIn(b)(rows[id])
    {
      assert RowOk(rows[id], agents, now);
    }
    SumSplit(rows, SettledIn(b), AcceptedIn(b), RationedIn(b));
  }

  /** A wallet's totals cover any one row credited to it: taking the row away is exact. */
  lemma CreditCovers(agents: Agents, rows: Rows, now: nat, id: PositionId)
    requires MoneyAgrees(agents, rows) && RowsOk(rows, agents, now) && id in rows
    ensures rows[id].p.offered <= AgentOf(agents, rows[id].staker).totalOffered
    ensures rows[id].p.finalized ==> rows[id].p.accepted <= AgentOf(agents, rows[id].acceptor).totalAccepted
  {
    forall k | k in rows ensures rows[k].p.offered >= 0 && rows[k].p.accepted >= 0 {
      assert RowOk(rows[k], agents, now);
    }
    assert CreditAgrees(AgentOf(agents, rows[id].staker), rows, rows[id].staker);
    assert CreditAgrees(AgentOf(agents, rows[id].acceptor), rows, rows[id].acceptor);
    SumNonNegative(rows, OfferedBy(rows[id].staker));
    assert OfferedBy(rows[id].staker)(rows[id]) == rows[id].p.offered;
    SumNonNegative(rows, AcceptedBy(rows[id].acceptor));
    assert rows[id].p.finalized ==> AcceptedBy(rows[id].acceptor)(rows[id]) == rows[id].p.accepted;
  }

  lemma TotalsNonNegative(agents: Agents, rows: Rows, now: nat, a: Addr)
    requires MoneyAgrees(agents, rows) && RowsOk(rows, agents, now)
    ensures AgentOf(agents, a).totalOffered >= 0 && AgentOf(agents, a).totalAccepted >= 0
  {
    forall k | k in rows ensures rows[k].p.offered >= 0 && rows[k].p.accepted >= 0 {
      assert RowOk(rows[k], agents, now);
    }
    assert CreditAgrees(AgentOf(agents, a), rows, a);
    SumNonNegative(rows, OfferedBy(a));
    SumNonNegative(rows, AcceptedBy(a));
  }

  // ------------------------------------------------------------------ agents coming and going

  function Ensured(agents: Agents, a: Addr): Agents {
    if a in agents then agents else agents[a := NEW_AGENT]
  }

  /** Wallets that read the same agree the same. */
  lemma SameAgents(agents: Agents, e: Agents, rows: Rows, links: map<Holding, nat>)
    requires MoneyAgrees(agents, rows) && MarketsAgree(agents, links)
    requires forall b :: AgentOf(e, b) == AgentOf(agents, b)
    ensures MoneyAgrees(e, rows) && MarketsAgree(e, links)
  {
    forall b ensures CreditAgrees(AgentOf(e, b), rows, b) { assert CreditAgrees(AgentOf(agents, b), rows, b); }
  }

  /** How the four totals over agents follow one agent. */
  lemma {:induction false} AgentSums(agents: Agents, a: Addr, x: Agent)
    ensures var e, was := agents[a := x], AgentOf(agents, a);
            && Sum(e, TOTAL_OFFERED) == Sum(agents, TOTAL_OFFERED) - was.totalOffered + x.totalOffered
            && Sum(e, TOTAL_ACCEPTED) == Sum(agents, TOTAL_ACCEPTED) - was.totalAccepted + x.totalAccepted
            && Sum(e, TOTAL_CLAIMED) == Sum(agents, TOTAL_CLAIMED) - was.totalClaimed + x.totalClaimed
            && Sum(e, REALIZED_PNL) == Sum(agents, REALIZED_PNL) - was.realizedPnl + x.realizedPnl
  {
    SumPut(agents, TOTAL_OFFERED, a, x);
    SumPut(agents, TOTAL_ACCEPTED, a, x);
    SumPut(agents, TOTAL_CLAIMED, a, x);
    SumPut(agents, REALIZED_PNL, a, x);
  }

  lemma EnsuredKeeps(agents: Agents, rows: Rows, links: map<Holding, nat>, now: nat, a: Addr)
    requires MoneyAgrees(agents, rows) && Conserved(agents, rows) && MarketsAgree(agents, links) && RowsOk(rows, agents, now)
    ensures var e := Ensured(agents, a);
            MoneyAgrees(e, rows) && Conserved(e, rows) && MarketsAgree(e, links) && RowsOk(rows, e, now)
  {
    EnsuredReads(agents, a);
    SameAgents(agents, Ensured(agents, a), rows, links);
    EnsuredConserved(agents, rows, a);
    MoreAgentsOk(rows, agents, Ensured(agents, a), now);
  }

  lemma EnsuredReads(agents: Agents, a: Addr)
    ensures forall b :: AgentOf(Ensured(agents, a), b) == AgentOf(agents, b)
  {
  }

  lemma EnsuredConserved(agents: Agents, rows: Rows, a: Addr)
    requires Conserved(agents, rows)
    ensures Conserved(Ensured(agents, a), rows)
  {
    if a !in agents { AgentSums(agents, a, NEW_AGENT); }
  }

  lemma MoreAgentsOk(rows: Rows, agents: Agents, e: Agents, now: nat)
    requires RowsOk(rows, agents, now) && forall id :: id in rows && rows[id].p.owner in agents ==> rows[id].p.owner in e
    ensures RowsOk(rows, e, now)
  {
    forall id | id in rows ensures RowOk(rows[id], e, now) { assert RowOk(rows[id], agents, now); }
  }

  /** An agent with no totals, no links and no positions can go without anything disagreeing. */
  lemma DroppedKeeps(agents: Agents, rows: Rows, links: map<Holding, nat>, now: nat, a: Addr)
    requires MoneyAgrees(agents, rows) && Conserved(agents, rows) && MarketsAgree(agents, links) && RowsOk(rows, agents, now)
    requires a in agents && agents[a] == NEW_AGENT
    requires forall id :: id in rows ==> rows[id].p.owner != a
    ensures var e := agents - {a};
            MoneyAgrees(e, rows) && Conserved(e, rows) && MarketsAgree(e, links) && RowsOk(rows, e, now)
  {
    var e := agents - {a};
    SameAgents(agents, e, rows, links);
    SumRemove(agents, TOTAL_OFFERED, a);
    SumRemove(agents, TOTAL_ACCEPTED, a);
    SumRemove(agents, TOTAL_CLAIMED, a);
    SumRemove(agents, REALIZED_PNL, a);
    MoreAgentsOk(rows, agents, e, now);
  }

  // ------------------------------------------------------------------ money

  function AddOffered(agents: Agents, a: Addr, x: int): Agents
    requires a in agents
  {
    agents[a := agents[a].(totalOffered := agents[a].totalOffered + x)]
  }

  function AddAccepted(agents: Agents, a: Addr, x: int): Agents
    requires a in agents
  {
    agents[a := agents[a].(totalAccepted := agents[a].totalAccepted + x)]
  }

  function AddMarkets(agents: Agents, a: Addr, x: int): Agents
    requires a in agents
  {
    agents[a := agents[a].(marketsEntered := agents[a].marketsEntered + x)]
  }

  /** The same wallets with the same money, whatever their count of markets. */
  ghost predicate SameMoney(agents: Agents, e: Agents) {
    agents.Keys == e.Keys && forall a :: a in agents ==> e[a] == agents[a].(marketsEntered := e[a].marketsEntered)
  }

  /** Counting markets moves no money. */
  lemma SameMoneyAgrees(agents: Agents, e: Agents, rows: Rows)
    requires SameMoney(agents, e) && MoneyAgrees(agents, rows) && Conserved(agents, rows)
    ensures MoneyAgrees(e, rows) && Conserved(e, rows)
  {
    forall b ensures CreditAgrees(AgentOf(e, b), rows, b) { assert CreditAgrees(AgentOf(agents, b), rows, b); }
    SumSame(agents, e, TOTAL_OFFERED);
    SumSame(agents, e, TOTAL_ACCEPTED);
    SumSame(agents, e, TOTAL_CLAIMED);
    SumSame(agents, e, REALIZED_PNL);
  }

  /** How one wallet's credit over rows follows one row. */
  lemma {:induction false} CreditSums(rows: Rows, id: PositionId, r: Row, b: Addr)
    ensures Sum(rows[id := r], OfferedBy(b)) ==
            Sum(rows, OfferedBy(b)) - (if id in rows then OfferedBy(b)(rows[id]) else 0) + OfferedBy(b)(r)
    ensures Sum(rows[id := r], AcceptedBy(b)) ==
            Sum(rows, AcceptedBy(b)) - (if id in rows then AcceptedBy(b)(rows[id]) else 0) + AcceptedBy(b)(r)
  {
    SumPut(rows, OfferedBy(b), id, r);
    SumPut(rows, AcceptedBy(b), id, r);
  }

  /** How the four totals over rows follow one row. */
  lemma {:induction false} RowSums(rows: Rows, id: PositionId, r: Row)
    ensures Sum(rows[id := r], OFFERED) == Sum(rows, OFFERED) - (if id in rows then OFFERED(rows[id]) else 0) + OFFERED(r)
    ensures Sum(rows[id := r], ACCEPTED) == Sum(rows, ACCEPTED) - (if id in rows then ACCEPTED(rows[id]) else 0) + ACCEPTED(r)
    ensures Sum(rows[id := r], PAYOUT) == Sum(rows, PAYOUT) - (if id in rows then PAYOUT(rows[id]) else 0) + PAYOUT(r)
    ensures Sum(rows[id := r], REALIZED) == Sum(rows, REALIZED) - (if id in rows then REALIZED(rows[id]) else 0) + REALIZED(r)
  {
    SumPut(rows, OFFERED, id, r);
    SumPut(rows, ACCEPTED, id, r);
    SumPut(rows, PAYOUT, id, r);
    SumPut(rows, REALIZED, id, r);
  }

  /** A row that keeps its amounts keeps the four totals. */
  lemma {:induction false} SameRowSums(rows: Rows, id: PositionId, r: Row)
    requires id in rows && r.p == rows[id].p.(owner := r.p.owner)
    ensures var rs := rows[id := r];
            && Sum(rs, OFFERED) == Sum(rows, OFFERED) && Sum(rs, ACCEPTED) == Sum(rows, ACCEPTED)
            && Sum(rs, PAYOUT) == Sum(rows, PAYOUT) && Sum(rs, REALIZED) == Sum(rows, REALIZED)
  {
    RowSums(rows, id, r);
  }

  /** A new row's offer is credited to its staker. */
  lemma EntryMoney(agents: Agents, rows: Rows, id: PositionId, r: Row)
    requires r.staker in agents && MoneyAgrees(agents, rows) && Conserved(agents, rows) && id !in rows
    requires !r.p.finalized && r.p.payout == 0 && !r.p.claimed
    ensures var e := AddOffered(agents, r.staker, r.p.offered);
            MoneyAgrees(e, rows[id := r]) && Conserved(e, rows[id := r])
  {
    var e := AddOffered(agents, r.staker, r.p.offered);
    forall b ensures CreditAgrees(AgentOf(e, b), rows[id := r], b) {
      assert CreditAgrees(AgentOf(agents, b), rows, b);
      CreditSums(rows, id, r, b);
    }
    AgentSums(agents, r.staker, e[r.staker]);
    RowSums(rows, id, r);
  }

  lemma AcceptanceCredit(agents: Agents, rows: Rows, id: PositionId, r: Row, b: Addr)
    requires id in rows && r.acceptor in agents && CreditAgrees(AgentOf(agents, b), rows, b)
    requires !rows[id].p.finalized && r.p.finalized && r.staker == rows[id].staker && r.p.offered == rows[id].p.offered
    ensures CreditAgrees(AgentOf(AddAccepted(agents, r.acceptor, r.p.accepted), b), rows[id := r], b)
  {
    CreditSums(rows, id, r, b);
  }

  /** An acceptance is credited to whoever holds the position when it becomes known. */
  lemma AcceptanceMoney(agents: Agents, rows: Rows, id: PositionId, r: Row)
    requires id in rows && r.acceptor in agents && MoneyAgrees(agents, rows) && Conserved(agents, rows)
    requires !rows[id].p.finalized && !rows[id].p.claimed && r.p.finalized && r.staker == rows[id].staker
    requires r.p == rows[id].p.(finalized := true, accepted := r.p.accepted, refused := r.p.refused)
    ensures var e := AddAccepted(agents, r.acceptor, r.p.accepted);
            MoneyAgrees(e, rows[id := r]) && Conserved(e, rows[id := r])
  {
    var e := AddAccepted(agents, r.acceptor, r.p.accepted);
    forall b ensures CreditAgrees(AgentOf(e, b), rows[id := r], b) {
      assert CreditAgrees(AgentOf(agents, b), rows, b);
      AcceptanceCredit(agents, rows, id, r, b);
    }
    AcceptanceTotals(agents, rows, id, r);
  }

  lemma AcceptanceTotals(agents: Agents, rows: Rows, id: PositionId, r: Row)
    requires id in rows && r.acceptor in agents && Conserved(agents, rows)
    requires !rows[id].p.finalized && !rows[id].p.claimed && r.p.finalized
    requires r.p == rows[id].p.(finalized := true, accepted := r.p.accepted, refused := r.p.refused)
    ensures Conserved(AddAccepted(agents, r.acceptor, r.p.accepted), rows[id := r])
  {
    AgentSums(agents, r.acceptor, AddAccepted(agents, r.acceptor, r.p.accepted)[r.acceptor]);
    RowSums(rows, id, r);
  }

  /** A row that keeps its amounts and its credits keeps the money in agreement. */
  lemma SaleMoney(agents: Agents, rows: Rows, id: PositionId, r: Row)
    requires id in rows && MoneyAgrees(agents, rows) && Conserved(agents, rows)
    requires r == rows[id].(p := r.p) && r.p == rows[id].p.(owner := r.p.owner)
    ensures MoneyAgrees(agents, rows[id := r]) && Conserved(agents, rows[id := r])
  {
    forall b ensures CreditAgrees(AgentOf(agents, b), rows[id := r], b) {
      assert CreditAgrees(AgentOf(agents, b), rows, b);
      CreditSums(rows, id, r, b);
    }
    SameRowSums(rows, id, r);
  }

  function Charged(a: Agent, offered: int, accepted: int): Agent {
    a.(totalOffered := a.totalOffered + offered, totalAccepted := a.totalAccepted + accepted)
  }

  /** The whole of a row's stake taken off one wallet and put on another. */
  function Rewritten(agents: Agents, from: Addr, to: Addr, offered: int, accepted: int): Agents
    requires from in agents && to in agents
  {
    agents[from := Charged(agents[from], -offered, -accepted)][to := Charged(agents[to], offered, accepted)]
  }

  lemma HandOverCredit(agents: Agents, rows: Rows, id: PositionId, r: Row, from: Addr, to: Addr, b: Addr)
    requires id in rows && from in agents && to in agents && from != to
    requires CreditAgrees(AgentOf(agents, b), rows, b)
    requires rows[id].staker == from && r.staker == to && r.p == rows[id].p.(owner := to)
    requires if r.p.finalized then rows[id].acceptor == from && r.acceptor == to else r.p.accepted == 0
    ensures CreditAgrees(AgentOf(Rewritten(agents, from, to, r.p.offered, r.p.accepted), b), rows[id := r], b)
  {
    CreditSums(rows, id, r, b);
  }

  lemma {:induction false} RewrittenSums(agents: Agents, from: Addr, to: Addr, offered: int, accepted: int)
    requires from in agents && to in agents && from != to
    ensures var e := Rewritten(agents, from, to, offered, accepted);
            && Sum(e, TOTAL_OFFERED) == Sum(agents, TOTAL_OFFERED) && Sum(e, TOTAL_ACCEPTED) == Sum(agents, TOTAL_ACCEPTED)
            && Sum(e, TOTAL_CLAIMED) == Sum(agents, TOTAL_CLAIMED) && Sum(e, REALIZED_PNL) == Sum(agents, REALIZED_PNL)
  {
    var less, more := Charged(agents[from], -offered, -accepted), Charged(agents[to], offered, accepted);
    AgentSums(agents, from, less);
    AgentSums(agents[from := less], to, more);
  }

  /** A hand-over moves the credit, the whole of it, with the position. */
  lemma HandOverMoney(agents: Agents, rows: Rows, id: PositionId, r: Row, from: Addr, to: Addr)
    requires id in rows && from in agents && to in agents && from != to
    requires MoneyAgrees(agents, rows) && Conserved(agents, rows)
    requires rows[id].staker == from && r.staker == to && r.p == rows[id].p.(owner := to)
    requires if r.p.finalized then rows[id].acceptor == from && r.acceptor == to else r.p.accepted == 0
    ensures var e := Rewritten(agents, from, to, r.p.offered, r.p.accepted);
            MoneyAgrees(e, rows[id := r]) && Conserved(e, rows[id := r])
  {
    var e := Rewritten(agents, from, to, r.p.offered, r.p.accepted);
    forall b ensures CreditAgrees(AgentOf(e, b), rows[id := r], b) {
      assert CreditAgrees(AgentOf(agents, b), rows, b);
      HandOverCredit(agents, rows, id, r, from, to, b);
    }
    RewrittenSums(agents, from, to, r.p.offered, r.p.accepted);
    SameRowSums(rows, id, r);
  }

  lemma SettlementCredit(agents: Agents, rows: Rows, id: PositionId, r: Row, a: Agent, b: Addr)
    requires id in rows && rows[id].p.owner in agents && CreditAgrees(AgentOf(agents, b), rows, b)
    requires r == rows[id].(p := r.p) && r.p.offered == rows[id].p.offered && r.p.accepted == rows[id].p.accepted
    requires r.p.finalized == rows[id].p.finalized
    requires var was := agents[rows[id].p.owner]; a.totalOffered == was.totalOffered && a.totalAccepted == was.totalAccepted
    ensures CreditAgrees(AgentOf(agents[rows[id].p.owner := a], b), rows[id := r], b)
  {
    CreditSums(rows, id, r, b);
  }

  /** A settlement pays the holder, and books the principal once. */
  lemma SettlementMoney(agents: Agents, rows: Rows, id: PositionId, r: Row, a: Agent)
    requires id in rows && rows[id].p.owner in agents && MoneyAgrees(agents, rows) && Conserved(agents, rows)
    requires r == rows[id].(p := r.p) && r.p.payout >= rows[id].p.payout
    requires r.p == rows[id].p.(payout := r.p.payout, claimed := r.p.claimed, refundWithdrawn := r.p.refundWithdrawn)
    requires var was := agents[rows[id].p.owner];
             a == was.(totalClaimed := was.totalClaimed + (r.p.payout - rows[id].p.payout),
                       realizedPnl := was.realizedPnl + (REALIZED(r) - REALIZED(rows[id])))
    ensures var e := agents[rows[id].p.owner := a];
            MoneyAgrees(e, rows[id := r]) && Conserved(e, rows[id := r])
  {
    var o := rows[id].p.owner;
    var e := agents[o := a];
    forall b ensures CreditAgrees(AgentOf(e, b), rows[id := r], b) {
      assert CreditAgrees(AgentOf(agents, b), rows, b);
      SettlementCredit(agents, rows, id, r, a, b);
    }
    AgentSums(agents, o, a);
    RowSums(rows, id, r);
  }

  // ------------------------------------------------------------------ links

  /** Attaching and detaching keep marketsEntered at the number of links. */
  lemma AttachedMarkets(agents: Agents, links: map<Holding, nat>, a: Addr, m: MarketId)
    requires a in agents && MarketsAgree(agents, links)
    ensures MarketsAgree(AddMarkets(agents, a, if (a, m) in links then 0 else 1), Incr(links, (a, m)))
  {
    var e := AddMarkets(agents, a, if (a, m) in links then 0 else 1);
    forall b ensures AgentOf(e, b).marketsEntered == |LinksOf(Incr(links, (a, m)), b)| {
      GroupIncr(links, (k: Holding) => k.0, (a, m), b);
      assert AgentOf(agents, b).marketsEntered == |LinksOf(links, b)|;
    }
  }

  lemma DetachedMarkets(agents: Agents, links: map<Holding, nat>, a: Addr, m: MarketId)
    requires a in agents && MarketsAgree(agents, links) && (a, m) in links
    ensures var gone := (a, m) !in Decr(links, (a, m));
            && (gone ==> agents[a].marketsEntered >= 1)
            && MarketsAgree(AddMarkets(agents, a, if gone then -1 else 0), Decr(links, (a, m)))
  {
    var links' := Decr(links, (a, m));
    var e := AddMarkets(agents, a, if (a, m) !in links' then -1 else 0);
    forall b ensures AgentOf(e, b).marketsEntered == |LinksOf(links', b)| {
      GroupDecr(links, (k: Holding) => k.0, (a, m), b);
      assert AgentOf(agents, b).marketsEntered == |LinksOf(links, b)|;
    }
    assert agents[a].marketsEntered == |LinksOf(links, a)| by { assert AgentOf(agents, a) == agents[a]; }
    assert (a, m) in LinksOf(links, a);
  }

  /** Moving money counts no markets. */
  lemma MoneyKeepsMarkets(agents: Agents, e: Agents, links: map<Holding, nat>)
    requires MarketsAgree(agents, links)
    requires forall a :: AgentOf(e, a).marketsEntered == AgentOf(agents, a).marketsEntered
    ensures MarketsAgree(e, links)
  {
  }

  // ------------------------------------------------------------------ days

  /** How one bucket's amounts over rows follow one row. */
  lemma {:induction false} BucketSums(rows: Rows, id: PositionId, r: Row, b: Bucket)
    ensures var rs, there := rows[id := r], id in rows;
            && Sum(rs, OfferedIn(b)) == Sum(rows, OfferedIn(b)) - (if there then OfferedIn(b)(rows[id]) else 0) + OfferedIn(b)(r)
            && Sum(rs, AcceptedIn(b)) == Sum(rows, AcceptedIn(b)) - (if there then AcceptedIn(b)(rows[id]) else 0) + AcceptedIn(b)(r)
            && Sum(rs, RationedIn(b)) == Sum(rows, RationedIn(b)) - (if there then RationedIn(b)(rows[id]) else 0) + RationedIn(b)(r)
            && Sum(rs, EntriesIn(b)) == Sum(rows, EntriesIn(b)) - (if there then EntriesIn(b)(rows[id]) else 0) + EntriesIn(b)(r)
  {
    SumPut(rows, OfferedIn(b), id, r);
    SumPut(rows, AcceptedIn(b), id, r);
    SumPut(rows, RationedIn(b), id, r);
    SumPut(rows, EntriesIn(b), id, r);
  }

  function BucketOf(r: Row): Bucket {
    (r.p.market, DayOf(r.p.createdAt))
  }

  lemma StatsEntry(days: map<Bucket, DayStat>, rows: Rows, id: PositionId, r: Row, s: DayStat)
    requires StatsAgree(days, rows) && id !in rows && !r.p.finalized
    requires var was := StatOf(days, BucketOf(r));
             s == was.(offered := was.offered + r.p.offered, entries := was.entries + 1)
    ensures StatsAgree(days[BucketOf(r) := s], rows[id := r])
  {
    var days' := days[BucketOf(r) := s];
    forall b ensures StatAgrees(StatOf(days', b), rows[id := r], b) {
      assert StatAgrees(StatOf(days, b), rows, b);
      BucketSums(rows, id, r, b);
    }
  }

  lemma StatsAcceptance(days: map<Bucket, DayStat>, rows: Rows, id: PositionId, r: Row, s: DayStat)
    requires StatsAgree(days, rows) && id in rows && !rows[id].p.finalized && r.p.finalized
    requires r.p == rows[id].p.(finalized := true, accepted := r.p.accepted, refused := r.p.refused)
    requires var was := StatOf(days, BucketOf(r));
             s == was.(accepted := was.accepted + r.p.accepted, rationed := was.rationed + r.p.refused)
    ensures StatsAgree(days[BucketOf(r) := s], rows[id := r])
  {
    hide Sum;
    var days' := days[BucketOf(r) := s];
    forall b ensures StatAgrees(StatOf(days', b), rows[id := r], b) {
      assert StatAgrees(StatOf(days, b), rows, b);
      BucketSums(rows, id, r, b);
    }
  }

  /** The amounts of a bucket, whatever its count of wallets. */
  ghost predicate SameAmounts(days: map<Bucket, DayStat>, days': map<Bucket, DayStat>) {
    forall b :: StatOf(days', b) == StatOf(days, b).(uniqueAgents := StatOf(days', b).uniqueAgents)
  }

  lemma SameAmountsAgree(days: map<Bucket, DayStat>, days': map<Bucket, DayStat>, rows: Rows)
    requires StatsAgree(days, rows) && SameAmounts(days, days')
    ensures StatsAgree(days', rows)
  {
    forall b ensures StatAgrees(StatOf(days', b), rows, b) { assert StatAgrees(StatOf(days, b), rows, b); }
  }

  /** A row that keeps its market, day and amounts keeps every bucket's amounts. */
  lemma StatsKeep(days: map<Bucket, DayStat>, rows: Rows, id: PositionId, r: Row)
    requires StatsAgree(days, rows) && id in rows
    requires r.p == rows[id].p.(owner := r.p.owner, payout := r.p.payout, claimed := r.p.claimed,
                                refundWithdrawn := r.p.refundWithdrawn)
    ensures StatsAgree(days, rows[id := r])
  {
    forall b ensures StatAgrees(StatOf(days, b), rows[id := r], b) {
      assert StatAgrees(StatOf(days, b), rows, b);
      BucketSums(rows, id, r, b);
    }
  }

  function AddUnique(days: map<Bucket, DayStat>, b: Bucket, x: int): map<Bucket, DayStat> {
    days[b := StatOf(days, b).(uniqueAgents := StatOf(days, b).uniqueAgents + x)]
  }

  lemma CountedUnique(days: map<Bucket, DayStat>, dayAgents: map<Credit, nat>, k: Credit)
    requires UniqueAgree(days, dayAgents)
    ensures UniqueAgree(AddUnique(days, (k.0, k.1), if k in dayAgents then 0 else 1), Incr(dayAgents, k))
    ensures SameAmounts(days, AddUnique(days, (k.0, k.1), if k in dayAgents then 0 else 1))
  {
    var days' := AddUnique(days, (k.0, k.1), if k in dayAgents then 0 else 1);
    forall b ensures StatOf(days', b).uniqueAgents == |CreditedIn(Incr(dayAgents, k), b)| {
      GroupIncr(dayAgents, (c: Credit) => (c.0, c.1), k, b);
      assert StatOf(days, b).uniqueAgents == |CreditedIn(dayAgents, b)|;
    }
  }

  lemma UncountedUnique(days: map<Bucket, DayStat>, dayAgents: map<Credit, nat>, k: Credit)
    requires UniqueAgree(days, dayAgents) && k in dayAgents
    ensures var b, gone := (k.0, k.1), k !in Decr(dayAgents, k);
            && (gone ==> StatOf(days, b).uniqueAgents >= 1)
            && UniqueAgree(AddUnique(days, b, if gone then -1 else 0), Decr(dayAgents, k))
            && SameAmounts(days, AddUnique(days, b, if gone then -1 else 0))
  {
    var left := Decr(dayAgents, k);
    var days' := AddUnique(days, (k.0, k.1), if k !in left then -1 else 0);
    forall b ensures StatOf(days', b).uniqueAgents == |CreditedIn(left, b)| {
      GroupDecr(dayAgents, (c: Credit) => (c.0, c.1), k, b);
      assert StatOf(days, b).uniqueAgents == |CreditedIn(dayAgents, b)|;
    }
    assert k in CreditedIn(dayAgents, (k.0, k.1));
    assert StatOf(days, (k.0, k.1)).uniqueAgents == |CreditedIn(dayAgents, (k.0, k.1))|;
  }
}
