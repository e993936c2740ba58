/** The venue index: entities loaded, changed and saved one event at a time. Each step is a
    function of the stored state; the class VenueIndex makes the same steps in place. */
module VenueIndexes {
  import opened Numbers
  import opened Tallies
  import opened VenueLedger
  import opened VenueAgreement

  datatype Index = Index(agents: Agents, links: map<Holding, nat>, positions: map<PositionId, Position>,
                         days: map<Bucket, DayStat>, dayAgents: map<Credit, nat>,
                         vintages: map<VintageId, Vintage>, markets: set<MarketId>, openVintage: map<MarketId, VintageId>,
                         heads: map<BookId, nat>,
                         marketCount: int, positionCount: int, totalAccepted: int, totalClaimed: int, agentCount: int)

  /** An outcome of a market. */
  type BookId = (MarketId, nat)

  const EMPTY := Index(map[], map[], map[], map[], map[], map[], {}, map[], map[], 0, 0, 0, 0, 0)

  /** An Entered log; vintage 0 is the seed vintage. */
  datatype Entry = Entry(id: PositionId, market: MarketId, owner: Addr, outcome: nat, offered: nat, vintage: nat,
                         timestamp: nat, tx: nat)

  /** What reading a position back from the settler answers. */
  datatype Reading = Reading(accepted: nat, refundWithdrawn: bool)

  type Readings = map<PositionId, Reading>

  // ------------------------------------------------------------------ entities

  function WithMarket(x: Index, m: MarketId): Index {
    if m in x.markets then x else x.(markets := x.markets + {m}, marketCount := x.marketCount + 1)
  }

  function WithAgent(x: Index, a: Addr): (y: Index)
    ensures y.vintages == x.vintages && y.markets == x.markets && y.openVintage == x.openVintage
  {
    if a in x.agents then x else x.(agents := x.agents[a := NEW_AGENT], agentCount := x.agentCount + 1)
  }

  function Attach(x: Index, a: Addr, m: MarketId): (y: Index)
    requires a in x.agents
    ensures y.vintages == x.vintages && y.markets == x.markets && y.openVintage == x.openVintage
  {
    x.(agents := Linked(x.links, x.agents, (a, m)), links := Incr(x.links, (a, m)))
  }

  /** The agents after a link's count goes down; a wallet's market count stops at zero. */
  function Detached(links: map<Holding, nat>, agents: Agents, h: Holding): Agents
    requires h.0 in agents
  {
    if h in links && h !in Decr(links, h)
    then agents[h.0 := agents[h.0].(marketsEntered := SaturatingSub(agents[h.0].marketsEntered, 1))]
    else agents
  }

  function Detach(x: Index, a: Addr, m: MarketId): (y: Index)
    requires a in x.agents
    ensures y.vintages == x.vintages && y.markets == x.markets && y.openVintage == x.openVintage
  {
    x.(agents := Detached(x.links, x.agents, (a, m)), links := Decr(x.links, (a, m)))
  }

  function CountUnique(x: Index, b: Bucket, a: Addr): (y: Index)
    ensures y.vintages == x.vintages && y.markets == x.markets && y.openVintage == x.openVintage
  {
    x.(days := DayCounted(x.days, x.dayAgents, (b.0, b.1, a)), dayAgents := Incr(x.dayAgents, (b.0, b.1, a)))
  }

  /** The days after a wallet's count in a bucket goes down; a bucket's count stops at zero. */
  function DayDropped(days: map<Bucket, DayStat>, dayAgents: map<Credit, nat>, k: Credit): map<Bucket, DayStat> {
    var s := StatOf(days, (k.0, k.1));
    days[(k.0, k.1) := if k in dayAgents && k !in Decr(dayAgents, k)
                       then s.(uniqueAgents := SaturatingSub(s.uniqueAgents, 1)) else s]
  }

  function UncountUnique(x: Index, b: Bucket, a: Addr): (y: Index)
    ensures y.vintages == x.vintages && y.markets == x.markets && y.openVintage == x.openVintage
  {
    x.(days := DayDropped(x.days, x.dayAgents, (b.0, b.1, a)), dayAgents := Decr(x.dayAgents, (b.0, b.1, a)))
  }

  // ------------------------------------------------------------------ records

  function NewPosition(e: Entry): Position {
    Position(e.market, e.owner, e.outcome, e.offered, 0, 0, false, false, false, 0, e.timestamp, e.tx, None)
  }

  function Charge(x: Index, e: Entry): Index {
    var known := WithAgent(x, e.owner);
    known.(positions := known.positions[e.id := NewPosition(e)],
           agents := AddOffered(known.agents, e.owner, e.offered))
  }

  function OfferToday(x: Index, e: Entry): Index {
    x.(days := DayEntered(x.days, Row(NewPosition(e), e.owner, e.owner)))
  }

  function BookBumped(x: Index, m: MarketId, outcome: nat): Index {
    x.(heads := Incr(x.heads, (m, outcome)))
  }

  /** An entry in all the places that keep count of it: its wallet, its book, its day and the total. */
  function RecordEntry(x: Index, e: Entry): Index {
    var held := BookBumped(Attach(Charge(x, e), e.owner, e.market), e.market, e.outcome);
    var counted := CountUnique(OfferToday(held, e), (e.market, DayOf(e.timestamp)), e.owner);
    counted.(positionCount := counted.positionCount + 1)
  }

  /** A position whose acceptance is read, and everyone credited with it. */
  function RecordAcceptance(x: Index, id: PositionId, accepted: nat): Index
    requires id in x.positions
  {
    var was := x.positions[id];
    var p := was.(accepted := accepted, refused := SaturatingSub(was.offered, accepted), finalized := true);
    x.(positions := x.positions[id := p],
       agents := if p.owner in x.agents then AddAccepted(x.agents, p.owner, accepted) else x.agents,
       days := DayAccepted(x.days, Row(p, p.owner, p.owner)),
       totalAccepted := x.totalAccepted + accepted)
  }

  /** Takes a stake off one wallet, never below zero, and puts it on another. */
  function Moved(agents: Agents, from: Addr, to: Addr, offered: int, accepted: int): Agents
    requires from in agents && to in agents
  {
    var less := agents[from := agents[from].(
      totalOffered := SaturatingSub(agents[from].totalOffered, offered),
      totalAccepted := SaturatingSub(agents[from].totalAccepted, accepted))];
    less[to := less[to].(totalOffered := less[to].totalOffered + offered, totalAccepted := less[to].totalAccepted + accepted)]
  }

  predicate HoldsNothing(x: Index, a: Addr) {
    forall id | id in x.positions :: x.positions[id].owner != a
  }

  /** Delists a wallet whose totals are all zero and that owns no position. */
  function DropConduit(x: Index, a: Addr): (y: Index)
    requires a in x.agents
    ensures y.vintages == x.vintages && y.markets == x.markets && y.openVintage == x.openVintage
  {
    var g := x.agents[a];
    if g.totalOffered > 0 || g.totalAccepted > 0 || g.totalClaimed > 0 || g.realizedPnl != 0 || g.marketsEntered > 0
       || !HoldsNothing(x, a)
    then x
    else x.(agents := x.agents - {a}, agentCount := SaturatingSub(x.agentCount, 1))
  }

  /** A position in new hands, and the market links with it. */
  function Resold(x: Index, id: PositionId, from: Addr, to: Addr): (y: Index)
    requires id in x.positions && from in x.agents && to in x.agents
    ensures id in y.positions && from in y.agents && to in y.agents
    ensures y.vintages == x.vintages && y.markets == x.markets && y.openVintage == x.openVintage
  {
    var p := x.positions[id];
    Detach(Attach(x.(positions := x.positions[id := p.(owner := to)]), to, p.market), from, p.market)
  }

  /** The stake and the day's credit in new hands. */
  function Credited(x: Index, id: PositionId, from: Addr, to: Addr): (y: Index)
    requires id in x.positions && from in x.agents && to in x.agents
    ensures from in y.agents
    ensures y.vintages == x.vintages && y.markets == x.markets && y.openVintage == x.openVintage
  {
    var p := x.positions[id];
    var b := (p.market, DayOf(p.createdAt));
    CountUnique(UncountUnique(x.(agents := Moved(x.agents, from, to, p.offered, p.accepted)), b, from), b, to)
  }

  /** A transfer: the market link always moves, the stake only in the position's first transaction. */
  function RecordTransfer(x: Index, id: PositionId, to: Addr, tx: nat): (y: Index)
    requires id in x.positions
    ensures y.vintages == x.vintages && y.markets == x.markets && y.openVintage == x.openVintage
  {
    var known := WithAgent(x, to);
    var p := known.positions[id];
    if to == p.owner then known
    else if p.owner !in known.agents then
      Attach(known.(positions := known.positions[id := p.(owner := to)]), to, p.market)
    else
      var left := Resold(known, id, p.owner, to);
      if p.createdTx != tx then left else DropConduit(Credited(left, id, p.owner, to), p.owner)
  }

  function Earned(agents: Agents, a: Addr, claimed: int, pnl: int): Agents {
    if a !in agents then agents
    else agents[a := agents[a].(totalClaimed := agents[a].totalClaimed + claimed, realizedPnl := agents[a].realizedPnl + pnl)]
  }

  lemma EarnedTwice(agents: Agents, a: Addr, claimed: int, pnl: int, more: int)
    ensures Earned(Earned(agents, a, claimed, pnl), a, 0, more) == Earned(agents, a, claimed, pnl + more)
    ensures Earned(agents, a, 0, 0) == agents
  {
  }

  /** Settlement: money follows the position, the principal comes off once. */
  function RecordSettlement(x: Index, id: PositionId, payout: nat, refund: nat, settled: bool): Index
    requires id in x.positions
  {
    var was := x.positions[id];
    var p := was.(payout := was.payout + payout, claimed := was.claimed || settled,
                  refundWithdrawn := was.refundWithdrawn || refund > 0);
    var spent := if settled && !was.claimed then was.accepted else 0;
    x.(positions := x.positions[id := p], agents := Earned(x.agents, was.owner, payout, payout - spent),
       totalClaimed := x.totalClaimed + payout)
  }

  // ------------------------------------------------------------------ handlers

  /** A seed leg: its acceptance is already final, and may already be withdrawn. */
  function Seeded(x: Index, id: PositionId, r: Reading): Index
    requires id in x.positions
  {
    var y := RecordAcceptance(x, id, r.accepted);
    y.(positions := y.positions[id := y.positions[id].(refundWithdrawn := r.refundWithdrawn)])
  }

  /** The entry recorded, in its market and under its vintage. */
  function Filed(x: Index, e: Entry): Index {
    var y := RecordEntry(WithMarket(x, e.market), e);
    y.(positions := y.positions[e.id := y.positions[e.id].(vintage := Some((e.market, e.vintage)))])
  }

  function Grown(v: Vintage, offered: nat): Vintage {
    v.(offered := v.offered + offered, entryCount := v.entryCount + 1)
  }

  /** A buffered entry waits for its vintage. */
  function Buffered(x: Index, e: Entry): Index {
    var v := (e.market, e.vintage);
    var more := Grown(VintageOf(x.vintages, v), e.offered);
    x.(vintages := x.vintages[v := more.(pending := more.pending + [e.id])], openVintage := x.openVintage[e.market := v])
  }

  /** The seed vintage is final at once: what was not accepted was rationed. */
  function Closed(v: Vintage, accepted: nat): Vintage {
    v.(accepted := v.accepted + accepted, rationed := SaturatingSub(v.offered, v.accepted + accepted), finalized := true)
  }

  function SeedFiled(x: Index, e: Entry, read: Option<Reading>): Index
    requires e.id in x.positions
  {
    var v := (e.market, e.vintage);
    var more := Grown(VintageOf(x.vintages, v), e.offered);
    match read
    case Some(r) => var y := Seeded(x, e.id, r); y.(vintages := y.vintages[v := Closed(more, r.accepted)])
    case None => x.(vintages := x.vintages[v := Closed(more, 0)])
  }

  function HandleEntered(x: Index, e: Entry, read: Option<Reading>): Index {
    if e.vintage == 0 then SeedFiled(Filed(x, e), e, read) else Buffered(Filed(x, e), e)
  }

  predicate Readable(x: Index, id: PositionId, answers: Readings) {
    id in x.positions && id in answers
  }

  /** The first n waiting entries accepted, as far as they can be read. */
  function AcceptFirst(x: Index, ids: seq<PositionId>, answers: Readings, n: nat): Index
    requires n <= |ids|
  {
    if n == 0 then x
    else
      var y := AcceptFirst(x, ids, answers, n - 1);
      if Readable(y, ids[n - 1], answers) then RecordAcceptance(y, ids[n - 1], answers[ids[n - 1]].accepted) else y
  }

  function AcceptedFirst(x: Index, ids: seq<PositionId>, answers: Readings, n: nat): nat
    requires n <= |ids|
  {
    if n == 0 then 0
    else
      AcceptedFirst(x, ids, answers, n - 1)
      + if Readable(AcceptFirst(x, ids, answers, n - 1), ids[n - 1], answers) then answers[ids[n - 1]].accepted else 0
  }

  function HandleVintageFinalized(x: Index, m: MarketId, vintage: nat, answers: Readings): Index {
    var v := (m, vintage);
    if m !in x.markets || v !in x.vintages then x
    else
      var was := x.vintages[v];
      var y := AcceptFirst(x, was.pending, answers, |was.pending|);
      var accepted := was.accepted + AcceptedFirst(x, was.pending, answers, |was.pending|);
      y.(vintages := y.vintages[v := was.(accepted := accepted, rationed := SaturatingSub(was.offered, accepted),
                                          finalized := true, pending := [])],
         openVintage := y.openVintage - {m})
  }

  /** flag is the settler's own claimed flag, if the position could be read. */
  function HandleClaimed(x: Index, id: PositionId, payout: nat, refund: nat, flag: Option<bool>): Index {
    if id !in x.positions || x.positions[id].market !in x.markets then x
    else
      RecordSettlement(x, id, payout, refund, Settles(payout, refund, flag))
  }

  predicate Settles(payout: nat, refund: nat, flag: Option<bool>) {
    payout > 0 || refund == 0 || (flag.Some? && flag.value)
  }

  function HandlePositionTransferred(x: Index, id: PositionId, to: Addr, tx: nat): Index {
    if id !in x.positions || x.positions[id].market !in x.markets then x else RecordTransfer(x, id, to, tx)
  }

  // ------------------------------------------------------------------ the same steps in place

  class VenueIndex {
    var agents: Agents
    var links: map<Holding, nat>
    var positions: map<PositionId, Position>
    var days: map<Bucket, DayStat>
    var dayAgents: map<Credit, nat>
    var vintages: map<VintageId, Vintage>
    var markets: set<MarketId>
    var openVintage: map<MarketId, VintageId>
    var heads: map<BookId, nat>
    var marketCount: int
    var positionCount: int
    var totalAccepted: int
    var totalClaimed: int
    var agentCount: int

    function State(): Index
      reads this
    {
      Index(agents, links, positions, days, dayAgents, vintages, markets, openVintage, heads,
            marketCount, positionCount, totalAccepted, totalClaimed, agentCount)
    }

    constructor ()
      ensures State() == EMPTY
    {
      agents, links, positions, days, dayAgents := map[], map[], map[], map[], map[];
      vintages, markets, openVintage, heads := map[], {}, map[], map[];
      marketCount, positionCount, totalAccepted, totalClaimed, agentCount := 0, 0, 0, 0, 0;
    }

    method GetOrCreateMarket(m: MarketId)
      modifies this
      ensures State() == WithMarket(old(State()), m)
    {
      if m in markets { return; }
      markets := markets + {m};
      marketCount := marketCount + 1;
    }

    method GetOrCreateAgent(a: Addr)
      modifies this
      ensures State() == WithAgent(old(State()), a)
    {
      if a in agents { return; }
      agents := agents[a := NEW_AGENT];
      agentCount := agentCount + 1;
    }

    /** One more position of the wallet on its link; only a fresh link enters the market. */
    method AttachAgentToMarket(a: Addr, m: MarketId)
      requires a in agents
      modifies this
      ensures State() == Attach(old(State()), a, m)
    {
      var id := (a, m);
      var held := 0;
      if id in links {
        held := links[id];
        assert agents == Linked(links, agents, id);
      } else {
        agents := agents[a := agents[a].(marketsEntered := agents[a].marketsEntered + 1)];
      }
      links := links[id := held + 1];
    }

    method DetachAgentFromMarket(a: Addr, m: MarketId)
      requires a in agents
      modifies this
      ensures State() == Detach(old(State()), a, m)
    {
      var id := (a, m);
      if id !in links { return; }
      var left := SaturatingSub(links[id], 1);
      if left > 0 {
        links := links[id := left];
        return;
      }
      links := links - {id};
      agents := agents[a := agents[a].(marketsEntered := SaturatingSub(agents[a].marketsEntered, 1))];
    }

    method CountUniqueAgent(b: Bucket, a: Addr)
      modifies this
      ensures State() == CountUnique(old(State()), b, a)
    {
      var id := (b.0, b.1, a);
      var stat := StatOf(days, b);
      var seen := 0;
      if id in dayAgents {
        seen := dayAgents[id];
      } else {
        stat := stat.(uniqueAgents := stat.uniqueAgents + 1);
      }
      days := days[b := stat];
      dayAgents := dayAgents[id := seen + 1];
    }

    method UncountUniqueAgent(b: Bucket, a: Addr)
      modifies this
      ensures State() == UncountUnique(old(State()), b, a)
    {
      var id := (b.0, b.1, a);
      var stat := StatOf(days, b);
      days := days[b := stat];
      if id !in dayAgents { return; }
      var left := SaturatingSub(dayAgents[id], 1);
      if left > 0 {
        dayAgents := dayAgents[id := left];
        return;
      }
      dayAgents := dayAgents - {id};
      days := days[b := stat.(uniqueAgents := SaturatingSub(stat.uniqueAgents, 1))];
    }

    method Enter(e: Entry)
      modifies this
      ensures State() == RecordEntry(old(State()), e)
    {
      hide Charge, Attach, BookBumped, OfferToday, CountUnique;
      OpenPosition(e);
      AttachAgentToMarket(e.owner, e.market);
      BumpBookPositionCount(e.market, e.outcome);
      AddOffer(e);
      CountUniqueAgent((e.market, DayOf(e.timestamp)), e.owner);
      positionCount := positionCount + 1;
    }

    method OpenPosition(e: Entry)
      modifies this
      ensures State() == Charge(old(State()), e) && e.owner in agents
    {
      GetOrCreateAgent(e.owner);
      positions := positions[e.id := NewPosition(e)];
      agents := agents[e.owner := agents[e.owner].(totalOffered := agents[e.owner].totalOffered + e.offered)];
    }

    /** One more position on a book, which may not have been met before. */
    method BumpBookPositionCount(m: MarketId, outcome: nat)
      modifies `heads
      ensures State() == BookBumped(old(State()), m, outcome)
    {
      var held := 0;
      if (m, outcome) in heads { held := heads[(m, outcome)]; }
      heads := heads[(m, outcome) := held + 1];
    }

    method AddOffer(e: Entry)
      modifies this
      ensures State() == OfferToday(old(State()), e)
    {
      var b := (e.market, DayOf(e.timestamp));
      var stat := StatOf(days, b);
      days := days[b := stat.(offered := stat.offered + e.offered, entries := stat.entries + 1)];
    }

    method Accept(id: PositionId, accepted: nat)
      requires id in positions
      modifies this
      ensures State() == RecordAcceptance(old(State()), id, accepted)
    {
      hide DayAccepted;
      var p := positions[id];
      p := p.(accepted := accepted, refused := SaturatingSub(p.offered, accepted), finalized := true);
      positions := positions[id := p];
      if p.owner in agents {
        agents := agents[p.owner := agents[p.owner].(totalAccepted := agents[p.owner].totalAccepted + accepted)];
      }
      AcceptOffer(p);
      totalAccepted := totalAccepted + accepted;
    }

    method AcceptOffer(p: Position)
      modifies `days
      ensures days == DayAccepted(old(days), Row(p, p.owner, p.owner))
    {
      var b := (p.market, DayOf(p.createdAt));
      var stat := StatOf(days, b);
      days := days[b := stat.(accepted := stat.accepted + p.accepted, rationed := stat.rationed + p.refused)];
    }

    method DropConduitAgent(a: Addr)
      requires a in agents
      modifies this
      ensures State() == DropConduit(old(State()), a)
    {
      var agent := agents[a];
      if agent.totalOffered > 0 || agent.totalAccepted > 0 { return; }
      if agent.totalClaimed > 0 || agent.realizedPnl != 0 { return; }
      if agent.marketsEntered > 0 { return; }
      if !HoldsNothing(State(), a) { return; }
      agents := agents - {a};
      agentCount := SaturatingSub(agentCount, 1);
    }

    method Transfer(id: PositionId, to: Addr, tx: nat)
      requires id in positions
      modifies this
      ensures State() == RecordTransfer(old(State()), id, to, tx)
    {
      GetOrCreateAgent(to);
      var p := positions[id];
      if to == p.owner { return; }
      var sender := p.owner;
      positions := positions[id := p.(owner := to)];
      AttachAgentToMarket(to, p.market);
      if sender !in agents { return; }
      DetachAgentFromMarket(sender, p.market);
      if p.createdTx != tx { return; }
      MoveCredit(id, sender, to);
      DropConduitAgent(sender);
    }

    method MoveCredit(id: PositionId, sender: Addr, to: Addr)
      requires id in positions && sender in agents && to in agents
      modifies this
      ensures State() == Credited(old(State()), id, sender, to)
    {
      var p := positions[id];
      agents := agents[sender := agents[sender].(
        totalOffered := SaturatingSub(agents[sender].totalOffered, p.offered),
        totalAccepted := SaturatingSub(agents[sender].totalAccepted, p.accepted))];
      agents := agents[to := agents[to].(
        totalOffered := agents[to].totalOffered + p.offered, totalAccepted := agents[to].totalAccepted + p.accepted)];
      var b := (p.market, DayOf(p.createdAt));
      UncountUniqueAgent(b, sender);
      CountUniqueAgent(b, to);
    }

    method Settle(id: PositionId, payout: nat, refund: nat, settled: bool)
      requires id in positions
      modifies this
      ensures State() == RecordSettlement(old(State()), id, payout, refund, settled)
    {
      hide Earned;
      var p := positions[id];
      var owner := p.owner;
      EarnedTwice(agents, owner, payout, payout, -p.accepted);
      if refund > 0 { p := p.(refundWithdrawn := true); }
      if payout > 0 {
        p := p.(payout := p.payout + payout);
        totalClaimed := totalClaimed + payout;
        agents := Earned(agents, owner, payout, payout);
      }
      if settled && !p.claimed {
        p := p.(claimed := true);
        agents := Earned(agents, owner, 0, -p.accepted);
      }
      positions := positions[id := p];
    }

    method File(e: Entry)
      modifies this
      ensures State() == Filed(old(State()), e)
    {
      GetOrCreateMarket(e.market);
      Enter(e);
      positions := positions[e.id := positions[e.id].(vintage := Some((e.market, e.vintage)))];
    }

    method OnEntered(e: Entry, read: Option<Reading>)
      modifies this
      ensures State() == HandleEntered(old(State()), e, read)
    {
      File(e);
      if e.vintage == 0 { CloseSeed(e, read); } else { Buffer(e); }
    }

    method CloseSeed(e: Entry, read: Option<Reading>)
      requires e.id in positions
      modifies this
      ensures State() == SeedFiled(old(State()), e, read)
    {
      var v := (e.market, e.vintage);
      var vintage := VintageOf(vintages, v);
      vintage := vintage.(offered := vintage.offered + e.offered, entryCount := vintage.entryCount + 1);
      if read.Some? {
        Seed(e.id, read.value);
        vintage := vintage.(accepted := vintage.accepted + read.value.accepted);
      }
      vintage := vintage.(rationed := SaturatingSub(vintage.offered, vintage.accepted), finalized := true);
      vintages := vintages[v := vintage];
    }

    method Buffer(e: Entry)
      modifies this
      ensures State() == Buffered(old(State()), e)
    {
      var v := (e.market, e.vintage);
      var vintage := VintageOf(vintages, v);
      vintage := vintage.(offered := vintage.offered + e.offered, entryCount := vintage.entryCount + 1);
      vintage := vintage.(pending := vintage.pending + [e.id]);
      openVintage := openVintage[e.market := v];
      vintages := vintages[v := vintage];
    }

    method Seed(id: PositionId, r: Reading)
      requires id in positions
      modifies this
      ensures State() == Seeded(old(State()), id, r)
    {
      Accept(id, r.accepted);
      positions := positions[id := positions[id].(refundWithdrawn := r.refundWithdrawn)];
    }

    method OnVintageFinalized(m: MarketId, block: nat, answers: Readings)
      modifies this
      ensures State() == HandleVintageFinalized(old(State()), m, block, answers)
    {
      var v := (m, block);
      if m !in markets || v !in vintages { return; }
      var vintage := vintages[v];
      var pending := vintage.pending;
      var accepted, i := 0, 0;
      while i < |pending|
        invariant 0 <= i <= |pending|
        invariant State() == AcceptFirst(old(State()), pending, answers, i)
        invariant accepted == AcceptedFirst(old(State()), pending, answers, i)
      {
        var id := pending[i];
        if id in positions && id in answers {
          Accept(id, answers[id].accepted);
          accepted := accepted + answers[id].accepted;
        }
        i := i + 1;
      }
      accepted := vintage.accepted + accepted;
      vintages := vintages[v := vintage.(accepted := accepted, rationed := SaturatingSub(vintage.offered, accepted),
                                         finalized := true, pending := [])];
      openVintage := openVintage - {m};
    }

    method OnClaimed(id: PositionId, payout: nat, refund: nat, flag: Option<bool>)
      modifies this
      ensures State() == HandleClaimed(old(State()), id, payout, refund, flag)
    {
      if id !in positions || positions[id].market !in markets { return; }
      var settled := payout > 0 || refund == 0;
      if !settled && flag.Some? { settled := flag.value; }
      Settle(id, payout, refund, settled);
    }

    method OnPositionTransferred(id: PositionId, to: Addr, tx: nat)
      modifies this
      ensures State() == HandlePositionTransferred(old(State()), id, to, tx)
    {
      if id !in positions || positions[id].market !in markets { return; }
      Transfer(id, to, tx);
    }
  }
}
