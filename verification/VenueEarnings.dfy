/** What each wallet has been paid and has realized, told from the claims on the positions it owned
    when they were made. */
module VenueEarnings {
  import opened Numbers
  import opened Tallies
  import opened VenueLedger
  import opened VenueAgreement
  import opened VenueIndexes
  import opened VenueRuns
  import opened VenueReports
  import opened VenueHistory

  // ------------------------------------------------------------------ what the claims come to

  /** Claim ev on position p when wallet a owned it. */
  predicate ClaimedBy(x: Index, ev: Event, a: Addr) {
    ev.Claimed? && ev.id in x.positions && x.positions[ev.id].owner == a
  }

  /** What the claim took off as principal: what was accepted, with the first claim that settles. */
  function Principal(x: Index, ev: Event): int
    requires ev.Claimed? && ev.id in x.positions
  {
    if Settling(ev, ev.id) && !x.positions[ev.id].claimed then x.positions[ev.id].accepted else 0
  }

  /** What the first n events paid wallet a. */
  function PaidTo(es: seq<Event>, n: nat, a: Addr): int
    requires n <= |es|
  {
    if n == 0 then 0
    else PaidTo(es, n - 1, a) + if ClaimedBy(At(es, n - 1).x, es[n - 1], a) then es[n - 1].payout else 0
  }

  /** The same less the principal of what settled in its hands. */
  function RealizedBy(es: seq<Event>, n: nat, a: Addr): int
    requires n <= |es|
  {
    if n == 0 then 0
    else
      var x, ev := At(es, n - 1).x, es[n - 1];
      RealizedBy(es, n - 1, a) + if ClaimedBy(x, ev, a) then ev.payout - Principal(x, ev) else 0
  }

  // ------------------------------------------------------------------ what moves no earnings

  /** No wallet's earnings differ, a wallet not listed having none. */
  ghost predicate SameEarnings(agents: Agents, e: Agents) {
    forall a :: SameOf(agents, e, a)
  }

  ghost predicate SameOf(agents: Agents, e: Agents, a: Addr) {
    && AgentOf(e, a).totalClaimed == AgentOf(agents, a).totalClaimed
    && AgentOf(e, a).realizedPnl == AgentOf(agents, a).realizedPnl
  }

  lemma SameThrough(agents: Agents, f: Agents, e: Agents)
    requires SameEarnings(agents, f) && SameEarnings(f, e)
    ensures SameEarnings(agents, e)
  {
    forall a ensures SameOf(agents, e, a) { assert SameOf(agents, f, a) && SameOf(f, e, a); }
  }

  lemma ListingEarns(x: Index, a: Addr)
    ensures SameEarnings(x.agents, WithAgent(x, a).agents)
  {
  }

  lemma OfferEarns(agents: Agents, links: map<Holding, nat>, h: Holding, offered: int)
    requires h.0 in agents
    ensures SameEarnings(agents, AddOffered(agents, h.0, offered)) && SameEarnings(agents, AddAccepted(agents, h.0, offered))
    ensures SameEarnings(agents, Linked(links, agents, h)) && SameEarnings(agents, Detached(links, agents, h))
  {
  }

  lemma EntryEarns(x: Index, e: Entry, read: Option<Reading>)
    ensures SameEarnings(x.agents, HandleEntered(x, e, read).agents)
  {
    hide Filed, SameEarnings, AddOffered, AddAccepted, Linked;
    var known := Ensured(x.agents, e.owner);
    EnsuredEarns(x.agents, e.owner);
    FiledFields(x, e);
    OfferEarns(known, x.links, (e.owner, e.market), e.offered);
    var offered := AddOffered(known, e.owner, e.offered);
    OfferedListed(known, e.owner, e.offered);
    OfferEarns(offered, x.links, (e.owner, e.market), 0);
    var filed := Filed(x, e).agents;
    SameThrough(x.agents, known, offered);
    SameThrough(x.agents, offered, filed);
    if e.vintage == 0 && read.Some? {
      AcceptanceEarns(Filed(x, e), e.id, read.value.accepted);
      SameThrough(x.agents, filed, HandleEntered(x, e, read).agents);
    }
  }

  lemma OfferedListed(agents: Agents, a: Addr, offered: int)
    requires a in agents
    ensures a in AddOffered(agents, a, offered)
  {
  }

  lemma EnsuredEarns(agents: Agents, a: Addr)
    ensures SameEarnings(agents, Ensured(agents, a)) && a in Ensured(agents, a)
  {
  }

  lemma AcceptanceEarns(x: Index, id: PositionId, accepted: nat)
    requires id in x.positions
    ensures SameEarnings(x.agents, RecordAcceptance(x, id, accepted).agents)
  {
  }

  lemma {:induction false} AcceptFirstEarns(x: Index, ids: seq<PositionId>, answers: Readings, n: nat)
    requires n <= |ids|
    ensures SameEarnings(x.agents, AcceptFirst(x, ids, answers, n).agents)
    decreases n
  {
    hide SameEarnings, RecordAcceptance;
    if n > 0 {
      var y := AcceptFirst(x, ids, answers, n - 1);
      AcceptFirstEarns(x, ids, answers, n - 1);
      if Readable(y, ids[n - 1], answers) {
        AcceptanceEarns(y, ids[n - 1], answers[ids[n - 1]].accepted);
        SameThrough(x.agents, y.agents, AcceptFirst(x, ids, answers, n).agents);
      }
    } else {
      StillEarns(x.agents);
    }
  }

  lemma StillEarns(agents: Agents)
    ensures SameEarnings(agents, agents)
  {
  }

  lemma FinalizedEarns(x: Index, m: MarketId, vintage: nat, answers: Readings)
    ensures SameEarnings(x.agents, HandleVintageFinalized(x, m, vintage, answers).agents)
  {
    hide AcceptFirst, SameEarnings;
    StillEarns(x.agents);
    if m in x.markets && (m, vintage) in x.vintages {
      AcceptFirstEarns(x, x.vintages[(m, vintage)].pending, answers, |x.vintages[(m, vintage)].pending|);
    }
  }

  // ------------------------------------------------------------------ transfers

  lemma AttachEarns(x: Index, a: Addr, m: MarketId)
    requires a in x.agents
    ensures SameEarnings(x.agents, Attach(x, a, m).agents) && SameEarnings(x.agents, Detach(x, a, m).agents)
  {
    OfferEarns(x.agents, x.links, (a, m), 0);
  }

  lemma ResoldEarns(x: Index, id: PositionId, from: Addr, to: Addr)
    requires id in x.positions && from in x.agents && to in x.agents
    ensures SameEarnings(x.agents, Resold(x, id, from, to).agents)
  {
    hide Attach, Detach, SameEarnings;
    var p := x.positions[id];
    var y := x.(positions := x.positions[id := p.(owner := to)]);
    AttachEarns(y, to, p.market);
    AttachListed(y, to, p.market, from);
    AttachEarns(Attach(y, to, p.market), from, p.market);
    SameThrough(x.agents, Attach(y, to, p.market).agents, Resold(x, id, from, to).agents);
  }

  lemma AttachListed(x: Index, a: Addr, m: MarketId, b: Addr)
    requires a in x.agents && b in x.agents
    ensures b in Attach(x, a, m).agents
  {
  }

  lemma CreditedEarns(x: Index, id: PositionId, from: Addr, to: Addr)
    requires id in x.positions && from in x.agents && to in x.agents
    ensures SameEarnings(x.agents, Credited(x, id, from, to).agents)
  {
    hide DayDropped, DayCounted;
  }

  /** A wallet that is delisted had no earnings, if none are below zero. */
  lemma DropEarns(x: Index, a: Addr)
    requires a in x.agents && x.agents[a].totalClaimed >= 0
    ensures SameEarnings(x.agents, DropConduit(x, a).agents)
  {
    hide HoldsNothing;
  }

  lemma TransferEarns(x: Index, id: PositionId, to: Addr, tx: nat)
    requires id in x.positions && NothingOwed(x.agents)
    ensures SameEarnings(x.agents, RecordTransfer(x, id, to, tx).agents)
  {
    hide SameEarnings, WithAgent, Attach, Resold, Credited, DropConduit;
    var known := WithAgent(x, to);
    ListingEarns(x, to);
    KnownListed(x, to);
    var p := known.positions[id];
    if to != p.owner {
      if p.owner !in known.agents {
        AttachEarns(known.(positions := known.positions[id := p.(owner := to)]), to, p.market);
        SameThrough(x.agents, known.agents, RecordTransfer(x, id, to, tx).agents);
      } else {
        var left := Resold(known, id, p.owner, to);
        ResoldEarns(known, id, p.owner, to);
        SameThrough(x.agents, known.agents, left.agents);
        if p.createdTx == tx {
          CreditedEarns(left, id, p.owner, to);
          var credited := Credited(left, id, p.owner, to);
          SameThrough(x.agents, left.agents, credited.agents);
          NotOwed(x.agents, credited.agents, p.owner);
          DropEarns(credited, p.owner);
          SameThrough(x.agents, credited.agents, RecordTransfer(x, id, to, tx).agents);
        }
      }
    }
  }

  lemma NotOwed(agents: Agents, e: Agents, a: Addr)
    requires NothingOwed(agents) && SameEarnings(agents, e) && a in e
    ensures e[a].totalClaimed >= 0
  {
    assert SameOf(agents, e, a);
  }

  lemma KnownListed(x: Index, a: Addr)
    ensures var y := WithAgent(x, a); a in y.agents && y.positions == x.positions && y.markets == x.markets
  {
  }

  // ------------------------------------------------------------------ claims

  /** A claim pays the wallet that owns the position and nobody else. */
  lemma ClaimEarns(x: Index, rows: Rows, now: nat, ev: Event, a: Addr)
    requires Core(x, rows, now) && ev.Claimed?
    ensures var g, h := AgentOf(x.agents, a), AgentOf(Handle(x, ev).agents, a);
            && h.totalClaimed == g.totalClaimed + (if ClaimedBy(x, ev, a) then ev.payout else 0)
            && h.realizedPnl == g.realizedPnl + if ClaimedBy(x, ev, a) then ev.payout - Principal(x, ev) else 0
  {
    hide RowsOk, MoneyOk, LinksOk, DaysOk, Counters;
    if ev.id in x.positions {
      RowsAre(x, rows, now);
      OwnersListed(x, rows, now);
    }
  }

  lemma OtherEarns(x: Index, ev: Event, a: Addr)
    requires !ev.Claimed? && NothingOwed(x.agents)
    ensures SameOf(x.agents, Handle(x, ev).agents, a)
  {
    hide HandleEntered, HandleVintageFinalized, RecordTransfer;
    match ev
    case Created(m) => StillEarns(x.agents);
    case Entered(e, read) => EntryEarns(x, e, read);
    case Finalized(m, vintage, answers) => FinalizedEarns(x, m, vintage, answers);
    case Transferred(id, to, tx) =>
      StillEarns(x.agents);
      if id in x.positions { TransferEarns(x, id, to, tx); }
  }

  /** In every reachable state a wallet's totalClaimed is what was paid on positions while it owned
      them, and its realizedPnl that less the principal of those that settled in its hands, once
      each; a wallet the index no longer lists has neither. */
  lemma {:induction false} EarnedExactly(es: seq<Event>, n: nat, a: Addr)
    requires Reached(es) && n <= |es|
    ensures var g := AgentOf(At(es, n).x.agents, a);
            g.totalClaimed == PaidTo(es, n, a) && g.realizedPnl == RealizedBy(es, n, a)
    decreases n
  {
    hide At, CanRun, Core, Handle, SameOf, Principal, ClaimedBy;
    if n == 0 {
      NothingAtFirst(es);
    } else {
      EarnedExactly(es, n - 1, a);
      Step(es, n - 1);
      var v, ev := At(es, n - 1), es[n - 1];
      StepEarns(v, ev, a);
    }
  }

  lemma StepEarns(v: Venue, ev: Event, a: Addr)
    requires Agrees(v.x, v.rows, v.now)
    ensures var g, h := AgentOf(v.x.agents, a), AgentOf(Next(v, ev).x.agents, a);
            && h.totalClaimed == g.totalClaimed + (if ClaimedBy(v.x, ev, a) then ev.payout else 0)
            && h.realizedPnl == g.realizedPnl + if ClaimedBy(v.x, ev, a) then ev.payout - Principal(v.x, ev) else 0
  {
    hide Handle, Principal, Books, RowsOk, LinksOk, DaysOk, Counters, Stored, MoneyAgrees, Conserved;
    if ev.Claimed? { ClaimEarns(v.x, v.rows, v.now, ev, a); } else { OtherEarns(v.x, ev, a); }
  }

  /** And what it has at risk and has been accepted is the sum over the positions credited to it. */
  lemma StakedExactly(es: seq<Event>, n: nat, a: Addr)
    requires Reached(es) && n <= |es|
    ensures var v := At(es, n);
            var g := AgentOf(v.x.agents, a);
            && g.totalOffered == Sum(v.rows, OfferedBy(a)) && g.totalAccepted == Sum(v.rows, AcceptedBy(a))
  {
    hide At, CanRun, Sum, Books, RowsOk, LinksOk, DaysOk, Counters, Stored, Conserved, NothingOwed;
    Held(es, n);
    var v := At(es, n);
    assert CreditAgrees(AgentOf(v.x.agents, a), v.rows, a);
  }

  // ------------------------------------------------------------------ conduits

  /** Nothing to its name and nothing in its hands. */
  ghost predicate Idle(x: Index, a: Addr) {
    AgentOf(x.agents, a) == Agent(0, 0, 0, 0, 0) && forall id :: id in x.positions ==> x.positions[id].owner != a
  }

  lemma DropIs(x: Index, rows: Rows, now: nat, a: Addr)
    requires Core(x, rows, now) && a in x.agents
    ensures a !in DropConduit(x, a).agents <==> Idle(DropConduit(x, a), a)
  {
    hide RowsOk, MoneyOk, LinksOk, DaysOk, Stored, Counters, DropConduit;
    ConduitIsNew(x, rows, now, a);
  }

  lemma HandOverDrops(x: Index, rows: Rows, now: nat, id: PositionId, to: Addr, tx: nat)
    requires Core(x, rows, now) && id in rows && now <= tx && rows[id].p.createdTx == tx && rows[id].p.owner != to
    ensures var from, y := rows[id].p.owner, RecordTransfer(x, id, to, tx);
            id in x.positions && (from !in y.agents <==> Idle(y, from))
  {
    hide Core, Resold, Credited, DropConduit, Idle, RowOk, Attach, AddOffered, Ensured, TransferredRow;
    var from, known := rows[id].p.owner, WithAgent(x, to);
    AgentKeeps(x, rows, now, to, tx);
    KnownRow(known, rows, tx, id);
    HandOverKeeps(known, rows, tx, id, to);
    DropIs(Credited(Resold(known, id, from, to), id, from, to), rows[id := Row(rows[id].p.(owner := to), to, to)], tx, from);
  }

  /** A wallet that hands a position on inside the transaction that opened it is delisted if and only
      if that leaves it with nothing: no stake, no earnings, no market and no position. */
  lemma ConduitsGo(es: seq<Event>, n: nat)
    requires Reached(es) && n < |es| && es[n].Transferred? && es[n].id in At(es, n).x.positions
    requires At(es, n).x.positions[es[n].id].createdTx == es[n].tx && At(es, n).x.positions[es[n].id].owner != es[n].to
    ensures var from, y := At(es, n).x.positions[es[n].id].owner, At(es, n + 1).x;
            from !in y.agents <==> Idle(y, from)
  {
    hide At, CanRun, Core, RecordTransfer, Idle, Books;
    var v, ev := At(es, n), es[n];
    Step(es, n);
    RowsAre(v.x, v.rows, v.now);
    HandOverDrops(v.x, v.rows, v.now, ev.id, ev.to, ev.tx);
  }
}
