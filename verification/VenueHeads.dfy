/** The head count of every book of the venue index: the positions taken on it. */
module VenueHeads {
  import opened Numbers
  import opened Tallies
  import opened VenueLedger
  import opened VenueAgreement
  import opened VenueIndexes
  import opened VenueRuns

  const BOOK_OF: Position -> BookId := (p: Position) => (p.market, p.outcome)

  /** Each book's head count is the number of positions on it, and a book without one has none. */
  ghost predicate HeadsAgree(x: Index) {
    Counts(x.heads, x.positions, BOOK_OF)
  }

  /** The same positions on the same books, and the same counts. */
  ghost predicate SamePlaces(x: Index, y: Index) {
    && y.heads == x.heads && y.positions.Keys == x.positions.Keys
    && forall id :: id in x.positions ==> BOOK_OF(y.positions[id]) == BOOK_OF(x.positions[id])
  }

  lemma SamePlacesAgree(x: Index, y: Index)
    requires HeadsAgree(x) && SamePlaces(x, y)
    ensures HeadsAgree(y)
  {
    forall k ensures Get(y.heads, k) == Sum(y.positions, Keyed(BOOK_OF, k)) {
      SumAgree(x.positions, y.positions, Keyed(BOOK_OF, k), Keyed(BOOK_OF, k));
    }
  }

  lemma SamePlacesTrans(x: Index, y: Index, z: Index)
    requires SamePlaces(x, y) && SamePlaces(y, z)
    ensures SamePlaces(x, z)
  {
  }

  lemma AcceptanceStays(x: Index, id: PositionId, accepted: nat)
    requires id in x.positions
    ensures SamePlaces(x, RecordAcceptance(x, id, accepted))
  {
  }

  lemma {:induction false} AcceptFirstStays(x: Index, ids: seq<PositionId>, answers: Readings, n: nat)
    requires n <= |ids|
    ensures SamePlaces(x, AcceptFirst(x, ids, answers, n))
  {
    hide RecordAcceptance;
    if n > 0 {
      AcceptFirstStays(x, ids, answers, n - 1);
      var y := AcceptFirst(x, ids, answers, n - 1);
      if Readable(y, ids[n - 1], answers) {
        AcceptanceStays(y, ids[n - 1], answers[ids[n - 1]].accepted);
        SamePlacesTrans(x, y, AcceptFirst(x, ids, answers, n));
      }
    }
  }

  lemma FinalizationStays(x: Index, m: MarketId, vintage: nat, answers: Readings)
    ensures SamePlaces(x, HandleVintageFinalized(x, m, vintage, answers))
  {
    var v := (m, vintage);
    if m in x.markets && v in x.vintages { AcceptFirstStays(x, x.vintages[v].pending, answers, |x.vintages[v].pending|); }
  }

  lemma SettlementStays(x: Index, id: PositionId, payout: nat, refund: nat, settled: bool)
    requires id in x.positions
    ensures SamePlaces(x, RecordSettlement(x, id, payout, refund, settled))
  {
    hide Earned;
  }

  /** y differs from x neither in its positions nor in its head counts. */
  ghost predicate Untouched(x: Index, y: Index) {
    y.positions == x.positions && y.heads == x.heads
  }

  lemma AttachStays(x: Index, a: Addr, m: MarketId)
    requires a in x.agents
    ensures Untouched(x, Attach(x, a, m)) && Untouched(x, Detach(x, a, m))
  {
    hide Linked, Detached, Incr, Decr;
  }

  lemma CreditedStays(x: Index, id: PositionId, from: Addr, to: Addr)
    requires id in x.positions && from in x.agents && to in x.agents
    ensures Untouched(x, Credited(x, id, from, to))
  {
    hide Moved, DayDropped, DayCounted, Incr, Decr;
  }

  lemma DropStays(x: Index, a: Addr)
    requires a in x.agents
    ensures Untouched(x, DropConduit(x, a))
  {
    hide HoldsNothing;
  }

  lemma ResoldStays(x: Index, id: PositionId, from: Addr, to: Addr)
    requires id in x.positions && from in x.agents && to in x.agents
    ensures Untouched(x.(positions := x.positions[id := x.positions[id].(owner := to)]), Resold(x, id, from, to))
  {
    hide Attach, Detach;
    var (p, y) := (x.positions[id], x.(positions := x.positions[id := x.positions[id].(owner := to)]));
    AttachStays(y, to, p.market);
    AttachedKnows(y, to, p.market, from);
    AttachStays(Attach(y, to, p.market), from, p.market);
  }

  lemma AttachedKnows(x: Index, a: Addr, m: MarketId, b: Addr)
    requires a in x.agents && b in x.agents
    ensures b in Attach(x, a, m).agents
  {
  }

  lemma NewOwnerStays(x: Index, id: PositionId, to: Addr)
    requires id in x.positions
    ensures SamePlaces(x, x.(positions := x.positions[id := x.positions[id].(owner := to)]))
  {
  }

  lemma AgentStays(x: Index, a: Addr)
    ensures Untouched(x, WithAgent(x, a)) && a in WithAgent(x, a).agents
  {
  }

  /** A transfer changes who holds a position and not where it stands. */
  lemma TransferStays(x: Index, id: PositionId, to: Addr, tx: nat)
    requires id in x.positions
    ensures SamePlaces(x, RecordTransfer(x, id, to, tx))
  {
    hide WithAgent, Attach, Resold, Credited, DropConduit;
    AgentStays(x, to);
    var known := WithAgent(x, to);
    var p := known.positions[id];
    var moved := known.(positions := known.positions[id := p.(owner := to)]);
    NewOwnerStays(known, id, to);
    if to == p.owner {
    } else if p.owner !in known.agents {
      AttachStays(moved, to, p.market);
    } else {
      var left := Resold(known, id, p.owner, to);
      ResoldStays(known, id, p.owner, to);
      if p.createdTx == tx {
        CreditedStays(left, id, p.owner, to);
        DropStays(Credited(left, id, p.owner, to), p.owner);
      }
    }
  }

  lemma SeedStays(x: Index, e: Entry, read: Option<Reading>)
    requires e.id in x.positions
    ensures SamePlaces(x, SeedFiled(x, e, read))
  {
    hide Closed, Grown;
  }

  /** A new position is one more head on its book. */
  lemma EntryAddsHead(x: Index, e: Entry)
    requires HeadsAgree(x) && e.id !in x.positions
    ensures HeadsAgree(Filed(x, e)) && e.id in Filed(x, e).positions
  {
    hide Counts, Filed;
    FiledFields(x, e);
    CountsAdd(x.heads, x.positions, BOOK_OF, e.id, EnteredRow(e).p);
  }

  lemma EventKeepsHeads(x: Index, ev: Event)
    requires HeadsAgree(x) && (ev.Entered? ==> ev.e.id !in x.positions)
    ensures HeadsAgree(Handle(x, ev))
  {
    hide HeadsAgree, SamePlaces, RecordSettlement, RecordTransfer, HandleVintageFinalized, Filed, SeedFiled;
    match ev
    case Created(m) => OpeningStays(x, m);
    case Entered(e, read) =>
      EntryAddsHead(x, e);
      var y := Filed(x, e);
      if e.vintage == 0 {
        SeedStays(y, e, read);
        SamePlacesAgree(y, SeedFiled(y, e, read));
      } else {
        BufferStays(y, e);
        SamePlacesAgree(y, Buffered(y, e));
      }
    case Finalized(m, vintage, answers) =>
      FinalizationStays(x, m, vintage, answers);
      SamePlacesAgree(x, HandleVintageFinalized(x, m, vintage, answers));
    case Claimed(id, payout, refund, flag) =>
      if id in x.positions && x.positions[id].market in x.markets {
        SettlementStays(x, id, payout, refund, Settles(payout, refund, flag));
        SamePlacesAgree(x, RecordSettlement(x, id, payout, refund, Settles(payout, refund, flag)));
      }
    case Transferred(id, to, tx) =>
      if id in x.positions && x.positions[id].market in x.markets {
        TransferStays(x, id, to, tx);
        SamePlacesAgree(x, RecordTransfer(x, id, to, tx));
      }
  }

  lemma OpeningStays(x: Index, m: MarketId)
    requires HeadsAgree(x)
    ensures HeadsAgree(WithMarket(x, m))
  {
  }

  lemma BufferStays(x: Index, e: Entry)
    ensures SamePlaces(x, Buffered(x, e))
  {
  }

  lemma {:induction false} RunKeepsHeads(v: Venue, es: seq<Event>)
    requires HeadsAgree(v.x) && CanRun(v, es)
    ensures HeadsAgree(RunFrom(v, es).x)
    decreases |es|
  {
    hide HeadsAgree, Handle;
    if es != [] {
      EventKeepsHeads(v.x, es[0]);
      NextIndex(v, es[0]);
      RunKeepsHeads(Next(v, es[0]), es[1..]);
    }
  }

  lemma NextIndex(v: Venue, ev: Event)
    ensures Next(v, ev).x == Handle(v.x, ev)
  {
  }

  /** After any run of events that can happen, every book counts the positions taken on it. */
  lemma HeadsAreCounted(es: seq<Event>)
    requires CanRun(START, es)
    ensures HeadsAgree(RunFrom(START, es).x)
  {
    RunKeepsHeads(START, es);
  }
}
