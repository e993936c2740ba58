/** What every stored position and wallet says about the events that came before, told from the
    events alone: who holds a position and who put it at risk, what it was paid, whether it has
    settled, what was accepted of it, and what each wallet has realized. */
module VenueHistory {
  import opened Numbers
  import opened VenueLedger
  import opened VenueAgreement
  import opened VenueIndexes
  import opened VenueRuns
  import opened VenueReports

  // ------------------------------------------------------------------ a run, event by event

  /** The venue after the first n events. */
  function At(es: seq<Event>, n: nat): Venue
    requires n <= |es|
  {
    RunFrom(START, es[..n])
  }

  lemma {:induction false} RunOn(v: Venue, es: seq<Event>, ev: Event)
    ensures RunFrom(v, es + [ev]) == Next(RunFrom(v, es), ev)
    ensures CanRun(v, es + [ev]) <==> CanRun(v, es) && CanHappen(RunFrom(v, es), ev)
    decreases |es|
  {
    hide Next, CanHappen;
    if es == [] {
      assert ([] + [ev])[1..] == [];
    } else {
      RunOn(Next(v, es[0]), es[1..], ev);
      assert (es + [ev])[1..] == es[1..] + [ev];
    }
  }

  lemma {:induction false} PrefixRuns(es: seq<Event>, n: nat)
    requires Reached(es) && n <= |es|
    ensures Reached(es[..n])
    decreases |es| - n
  {
    hide CanRun;
    if n == |es| {
      assert es[..n] == es;
    } else {
      PrefixRuns(es, n + 1);
      RunOn(START, es[..n], es[n]);
      assert es[..n + 1] == es[..n] + [es[n]];
    }
  }

  lemma Step(es: seq<Event>, n: nat)
    requires Reached(es) && n < |es|
    ensures CanHappen(At(es, n), es[n]) && At(es, n + 1) == Next(At(es, n), es[n])
    ensures var v := At(es, n); Agrees(v.x, v.rows, v.now)
  {
    hide CanRun, CanHappen, Next, Agrees;
    PrefixRuns(es, n);
    PrefixRuns(es, n + 1);
    RunOn(START, es[..n], es[n]);
    assert es[..n + 1] == es[..n] + [es[n]];
    ReachedAgrees(es[..n]);
  }

  lemma Held(es: seq<Event>, n: nat)
    requires Reached(es) && n <= |es|
    ensures var v := At(es, n); Agrees(v.x, v.rows, v.now)
  {
    hide CanRun, CanHappen, Next, Agrees;
    PrefixRuns(es, n);
    ReachedAgrees(es[..n]);
  }

  // ------------------------------------------------------------------ what happened to a position

  predicate Enters(ev: Event, id: PositionId) {
    ev.Entered? && ev.e.id == id
  }

  predicate Claims(ev: Event, id: PositionId) {
    ev.Claimed? && ev.id == id
  }

  /** A claim that can only be the settling one: it paid something, or refunded nothing; or one of
      which the settler says that the position is claimed. */
  predicate Settling(ev: Event, id: PositionId) {
    Claims(ev, id) && (ev.payout > 0 || ev.refund == 0 || ev.flag == Some(true))
  }

  predicate Moves(ev: Event, id: PositionId) {
    ev.Transferred? && ev.id == id
  }

  /** The vintage of entry e is closed. */
  predicate Closes(ev: Event, e: Entry) {
    ev.Finalized? && ev.m == e.market && ev.vintage == e.vintage
  }

  ghost predicate Settled(es: seq<Event>, k: nat, n: nat, id: PositionId)
    requires n <= |es|
  {
    exists j :: k < j < n && Settling(es[j], id)
  }

  ghost predicate Refunded(es: seq<Event>, k: nat, n: nat, id: PositionId)
    requires n <= |es|
  {
    exists j :: k < j < n && Claims(es[j], id) && es[j].refund > 0
  }

  /** All that claims after event k paid. */
  function PaidAfter(es: seq<Event>, k: nat, n: nat, id: PositionId): int
    requires n <= |es|
    decreases n
  {
    if n <= k + 1 then 0
    else PaidAfter(es, k, n - 1, id) + if Claims(es[n - 1], id) then es[n - 1].payout else 0
  }

  /** Where the transfers after event k have left the position. */
  function HolderAfter(es: seq<Event>, k: nat, n: nat, id: PositionId, first: Addr): Addr
    requires n <= |es|
    decreases n
  {
    if n <= k + 1 then first
    else if Moves(es[n - 1], id) then es[n - 1].to
    else HolderAfter(es, k, n - 1, id, first)
  }

  /** Where the transfers of its opening transaction left it. */
  function StakerAfter(es: seq<Event>, k: nat, n: nat, id: PositionId, first: Addr, tx: nat): Addr
    requires n <= |es|
    decreases n
  {
    if n <= k + 1 then first
    else if Moves(es[n - 1], id) && es[n - 1].tx == tx then es[n - 1].to
    else StakerAfter(es, k, n - 1, id, first, tx)
  }

  /** What was accepted of the entry: of a seed leg what was read when it was entered, of any other
      what the first closing of its vintage read, if anything. */
  function AcceptedAfter(es: seq<Event>, k: nat, n: nat): Option<nat>
    requires n <= |es| && k < |es| && es[k].Entered?
    decreases n
  {
    var e := es[k].e;
    if e.vintage == 0 then (match es[k].read case None => None case Some(r) => Some(r.accepted))
    else if n <= k + 1 then None
    else
      var before := AcceptedAfter(es, k, n - 1);
      if Closes(es[n - 1], e) && !AnyCloses(es, k, n - 1, e) && e.id in es[n - 1].answers
      then Some(es[n - 1].answers[e.id].accepted)
      else before
  }

  /** Who was credited with what was accepted: whoever owned the position when that was read, or
      whoever the opening transaction went on to give it to. */
  function AcceptorAfter(es: seq<Event>, k: nat, n: nat): Addr
    requires n <= |es| && k < |es| && es[k].Entered?
    decreases n
  {
    var e := es[k].e;
    if n <= k + 1 then e.owner
    else if Moves(es[n - 1], e.id) && es[n - 1].tx == e.tx then es[n - 1].to
    else if e.vintage != 0 && Closes(es[n - 1], e) && !AnyCloses(es, k, n - 1, e) && e.id in es[n - 1].answers
    then HolderAfter(es, k, n - 1, e.id, e.owner)
    else AcceptorAfter(es, k, n - 1)
  }

  predicate AnyCloses(es: seq<Event>, k: nat, n: nat, e: Entry)
    requires n <= |es|
  {
    exists j | k < j < n :: Closes(es[j], e)
  }

  // ------------------------------------------------------------------ the record tells the history

  /** What never changes. */
  ghost predicate SameEntry(p: Position, e: Entry) {
    && p.market == e.market && p.outcome == e.outcome && p.offered == e.offered
    && p.createdAt == e.timestamp && p.createdTx == e.tx && p.vintage == Some((e.market, e.vintage))
  }

  ghost predicate AcceptanceTold(p: Position, accepted: Option<nat>) {
    if accepted.None? then !p.finalized && p.accepted == 0
    else p.finalized && p.accepted == accepted.value
  }

  /** Row r is what the first n events made of the entry at event k. */
  ghost predicate Tells(es: seq<Event>, k: nat, n: nat, r: Row)
    requires k < n <= |es| && es[k].Entered?
  {
    var e, read := es[k].e, es[k].read;
    && SameEntry(r.p, e)
    && (r.p.claimed <==> Settled(es, k, n, e.id))
    && (r.p.refundWithdrawn <==> Refunded(es, k, n, e.id) || (e.vintage == 0 && read.Some? && read.value.refundWithdrawn))
    && r.p.payout == PaidAfter(es, k, n, e.id)
    && r.p.owner == HolderAfter(es, k, n, e.id, e.owner)
    && r.staker == StakerAfter(es, k, n, e.id, e.owner, e.tx)
    && AcceptanceTold(r.p, AcceptedAfter(es, k, n))
    && (AcceptedAfter(es, k, n).Some? ==> r.acceptor == AcceptorAfter(es, k, n))
  }

  /** The position waits for its vintage exactly while that has not been closed. */
  ghost predicate Waits(x: Index, e: Entry, shut: bool) {
    e.id in VintageOf(x.vintages, (e.market, e.vintage)).pending <==> e.vintage != 0 && !shut
  }

  ghost predicate Known(es: seq<Event>, k: nat, n: nat)
    requires k < n <= |es| && es[k].Entered?
  {
    var v, e := At(es, n), es[k].e;
    && e.id in v.rows && Tells(es, k, n, v.rows[e.id])
    && e.market in v.x.markets && Waits(v.x, e, AnyCloses(es, k, n, e))
  }

  lemma OneMore(es: seq<Event>, k: nat, n: nat, e: Entry)
    requires k < n < |es|
    ensures Settled(es, k, n + 1, e.id) <==> Settled(es, k, n, e.id) || Settling(es[n], e.id)
    ensures Refunded(es, k, n + 1, e.id) <==> Refunded(es, k, n, e.id) || (Claims(es[n], e.id) && es[n].refund > 0)
    ensures AnyCloses(es, k, n + 1, e) <==> AnyCloses(es, k, n, e) || Closes(es[n], e)
  {
    hide Settling, Claims, Closes;
  }

  lemma NoneYet(es: seq<Event>, k: nat, e: Entry)
    requires k < |es|
    ensures !Settled(es, k, k + 1, e.id) && !Refunded(es, k, k + 1, e.id) && !AnyCloses(es, k, k + 1, e)
  {
  }

  /** The entry itself. */
  lemma FirstTells(es: seq<Event>, k: nat)
    requires k < |es| && es[k].Entered?
    ensures Tells(es, k, k + 1, FirstRow(es[k].e, es[k].read))
  {
    hide Settled, Refunded, AnyCloses;
    NoneYet(es, k, es[k].e);
  }

  /** An event that is about neither the position nor its vintage. */
  lemma OtherTells(es: seq<Event>, k: nat, n: nat, r: Row)
    requires k < n < |es| && es[k].Entered? && Tells(es, k, n, r)
    requires var e := es[k].e; !Claims(es[n], e.id) && !Moves(es[n], e.id)
    requires Closes(es[n], es[k].e) ==> es[k].e.vintage == 0 || AnyCloses(es, k, n, es[k].e) || es[k].e.id !in es[n].answers
    ensures Tells(es, k, n + 1, r)
  {
    hide Settled, Refunded, AnyCloses, Closes, SameEntry, AcceptanceTold;
    OneMore(es, k, n, es[k].e);
  }

  lemma ClaimTells(es: seq<Event>, k: nat, n: nat, r: Row)
    requires k < n < |es| && es[k].Entered? && Tells(es, k, n, r) && Claims(es[n], es[k].e.id)
    ensures var ev := es[n]; Tells(es, k, n + 1, SettledRow(r, ev.payout, ev.refund, Settles(ev.payout, ev.refund, ev.flag)))
  {
    hide Settled, Refunded, AnyCloses, PaidAfter, HolderAfter, StakerAfter, AcceptedAfter, AcceptorAfter;
    OneMore(es, k, n, es[k].e);
    ClaimSteps(es, k, n);
  }

  lemma ClaimSteps(es: seq<Event>, k: nat, n: nat)
    requires k < n < |es| && es[k].Entered? && Claims(es[n], es[k].e.id)
    ensures var e := es[k].e;
            && PaidAfter(es, k, n + 1, e.id) == PaidAfter(es, k, n, e.id) + es[n].payout
            && HolderAfter(es, k, n + 1, e.id, e.owner) == HolderAfter(es, k, n, e.id, e.owner)
            && StakerAfter(es, k, n + 1, e.id, e.owner, e.tx) == StakerAfter(es, k, n, e.id, e.owner, e.tx)
            && AcceptedAfter(es, k, n + 1) == AcceptedAfter(es, k, n)
            && AcceptorAfter(es, k, n + 1) == AcceptorAfter(es, k, n)
  {
  }

  lemma MoveTells(es: seq<Event>, k: nat, n: nat, r: Row, agents: Agents, now: nat)
    requires k < n < |es| && es[k].Entered? && Tells(es, k, n, r) && Moves(es[n], es[k].e.id)
    requires RowOk(r, agents, now) && now <= es[n].tx
    ensures Tells(es, k, n + 1, TransferredRow(r, es[n].to, es[n].tx))
  {
    hide Settled, Refunded, AnyCloses, PaidAfter, HolderAfter, StakerAfter, AcceptedAfter, AcceptorAfter;
    OneMore(es, k, n, es[k].e);
    MoveSteps(es, k, n);
  }

  lemma MoveSteps(es: seq<Event>, k: nat, n: nat)
    requires k < n < |es| && es[k].Entered? && Moves(es[n], es[k].e.id)
    ensures var e := es[k].e;
            && PaidAfter(es, k, n + 1, e.id) == PaidAfter(es, k, n, e.id)
            && HolderAfter(es, k, n + 1, e.id, e.owner) == es[n].to
            && StakerAfter(es, k, n + 1, e.id, e.owner, e.tx)
               == (if es[n].tx == e.tx then es[n].to else StakerAfter(es, k, n, e.id, e.owner, e.tx))
            && AcceptedAfter(es, k, n + 1) == AcceptedAfter(es, k, n)
            && AcceptorAfter(es, k, n + 1) == (if es[n].tx == e.tx then es[n].to else AcceptorAfter(es, k, n))
  {
  }

  lemma CloseTells(es: seq<Event>, k: nat, n: nat, r: Row)
    requires k < n < |es| && es[k].Entered? && Tells(es, k, n, r) && Closes(es[n], es[k].e) && es[k].e.vintage != 0
    requires !AnyCloses(es, k, n, es[k].e) && es[k].e.id in es[n].answers
    ensures Tells(es, k, n + 1, AcceptedRow(r, es[n].answers[es[k].e.id].accepted))
  {
    hide Settled, Refunded, AnyCloses;
    OneMore(es, k, n, es[k].e);
  }

  // ------------------------------------------------------------------ every event keeps the record

  lemma {:induction false} AcceptedRowAt(rows: Rows, ids: seq<PositionId>, answers: Readings, n: nat, i: nat)
    requires i < n <= |ids| && forall a, b :: 0 <= a < b < |ids| ==> ids[a] != ids[b]
    requires ids[i] in rows
    ensures ids[i] in AcceptedRows(rows, ids, answers, n)
    ensures AcceptedRows(rows, ids, answers, n)[ids[i]]
            == if ids[i] in answers then AcceptedRow(rows[ids[i]], answers[ids[i]].accepted) else rows[ids[i]]
    decreases n
  {
    AcceptedRowsFrames(rows, ids, answers, n - 1);
    if i < n - 1 { AcceptedRowAt(rows, ids, answers, n - 1, i); }
  }

  /** A vintage's close accepts what waits for it and nothing else. */
  lemma CloseIs(v: Venue, m: MarketId, vintage: nat, answers: Readings, id: PositionId)
    requires Agrees(v.x, v.rows, v.now) && m in v.x.markets && id in v.rows
    ensures var rows, waits := Record(v, Finalized(m, vintage, answers)), id in VintageOf(v.x.vintages, (m,
        vintage)).pending;
            && id in rows
            && rows[id] == (if waits && id in answers then AcceptedRow(v.rows[id], answers[id].accepted) else v.rows[id])
            && (waits ==> v.rows[id].p.vintage == Some((m, vintage)))
  {
    hide Core;
    var ids := VintageOf(v.x.vintages, (m, vintage)).pending;
    assert VintageOk(VintageOf(v.x.vintages, (m, vintage)), v.rows, (m, vintage));
    AcceptedRowsFrames(v.rows, ids, answers, |ids|);
    if id in ids {
      var i :| 0 <= i < |ids| && ids[i] == id;
      AcceptedRowAt(v.rows, ids, answers, |ids|, i);
    }
  }

  /** A new entry waits where its vintage is buffered, and joins no other list. */
  lemma EnteredWaits(x: Index, e: Entry, read: Option<Reading>, u: VintageId, id: PositionId)
    ensures var y := HandleEntered(x, e, read);
            && x.markets <= y.markets && e.market in y.markets
            && (id in VintageOf(y.vintages, u).pending <==>
                  id in VintageOf(x.vintages, u).pending || (id == e.id && e.vintage != 0 && u == (e.market, e.vintage)))
  {
    hide Filed, Seeded;
    FiledVintages(x, e);
    FiledMarkets(x, e);
    var y := HandleEntered(x, e, read);
    if e.vintage == 0 && read.Some? { SeededStays(Filed(x, e), e.id, read.value); }
    var v := (e.market, e.vintage);
    assert u != v ==> VintageOf(y.vintages, u) == VintageOf(x.vintages, u);
    assert VintageOf(y.vintages, v).pending ==
           VintageOf(x.vintages, v).pending + if e.vintage != 0 then [e.id] else [];
  }

  lemma FiledMarkets(x: Index, e: Entry)
    ensures Filed(x, e).markets == x.markets + {e.market} && e.id in Filed(x, e).positions
  {
    FiledFields(x, e);
  }

  lemma SeededStays(x: Index, id: PositionId, r: Reading)
    requires id in x.positions
    ensures Seeded(x, id, r).vintages == x.vintages && Seeded(x, id, r).markets == x.markets
  {
  }

  lemma FinalizedWaits(x: Index, m: MarketId, vintage: nat, answers: Readings, u: VintageId)
    ensures var y := HandleVintageFinalized(x, m, vintage, answers);
            && y.markets == x.markets
            && VintageOf(y.vintages, u).pending == if m in x.markets && u == (m, vintage) then []
                 else VintageOf(x.vintages, u).pending
  {
    hide AcceptFirst;
    if m in x.markets && (m, vintage) in x.vintages {
      var ids := x.vintages[(m, vintage)].pending;
      AcceptFirstFrames(x, ids, answers, |ids|);
    }
  }

  /** Claims, transfers and new markets leave every waiting list alone. */
  lemma QuietWaits(x: Index, ev: Event)
    requires ev.Created? || ev.Claimed? || ev.Transferred?
    ensures Handle(x, ev).vintages == x.vintages && x.markets <= Handle(x, ev).markets
  {
    hide RecordTransfer;
  }

  lemma StepWaits(x: Index, ev: Event, e: Entry, shut: bool)
    requires e.market in x.markets && Waits(x, e, shut) && !Enters(ev, e.id)
    ensures e.market in Handle(x, ev).markets && Waits(Handle(x, ev), e, shut || Closes(ev, e))
  {
    hide HandleEntered, HandleVintageFinalized, HandleClaimed, HandlePositionTransferred;
    var u := (e.market, e.vintage);
    match ev
    case Entered(e', read) => EnteredWaits(x, e', read, u, e.id);
    case Finalized(m, vintage, answers) => FinalizedWaits(x, m, vintage, answers, u);
    case Created(m) => QuietWaits(x, ev);
    case Claimed(_, _, _, _) => QuietWaits(x, ev);
    case Transferred(_, _, _) => QuietWaits(x, ev);
  }

  /** What one event makes of the row of an entry that came before it. */
  lemma StepTells(es: seq<Event>, k: nat, n: nat)
    requires Reached(es) && k < n < |es| && es[k].Entered? && Known(es, k, n)
    ensures es[k].e.id in At(es, n + 1).rows && Tells(es, k, n + 1, At(es, n + 1).rows[es[k].e.id])
  {
    hide Tells, At, Agrees, Handle, CanRun, SettledRow, TransferredRow, AcceptedRow, AcceptedRows, AnyCloses;
    var v, e, ev := At(es, n), es[k].e, es[n];
    var r := v.rows[e.id];
    Step(es, n);
    AgreedRow(v, e.id);
    match ev
    case Created(m) => OtherTells(es, k, n, r);
    case Entered(e', read) => OtherTells(es, k, n, r);
    case Claimed(id, payout, refund, flag) =>
      if id == e.id { ClaimTells(es, k, n, r); } else { OtherTells(es, k, n, r); }
    case Transferred(id, to, tx) =>
      if id == e.id { MoveTells(es, k, n, r, v.x.agents, v.now); } else { OtherTells(es, k, n, r); }
    case Finalized(m, vintage, answers) =>
      if m in v.x.markets {
        CloseIs(v, m, vintage, answers, e.id);
        CloseStep(es, k, n, r);
      } else {
        OtherTells(es, k, n, r);
      }
  }

  lemma AgreedRow(v: Venue, id: PositionId)
    requires Agrees(v.x, v.rows, v.now) && id in v.rows
    ensures RowOk(v.rows[id], v.x.agents, v.now) && id in v.x.positions && v.x.positions[id] == v.rows[id].p
  {
    KnownRow(v.x, v.rows, v.now, id);
  }

  /** Of a close, given what it made of the row. */
  lemma CloseStep(es: seq<Event>, k: nat, n: nat, r: Row)
    requires k < n < |es| && es[k].Entered? && es[n].Finalized? && Tells(es, k, n, r)
        && Waits(At(es, n).x, es[k].e, AnyCloses(es, k, n, es[k].e))
    requires var e, ev := es[k].e, es[n];
             e.id in VintageOf(At(es, n).x.vintages, (ev.m, ev.vintage)).pending ==> r.p.vintage == Some((ev.m, ev.vintage))
    ensures var e, ev := es[k].e, es[n];
            Tells(es, k, n + 1, if e.id in VintageOf(At(es, n).x.vintages, (ev.m, ev.vintage)).pending && e.id in ev.answers
                                then AcceptedRow(r, ev.answers[e.id].accepted) else r)
  {
    hide At, AcceptedRow, AnyCloses, Settled, Refunded, AcceptedAfter, AcceptorAfter, PaidAfter, HolderAfter, StakerAfter;
    var e, ev := es[k].e, es[n];
    if e.id in VintageOf(At(es, n).x.vintages, (ev.m, ev.vintage)).pending && e.id in ev.answers {
      CloseTells(es, k, n, r);
    } else {
      OtherTells(es, k, n, r);
    }
  }

  /** An entered position is known from its entry on. */
  lemma {:induction false} StaysKnown(es: seq<Event>, k: nat, n: nat)
    requires Reached(es) && k < n <= |es| && es[k].Entered?
    ensures Known(es, k, n)
    decreases n
  {
    hide Tells, At, Agrees, Handle, CanRun, CanHappen, Waits, AnyCloses;
    if n == k + 1 {
      Step(es, k);
      FirstTells(es, k);
      FirstWaits(es, k);
      NoneYet(es, k, es[k].e);
    } else {
      StaysKnown(es, k, n - 1);
      StepTells(es, k, n - 1);
      Step(es, n - 1);
      NotAgain(es, k, n - 1);
      StepWaits(At(es, n - 1).x, es[n - 1], es[k].e, AnyCloses(es, k, n - 1, es[k].e));
      OneMore(es, k, n - 1, es[k].e);
    }
  }

  lemma FirstWaits(es: seq<Event>, k: nat)
    requires Reached(es) && k < |es| && es[k].Entered?
    ensures es[k].e.market in At(es, k + 1).x.markets && Waits(At(es, k + 1).x, es[k].e, false)
  {
    hide At, CanRun, HandleEntered, Core;
    var v, e := At(es, k), es[k].e;
    Step(es, k);
    EnteredWaits(v.x, e, es[k].read, (e.market, e.vintage), e.id);
    var pending := VintageOf(v.x.vintages, (e.market, e.vintage)).pending;
    assert VintageOk(VintageOf(v.x.vintages, (e.market, e.vintage)), v.rows, (e.market, e.vintage));
    if e.id in pending {
      var i :| 0 <= i < |pending| && pending[i] == e.id;
      FreshRow(v, e.id);
    }
  }

  lemma FreshRow(v: Venue, id: PositionId)
    requires Agrees(v.x, v.rows, v.now)
    ensures id in v.rows <==> id in v.x.positions
  {
    RowsAre(v.x, v.rows, v.now);
  }

  /** No position is entered twice. */
  lemma NotAgain(es: seq<Event>, k: nat, n: nat)
    requires Reached(es) && k < n < |es| && es[k].Entered? && Known(es, k, n)
    ensures !Enters(es[n], es[k].e.id)
  {
    hide At, CanRun, Agrees, Tells, Waits;
    Step(es, n);
    FreshRow(At(es, n), es[k].e.id);
  }

  /** A position is there if and only if it was entered. */
  lemma {:induction false} ThereIff(es: seq<Event>, n: nat, id: PositionId)
    requires Reached(es) && n <= |es|
    ensures id in At(es, n).x.positions <==> exists k :: 0 <= k < n && Enters(es[k], id)
    decreases n
  {
    hide At, CanRun, Agrees, Known, Handle;
    if n > 0 {
      ThereIff(es, n - 1, id);
      Step(es, n - 1);
      Held(es, n);
      FreshRow(At(es, n), id);
      if k :| 0 <= k < n && Enters(es[k], id) {
        StaysKnown(es, k, n);
        KnownThere(es, k, n);
      } else {
        Step(es, n - 1);
        FreshRow(At(es, n - 1), id);
        RecordKeys(At(es, n - 1), es[n - 1], id);
      }
    } else {
      NothingAtFirst(es);
    }
  }

  lemma NothingAtFirst(es: seq<Event>)
    ensures At(es, 0) == START
  {
  }

  lemma KnownThere(es: seq<Event>, k: nat, n: nat)
    requires k < n <= |es| && es[k].Entered? && Known(es, k, n)
    ensures es[k].e.id in At(es, n).rows
  {
  }

  lemma RecordKeys(v: Venue, ev: Event, id: PositionId)
    requires Agrees(v.x, v.rows, v.now) && id !in v.rows && !Enters(ev, id)
    ensures id !in Record(v, ev)
  {
    hide Core;
    if ev.Finalized? {
      var u := (ev.m, ev.vintage);
      assert VintageOk(VintageOf(v.x.vintages, u), v.rows, u);
      AcceptedRowsFrames(v.rows, VintageOf(v.x.vintages, u).pending, ev.answers, |VintageOf(v.x.vintages, u).pending|);
    }
  }

  /** In every reachable state a stored position is what the events made of its entry. It has settled
      if and only if one of its claims since paid something, refunded nothing, or was of a position
      the settler calls claimed; its refund is withdrawn if and only if some claim refunded, or a seed
      reading said so; it was paid what its claims paid; its last transfer says who owns it, and the
      last in its opening transaction who put it at risk; its acceptance is the first reading. */
  lemma PositionTells(es: seq<Event>, k: nat, n: nat)
    requires Reached(es) && k < n <= |es| && es[k].Entered?
    ensures var id, x, rows := es[k].e.id, At(es, n).x, At(es, n).rows;
            && id in x.positions && id in rows && rows[id].p == x.positions[id]
            && Tells(es, k, n, rows[id])
  {
    hide At, Agrees, Tells, CanRun;
    StaysKnown(es, k, n);
    Held(es, n);
    AgreedRow(At(es, n), es[k].e.id);
  }
}
