/** Which markets and vintages the venue index knows, which vintage of a market is open and which are
    closed, told from the events alone. */
module VenueOpenings {
  import opened Numbers
  import opened VenueLedger
  import opened VenueAgreement
  import opened VenueIndexes
  import opened VenueRuns
  import opened VenueReports
  import opened VenueHistory

  predicate Opens(ev: Event, m: MarketId) {
    (ev.Created? && ev.m == m) || (ev.Entered? && ev.e.market == m)
  }

  ghost predicate Opened(es: seq<Event>, n: nat, m: MarketId)
    requires n <= |es|
  {
    exists j :: 0 <= j < n && Opens(es[j], m)
  }

  predicate EntersIn(ev: Event, v: VintageId) {
    ev.Entered? && (ev.e.market, ev.e.vintage) == v
  }

  predicate Ends(ev: Event, v: VintageId) {
    ev.Finalized? && (ev.m, ev.vintage) == v
  }

  ghost predicate Begun(es: seq<Event>, n: nat, v: VintageId)
    requires n <= |es|
  {
    exists j :: 0 <= j < n && EntersIn(es[j], v)
  }

  /** A vintage is closed by the first finalization after an entry in it; the seed vintage by any
      entry in it. */
  ghost predicate ClosedBy(es: seq<Event>, j: nat, v: VintageId)
    requires j < |es|
  {
    (Ends(es[j], v) && Begun(es, j, v)) || (EntersIn(es[j], v) && v.1 == 0)
  }

  /** Whether a vintage was closed after n events; an entry in it reopens none. */
  ghost predicate ClosedAfter(es: seq<Event>, n: nat, v: VintageId)
    requires n <= |es|
  {
    exists j :: 0 <= j < n && ClosedBy(es, j, v)
  }

  /** The vintage of the market that was entered last and not finalized since. */
  ghost function OpenAfter(es: seq<Event>, n: nat, m: MarketId): Option<VintageId>
    requires n <= |es|
  {
    if n == 0 then None
    else
      var ev := es[n - 1];
      if ev.Entered? && ev.e.market == m && ev.e.vintage != 0 then Some((m, ev.e.vintage))
      else if ev.Finalized? && ev.m == m && Begun(es, n - 1, (m, ev.vintage)) then None
      else OpenAfter(es, n - 1, m)
  }

  function OpenOf(x: Index, m: MarketId): Option<VintageId> {
    if m in x.openVintage then Some(x.openVintage[m]) else None
  }

  // ------------------------------------------------------------------ one event

  /** What an entry does to markets and vintages. */
  lemma EntryOpens(x: Index, e: Entry, read: Option<Reading>, v: VintageId, m: MarketId)
    ensures var y, u := HandleEntered(x, e, read), (e.market, e.vintage);
            && y.markets == x.markets + {e.market}
            && (v in y.vintages <==> v in x.vintages || v == u)
            && (VintageOf(y.vintages, v).finalized <==> VintageOf(x.vintages, v).finalized || (v == u && e.vintage == 0))
            && OpenOf(y, m) == if m == e.market && e.vintage != 0 then Some(u) else OpenOf(x, m)
  {
    hide Filed, Seeded;
    FiledVintages(x, e);
    FiledMarkets(x, e);
    FiledOpens(x, e);
    if e.vintage == 0 && read.Some? {
      SeededStays(Filed(x, e), e.id, read.value);
      SeededOpens(Filed(x, e), e.id, read.value);
    }
  }

  lemma FiledOpens(x: Index, e: Entry)
    ensures Filed(x, e).openVintage == x.openVintage
  {
    FiledFields(x, e);
  }

  lemma SeededOpens(x: Index, id: PositionId, r: Reading)
    requires id in x.positions
    ensures Seeded(x, id, r).openVintage == x.openVintage
  {
  }

  lemma CloseOpens(x: Index, m: MarketId, vintage: nat, answers: Readings, v: VintageId, k: MarketId)
    ensures var y, ends := HandleVintageFinalized(x, m, vintage, answers), m in x.markets && (m, vintage) in x.vintages;
            && y.markets == x.markets && (v in y.vintages <==> v in x.vintages)
            && (VintageOf(y.vintages, v).finalized <==> VintageOf(x.vintages, v).finalized || (ends && v == (m, vintage)))
            && OpenOf(y, k) == if ends && k == m then None else OpenOf(x, k)
  {
    hide AcceptFirst;
    if m in x.markets && (m, vintage) in x.vintages {
      var ids := x.vintages[(m, vintage)].pending;
      AcceptFirstFrames(x, ids, answers, |ids|);
    }
  }

  lemma QuietOpens(x: Index, ev: Event)
    requires ev.Claimed? || ev.Transferred? || ev.Created?
    ensures var y := Handle(x, ev);
            && y.markets == x.markets + (if ev.Created? then {ev.m} else {}) && y.vintages == x.vintages
            && y.openVintage == x.openVintage
  {
    hide RecordTransfer, RecordSettlement;
    match ev
    case Created(m) => MarketIs(x, m);
    case Claimed(id, payout, refund, flag) => SettlesQuietly(x, id, payout, refund, flag);
    case Transferred(_, _, _) =>
  }

  lemma SettlesQuietly(x: Index, id: PositionId, payout: nat, refund: nat, flag: Option<bool>)
    ensures var y := HandleClaimed(x, id, payout, refund, flag);
            y.markets == x.markets && y.vintages == x.vintages && y.openVintage == x.openVintage
  {
  }

  // ------------------------------------------------------------------ runs

  /** The index after n events, as far as market m and vintage v go. */
  ghost predicate Told(es: seq<Event>, n: nat, m: MarketId, v: VintageId)
    requires n <= |es|
  {
    var x := At(es, n).x;
    && (m in x.markets <==> Opened(es, n, m))
    && (v in x.vintages <==> Begun(es, n, v))
    && (VintageOf(x.vintages, v).finalized <==> ClosedAfter(es, n, v))
    && OpenOf(x, m) == OpenAfter(es, n, m)
  }

  lemma StepOpens(x: Index, ev: Event, m: MarketId, v: VintageId)
    ensures var y, ends := Handle(x, ev), ev.Finalized? && ev.m in x.markets && (ev.m, ev.vintage) in x.vintages;
            && (m in y.markets <==> m in x.markets || Opens(ev, m))
            && (v in y.vintages <==> v in x.vintages || EntersIn(ev, v))
            && (VintageOf(y.vintages, v).finalized <==>
                  VintageOf(x.vintages, v).finalized || (ends && Ends(ev, v)) || (EntersIn(ev, v) && v.1 == 0))
            && OpenOf(y, m) == (if ev.Entered? && ev.e.market == m && ev.e.vintage != 0 then Some((m, ev.e.vintage))
                                else if ends && ev.m == m then None else OpenOf(x, m))
  {
    hide HandleEntered, HandleVintageFinalized, HandleClaimed, HandlePositionTransferred;
    match ev
    case Entered(e, read) => EntryOpens(x, e, read, v, m);
    case Finalized(k, vintage, answers) => CloseOpens(x, k, vintage, answers, v, m);
    case Created(_) => QuietOpens(x, ev);
    case Claimed(_, _, _, _) => QuietOpens(x, ev);
    case Transferred(_, _, _) => QuietOpens(x, ev);
  }

  /** A vintage that has begun is of a market that has opened. */
  lemma BegunOpens(es: seq<Event>, n: nat, v: VintageId)
    requires n <= |es| && Begun(es, n, v)
    ensures Opened(es, n, v.0)
  {
    var j :| 0 <= j < n && EntersIn(es[j], v);
    assert Opens(es[j], v.0);
  }

  lemma OneMoreOpens(es: seq<Event>, n: nat, m: MarketId, v: VintageId)
    requires n < |es|
    ensures Opened(es, n + 1, m) <==> Opened(es, n, m) || Opens(es[n], m)
    ensures Begun(es, n + 1, v) <==> Begun(es, n, v) || EntersIn(es[n], v)
    ensures ClosedAfter(es, n + 1, v) <==> ClosedAfter(es, n, v) || ClosedBy(es, n, v)
  {
    hide Opens, EntersIn, ClosedBy;
  }

  /** After any run the index knows the markets that were created or entered and the vintages that were
      entered; a vintage is closed if and only if it was finalized after an entry in it, or is a seed
      vintage that was entered; and a market's open vintage is the one entered last, until one of its
      vintages is finalized. */
  lemma {:induction false} OpeningsTold(es: seq<Event>, n: nat, m: MarketId, v: VintageId)
    requires Reached(es) && n <= |es|
    ensures Told(es, n, m, v)
    decreases n
  {
    hide At, CanRun, CanHappen, Agrees, Handle, Opens, EntersIn, Begun, ClosedAfter, OpenOf;
    if n == 0 {
      NothingAtFirst(es);
      NoneOpened(es, m, v);
    } else {
      var ev := es[n - 1];
      OpeningsTold(es, n - 1, m, v);
      if ev.Finalized? { OpeningsTold(es, n - 1, ev.m, (ev.m, ev.vintage)); }
      Step(es, n - 1);
      StepOpens(At(es, n - 1).x, ev, m, v);
      OneMoreOpens(es, n - 1, m, v);
      StepTold(es, n - 1, m, v);
    }
  }

  lemma NoneOpened(es: seq<Event>, m: MarketId, v: VintageId)
    ensures !Begun(es, 0, v) && !ClosedAfter(es, 0, v) && OpenOf(EMPTY, m) == None && v !in EMPTY.vintages
  {
  }

  lemma StepTold(es: seq<Event>, n: nat, m: MarketId, v: VintageId)
    requires n < |es|
    requires var ev, x := es[n], At(es, n).x; ev.Finalized? ==> Told(es, n, ev.m, (ev.m, ev.vintage))
    ensures var ev, x := es[n], At(es, n).x;
            && (ev.Finalized? ==> ((ev.m in x.markets && (ev.m, ev.vintage) in x.vintages)
                 <==> Begun(es, n, (ev.m, ev.vintage))))
            && (Ends(ev, v) ==> v == (ev.m, ev.vintage))
  {
    hide At, Opens, EntersIn;
    if es[n].Finalized? && Begun(es, n, (es[n].m, es[n].vintage)) { BegunOpens(es, n, (es[n].m, es[n].vintage)); }
  }
}
