/** The registries' day rows over whole runs: what a day counted is what the registry's totals
    grew by on that day, and the days together come to the totals. */
module RegistryDays {
  import opened Numbers
  import opened Tallies
  import opened Registries
  import opened RegistryRuns

  /** What an event adds to the row of its day. */
  function CountsAs(x: Index, e: Event): Option<Count> {
    match e
    case Registered(_) => Some(RegisteredCount)
    case NewFeedback(_, _, _, _, _) => Some(GivenCount)
    case FeedbackRevoked(a, c, index) => if Revokes(x, a, c, index) then Some(RevokedCount) else None
    case ResponseAppended(_, _, _, _) => None
    case ValidationRequest(_, _, _) => Some(RequestedCount)
    case ValidationResponse(_, _, hash, _) => if FirstResponse(x, hash) then Some(RespondedCount) else None
  }

  function DaysHandle(days: Days, x: Index, e: Event, time: nat): Days {
    match CountsAs(x, e)
    case None => days
    case Some(c) => Counted(days, c, Handle(x, e).agentCount, time)
  }

  function DaysFrom(days: Days, x: Index, es: seq<Event>, times: seq<nat>): Days
    requires |es| == |times|
    decreases |es|
  {
    if es == [] then days
    else DaysFrom(DaysHandle(days, x, es[0], times[0]), Handle(x, es[0]), es[1..], times[1..])
  }

  /** A day's count of one kind. */
  function OnDay(c: Count): Day -> int {
    (d: Day) => match c
      case RegisteredCount => d.registered
      case GivenCount => d.given
      case RevokedCount => d.revoked
      case RequestedCount => d.requested
      case RespondedCount => d.responded
  }

  /** The registry's own total of that kind; it keeps none of registrations. */
  function TotalOf(x: Index, c: Count): int {
    match c
    case RegisteredCount => 0
    case GivenCount => x.scores.given
    case RevokedCount => x.scores.revoked
    case RequestedCount => x.answers.requested
    case RespondedCount => x.answers.responded
  }

  /** What an event adds to that total; of registrations, whether it is one. */
  function Adds(x: Index, e: Event, c: Count): int {
    if c == RegisteredCount then (if e.Registered? then 1 else 0) else TotalOf(Handle(x, e), c) - TotalOf(x, c)
  }

  /** The time is on the day that starts then, days starting at whole multiples of 86,400 seconds. */
  predicate OnDayOf(time: nat, start: nat) {
    start % 86_400 == 0 && start <= time < start + 86_400
  }

  lemma DayIs(time: nat, start: nat)
    ensures DayOf(time) == start <==> OnDayOf(time, start)
  {
    var q := time / 86_400;
    assert start % 86_400 == 0 ==> start == start / 86_400 * 86_400;
  }

  /** What the events of one day add. */
  function AddedOn(x: Index, es: seq<Event>, times: seq<nat>, start: nat, c: Count): int
    requires |es| == |times|
    decreases |es|
  {
    if es == [] then 0
    else
      (if OnDayOf(times[0], start) then Adds(x, es[0], c) else 0)
      + AddedOn(Handle(x, es[0]), es[1..], times[1..], start, c)
  }

  /** What all events add. */
  function Added(x: Index, es: seq<Event>, c: Count): int
    decreases |es|
  {
    if es == [] then 0 else Adds(x, es[0], c) + Added(Handle(x, es[0]), es[1..], c)
  }

  /** An event adds one exactly when it counts as that kind. */
  lemma AddsOne(x: Index, e: Event, c: Count)
    ensures Adds(x, e, c) == if CountsAs(x, e) == Some(c) then 1 else 0
  {
    hide Average, ScaleValue;
  }

  lemma AgentsOnlyCome(x: Index, e: Event)
    ensures x.agentCount <= Handle(x, e).agentCount
  {
    hide Average, ScaleValue;
  }

  lemma DayMoves(days: Days, x: Index, e: Event, time: nat, start: nat, c: Count)
    ensures OnDay(c)(DayAt(DaysHandle(days, x, e, time), start)) == OnDay(c)(DayAt(days, start))
            + if OnDayOf(time, start) then Adds(x, e, c) else 0
  {
    hide Handle, Adds, DayOf, OnDayOf;
    DayIs(time, start);
    AddsOne(x, e, c);
  }

  /** A day's row follows what the events of that day add. */
  lemma {:induction false} DaysGrow(days: Days, x: Index, es: seq<Event>, times: seq<nat>, start: nat, c: Count)
    requires |es| == |times|
    ensures OnDay(c)(DayAt(DaysFrom(days, x, es, times), start))
            == OnDay(c)(DayAt(days, start)) + AddedOn(x, es, times, start, c)
    decreases |es|
  {
    hide Handle, DaysHandle, Adds, OnDay, OnDayOf;
    if es != [] {
      DayMoves(days, x, es[0], times[0], start, c);
      DaysGrow(DaysHandle(days, x, es[0], times[0]), Handle(x, es[0]), es[1..], times[1..], start, c);
    }
  }

  lemma {:induction false} SumMoves(days: Days, x: Index, e: Event, time: nat, c: Count)
    ensures Sum(DaysHandle(days, x, e, time), OnDay(c)) == Sum(days, OnDay(c)) + Adds(x, e, c)
  {
    hide Handle, Adds;
    AddsOne(x, e, c);
    var counted := CountsAs(x, e);
    if counted.Some? {
      var start := DayOf(time);
      var row := OneMore(DayAt(days, start), counted.value).(totalAgents := Handle(x, e).agentCount);
      SumPut(days, OnDay(c), start, row);
    }
  }

  /** Over any run the days together come to what all its events add. */
  lemma {:induction false} DaysSum(days: Days, x: Index, es: seq<Event>, times: seq<nat>, c: Count)
    requires |es| == |times|
    ensures Sum(DaysFrom(days, x, es, times), OnDay(c)) == Sum(days, OnDay(c)) + Added(x, es, c)
    decreases |es|
  {
    hide Handle, DaysHandle, Adds, OnDay, Sum;
    if es != [] {
      SumMoves(days, x, es[0], times[0], c);
      DaysSum(DaysHandle(days, x, es[0], times[0]), Handle(x, es[0]), es[1..], times[1..], c);
    }
  }

  /** Which is the registry's total, for every kind it keeps a total of. */
  lemma {:induction false} AddedIsTotal(x: Index, es: seq<Event>, c: Count)
    requires c != RegisteredCount
    ensures TotalOf(x, c) + Added(x, es, c) == TotalOf(RunFrom(x, es), c)
    decreases |es|
  {
    hide Handle, TotalOf;
    if es != [] { AddedIsTotal(Handle(x, es[0]), es[1..], c); }
  }

  /** No day saw more agents than there are. */
  ghost predicate SeenWithin(days: Days, agents: int) {
    forall start :: start in days ==> days[start].totalAgents <= agents
  }

  lemma {:induction false} AgentsWithin(days: Days, x: Index, es: seq<Event>, times: seq<nat>)
    requires |es| == |times| && SeenWithin(days, x.agentCount)
    ensures SeenWithin(DaysFrom(days, x, es, times), RunFrom(x, es).agentCount)
    decreases |es|
  {
    hide Handle, OneMore;
    if es != [] {
      AgentsOnlyCome(x, es[0]);
      AgentsWithin(DaysHandle(days, x, es[0], times[0]), Handle(x, es[0]), es[1..], times[1..]);
    }
  }

  /** After any run whatever, each day's row counts what the events of that day add to the registry's
      totals, and how many of them are registrations; the days together are the totals, and none
      has seen more agents than there are. */
  lemma {:induction false} DaysAreExact(es: seq<Event>, times: seq<nat>, start: nat, c: Count)
    requires |es| == |times|
    ensures var (days, x) := (DaysFrom(map[], EMPTY, es, times), RunFrom(EMPTY, es));
            && OnDay(c)(DayAt(days, start)) == AddedOn(EMPTY, es, times, start, c)
            && Sum(days, OnDay(c)) == Added(EMPTY, es, c)
            && (c != RegisteredCount ==> Sum(days, OnDay(c)) == TotalOf(x, c))
            && SeenWithin(days, x.agentCount)
  {
    DaysGrow(map[], EMPTY, es, times, start, c);
    DaysSum(map[], EMPTY, es, times, c);
    if c != RegisteredCount { AddedIsTotal(EMPTY, es, c); }
    AgentsWithin(map[], EMPTY, es, times);
  }

  /** How many agents there were after the last event counted on that day, if any was. */
  function LastSeen(x: Index, es: seq<Event>, times: seq<nat>, start: nat): Option<int>
    requires |es| == |times|
    decreases |es|
  {
    if es == [] then None
    else
      var later := LastSeen(Handle(x, es[0]), es[1..], times[1..], start);
      if later.None? && OnDayOf(times[0], start) && CountsAs(x, es[0]).Some? then Some(Handle(x, es[0]).agentCount) else later
  }

  function SeenOn(days: Days, start: nat): Option<int> {
    if start in days then Some(days[start].totalAgents) else None
  }

  lemma SeenMoves(days: Days, x: Index, e: Event, time: nat, start: nat)
    ensures SeenOn(DaysHandle(days, x, e, time), start)
            == if OnDayOf(time, start) && CountsAs(x, e).Some? then Some(Handle(x, e).agentCount) else SeenOn(days, start)
  {
    hide Handle, DayOf, OnDayOf, CountsAs;
    DayIs(time, start);
  }

  lemma {:induction false} SeenLast(days: Days, x: Index, es: seq<Event>, times: seq<nat>, start: nat)
    requires |es| == |times|
    ensures var last := LastSeen(x, es, times, start);
            SeenOn(DaysFrom(days, x, es, times), start) == if last.Some? then last else SeenOn(days, start)
    decreases |es|
  {
    hide Handle, DaysHandle, CountsAs, OnDayOf, SeenOn;
    if es != [] {
      SeenMoves(days, x, es[0], times[0], start);
      SeenLast(DaysHandle(days, x, es[0], times[0]), Handle(x, es[0]), es[1..], times[1..], start);
    }
  }

  /** A day has a row if and only if some event of that day was counted, and the row says how many
      agents there were after the last of them. */
  lemma DaysSeeAgents(es: seq<Event>, times: seq<nat>, start: nat)
    requires |es| == |times|
    ensures SeenOn(DaysFrom(map[], EMPTY, es, times), start) == LastSeen(EMPTY, es, times, start)
  {
    SeenLast(map[], EMPTY, es, times, start);
  }
}
