/** The agent's decision: which outcome to enter, with how much, or why not. Probabilities,
    edges and fractions are reals; amounts are integers. */
module Policy {
  import opened Numbers
  import opened Quotients
  import opened VestedWorld

  /** A book as the policy sees it; books stand in outcome order. */
  datatype BookView = BookView(principal: nat, headroom: int, trust: real)

  datatype MarketView = MarketView(status: Status, openedAt: int, resolutionTime: int, books: seq<BookView>,
                                   opposingTrust: map<nat, real>)

  datatype Knobs = Knobs(minEdge: real, edgeSaturation: real, freezeBufferSeconds: int, minVestingOutlook: real,
                         trustFloor: real, maxBankrollFraction: real, headroomUtilisation: real,
                         maxTicket: int, minTicket: int)

  datatype Rejection = NoHeadroom | EdgeBelowThreshold | BelowMinTicket

  datatype Reason =
    | MarketNotOpen | Frozen | InsideFreezeWindow | OutlookTooLow | NoEstimate | BankrollExhausted | Rejected(why: Rejection)

  datatype Candidate = Candidate(outcome: nat, impliedProbability: real, ownProbability: real, rawEdge: real,
                                 trust: real, edge: real, headroom: int, unbounded: bool, stake: int,
                                 rejection: Option<Rejection>)

  datatype Decision = Enters(outcome: nat, stake: int) | Abstains(reason: Reason)

  type Estimate = map<nat, real>

  function Clamp(x: real, low: real, high: real): real {
    if x < low then low else if x > high then high else x
  }

  function Max(a: real, b: real): real {
    if a > b then a else b
  }

  // ------------------------------------------------------------------ the four readings of the books

  function PoolFirst(books: seq<BookView>, k: nat): nat
    requires k <= |books|
  {
    if k == 0 then 0 else PoolFirst(books, k - 1) + books[k - 1].principal
  }

  /** q_w: an outcome's share of the principal. */
  function ImpliedOdds(books: seq<BookView>, w: nat): real
    requires w < |books|
  {
    Ratio(books[w].principal, PoolFirst(books, |books|))
  }

  /** The least bounded headroom among the first k books other than the outcome's. */
  function RoomFirst(books: seq<BookView>, outcome: nat, k: nat): Option<int>
    requires k <= |books|
  {
    if k == 0 then None
    else
      var room, h := RoomFirst(books, outcome, k - 1), books[k - 1].headroom;
      if k - 1 == outcome || h == UNBOUNDED then room
      else if room.None? || h < room.value then Some(h)
      else room
  }

  /** A book's trust, held between none and full. */
  function TrustOf(b: BookView): (t: real)
    ensures 0.0 <= t <= 1.0
  {
    Clamp(b.trust, 0.0, 1.0)
  }

  /** The trust a book's principal carries. */
  function Carried(b: BookView): real {
    TrustOf(b) * b.principal as real
  }

  /** Opposing principal, and the trust it carries, over the first k books. */
  function OpposingFirst(books: seq<BookView>, outcome: nat, k: nat): (nat, real)
    requires k <= |books|
  {
    if k == 0 then (0, 0.0)
    else
      var (total, weighted) := OpposingFirst(books, outcome, k - 1);
      var b := books[k - 1];
      if k - 1 == outcome then (total, weighted)
      else (total + b.principal, weighted + Carried(b))
  }

  function TrustAgainst(m: MarketView, outcome: nat, floor: real): real {
    if outcome in m.opposingTrust then Max(floor, Clamp(m.opposingTrust[outcome], 0.0, 1.0))
    else
      var (total, weighted) := OpposingFirst(m.books, outcome, |m.books|);
      if total == 0 then floor else Max(floor, Clamp(weighted / total as real, 0.0, 1.0))
  }

  // ------------------------------------------------------------------ one outcome

  function Least(a: int, b: int): int {
    if b < a then b else a
  }

  function Conviction(edge: real, knobs: Knobs): real {
    if knobs.edgeSaturation > 0.0 then Clamp(edge / knobs.edgeSaturation, 0.0, 1.0) else 1.0
  }

  /** The part of the bankroll staked when nothing else limits it. */
  function StakedFraction(knobs: Knobs, conviction: real, outlook: real): real {
    knobs.maxBankrollFraction * conviction * outlook
  }

  /** The stake: a share of the bankroll, within the room, the ticket limit and the bankroll. */
  function Size(edge: real, room: Option<int>, bankroll: int, outlook: real, knobs: Knobs): int {
    var target := ScaleByFraction(bankroll, StakedFraction(knobs, Conviction(edge, knobs), outlook));
    var roomCap := match room case None => target case Some(h) => ScaleByFraction(h, knobs.headroomUtilisation);
    Least(Least(Least(target, roomCap), knobs.maxTicket), bankroll)
  }

  function Evaluate(m: MarketView, o: nat, estimate: Estimate, bankroll: int, outlook: real, knobs: Knobs): Candidate
    requires o < |m.books|
  {
    var implied := ImpliedOdds(m.books, o);
    var own := if o in estimate then estimate[o] else 0.0;
    var trust := TrustAgainst(m, o, knobs.trustFloor);
    var edge := (own - implied) * trust;
    var room := RoomFirst(m.books, o, |m.books|);
    var base := Candidate(o, implied, own, own - implied, trust, edge, if room.None? then UNBOUNDED else room.value,
                          room.None?, 0, None);
    if room.Some? && room.value <= 0 then base.(rejection := Some(NoHeadroom))
    else if edge < knobs.minEdge then base.(rejection := Some(EdgeBelowThreshold))
    else
      var stake := Size(edge, room, bankroll, outlook, knobs);
      base.(stake := stake, rejection := if stake < knobs.minTicket then Some(BelowMinTicket) else None)
  }

  function Candidates(m: MarketView, estimate: Estimate, bankroll: int, outlook: real, knobs: Knobs, k: nat): (cs: seq<Candidate>)
    requires k <= |m.books|
    ensures |cs| == k
  {
    if k == 0 then []
    else Candidates(m, estimate, bankroll, outlook, knobs, k - 1) + [Evaluate(m, k - 1, estimate, bankroll, outlook, knobs)]
  }

  // ------------------------------------------------------------------ choosing

  function Viable(cs: seq<Candidate>): seq<Candidate> {
    if cs == [] then []
    else
      var front, last := Viable(cs[..|cs| - 1]), cs[|cs| - 1];
      if last.rejection == None then front + [last] else front
  }

  /** The larger edge, then the book with more room. */
  predicate Better(c: Candidate, d: Candidate) {
    c.edge > d.edge ||
    (c.edge == d.edge && ((c.unbounded && !d.unbounded) || (c.unbounded == d.unbounded && c.headroom > d.headroom)))
  }

  function BestFirst(cs: seq<Candidate>, k: nat): Candidate
    requires 0 < k <= |cs|
  {
    if k == 1 then cs[0]
    else
      var best := BestFirst(cs, k - 1);
      if Better(cs[k - 1], best) then cs[k - 1] else best
  }

  predicate SomeRejected(cs: seq<Candidate>, why: Rejection) {
    exists i | 0 <= i < |cs| :: cs[i].rejection == Some(why)
  }

  function ClosestMiss(cs: seq<Candidate>): Rejection {
    if SomeRejected(cs, BelowMinTicket) then BelowMinTicket
    else if SomeRejected(cs, EdgeBelowThreshold) then EdgeBelowThreshold
    else NoHeadroom
  }

  function Outlook(m: MarketView, now: int): real {
    var window := if m.resolutionTime - m.openedAt > 1 then m.resolutionTime - m.openedAt else 1;
    Clamp((m.resolutionTime - now) as real / window as real, 0.0, 1.0)
  }

  /** The market-wide reasons not to enter, in order. */
  function Veto(m: MarketView, estimate: Option<Estimate>, bankroll: int, now: int, knobs: Knobs): Option<Reason> {
    if m.status != Open then Some(MarketNotOpen)
    else if m.resolutionTime - now <= 0 then Some(Frozen)
    else if m.resolutionTime - now < knobs.freezeBufferSeconds then Some(InsideFreezeWindow)
    else if Outlook(m, now) < knobs.minVestingOutlook then Some(OutlookTooLow)
    else if estimate == None then Some(NoEstimate)
    else if bankroll < knobs.minTicket then Some(BankrollExhausted)
    else None
  }

  function Weighed(m: MarketView, estimate: Estimate, bankroll: int, now: int, knobs: Knobs): seq<Candidate> {
    Candidates(m, estimate, bankroll, Outlook(m, now), knobs, |m.books|)
  }

  function Decide(m: MarketView, estimate: Option<Estimate>, bankroll: int, now: int, knobs: Knobs): Decision {
    match Veto(m, estimate, bankroll, now, knobs)
    case Some(r) => Abstains(r)
    case None =>
      var cs := Weighed(m, estimate.value, bankroll, now, knobs);
      if Viable(cs) == [] then Abstains(Rejected(ClosestMiss(cs)))
      else var best := BestFirst(Viable(cs), |Viable(cs)|); Enters(best.outcome, best.stake)
  }

  // ------------------------------------------------------------------ the same with loops

  method AcceptanceHeadroom(books: seq<BookView>, outcome: nat) returns (headroom: int, unbounded: bool)
    ensures var room := RoomFirst(books, outcome, |books|);
            unbounded == room.None? && headroom == if room.None? then UNBOUNDED else room.value
  {
    var tightest: Option<int> := None;
    for k := 0 to |books|
      invariant tightest == RoomFirst(books, outcome, k)
    {
      if k == outcome || books[k].headroom == UNBOUNDED { continue; }
      if tightest.None? || books[k].headroom < tightest.value { tightest := Some(books[k].headroom); }
    }
    if tightest.None? { return UNBOUNDED, true; }
    return tightest.value, false;
  }

  method CounterpartyTrust(m: MarketView, outcome: nat, floor: real) returns (trust: real)
    ensures trust == TrustAgainst(m, outcome, floor)
  {
    if outcome in m.opposingTrust { return Max(floor, Clamp(m.opposingTrust[outcome], 0.0, 1.0)); }
    var total, weighted := 0, 0.0;
    for k := 0 to |m.books|
      invariant (total, weighted) == OpposingFirst(m.books, outcome, k)
    {
      if k == outcome { continue; }
      total := total + m.books[k].principal;
      weighted := weighted + Carried(m.books[k]);
    }
    if total == 0 { return floor; }
    trust := Max(floor, Clamp(weighted / total as real, 0.0, 1.0));
  }

  /** The decision with the selection made in one pass over the survivors. */
  method Choose(m: MarketView, estimate: Option<Estimate>, bankroll: int, now: int, knobs: Knobs) returns (d: Decision)
    ensures d == Decide(m, estimate, bankroll, now, knobs)
  {
    var veto := Veto(m, estimate, bankroll, now, knobs);
    if veto.Some? { return Abstains(veto.value); }
    var cs := Weighed(m, estimate.value, bankroll, now, knobs);
    var viable := Viable(cs);
    if viable == [] { return Abstains(Rejected(ClosestMiss(cs))); }
    var best := viable[0];
    for k := 1 to |viable|
      invariant best == BestFirst(viable, k)
    {
      if viable[k].edge > best.edge {
        best := viable[k];
      } else if viable[k].edge == best.edge {
        var roomier := (viable[k].unbounded && !best.unbounded)
                       || (viable[k].unbounded == best.unbounded && viable[k].headroom > best.headroom);
        if roomier { best := viable[k]; }
      }
    }
    d := Enters(best.outcome, best.stake);
  }

  // ------------------------------------------------------------------ what a decision promises

  lemma {:induction false} CandidateAt(m: MarketView, estimate: Estimate, bankroll: int, outlook: real, knobs: Knobs, k: nat,
                                       o: nat)
    requires o < k <= |m.books|
    ensures Candidates(m, estimate, bankroll, outlook, knobs, k)[o] == Evaluate(m, o, estimate, bankroll, outlook, knobs)
    decreases k
  {
    if o < k - 1 { CandidateAt(m, estimate, bankroll, outlook, knobs, k - 1, o); }
  }

  /** The survivors are the candidates not rejected, in outcome order. */
  lemma {:induction false} ViableAre(cs: seq<Candidate>)
    requires forall i :: 0 <= i < |cs| ==> cs[i].outcome == i
    ensures forall c :: c in Viable(cs) <==> c in cs && c.rejection == None
    ensures forall i, j :: 0 <= i < j < |Viable(cs)| ==> Viable(cs)[i].outcome < Viable(cs)[j].outcome
    decreases |cs|
  {
    if cs != [] {
      var front := cs[..|cs| - 1];
      ViableAre(front);
      assert cs == front + [cs[|cs| - 1]];
      forall i | 0 <= i < |Viable(front)| ensures Viable(front)[i].outcome < |cs| - 1 {
        assert Viable(front)[i] in front;
      }
    }
  }

  /** The best of a list is one of it, none of it is better, and none before it is as good. */
  lemma {:induction false} BestIs(cs: seq<Candidate>, k: nat) returns (at: nat)
    requires 0 < k <= |cs|
    ensures at < k && BestFirst(cs, k) == cs[at]
    ensures forall i :: 0 <= i < k ==> !Better(cs[i], cs[at])
    ensures forall i :: 0 <= i < at ==> Better(cs[at], cs[i])
    decreases k
  {
    if k == 1 {
      at := 0;
    } else {
      at := BestIs(cs, k - 1);
      if Better(cs[k - 1], cs[at]) { at := k - 1; }
    }
  }

  // ------------------------------------------------------------------ counterparty trust

  /** Every book against the outcome is trusted between lo and hi. */
  ghost predicate TrustedWithin(books: seq<BookView>, outcome: nat, lo: real, hi: real) {
    forall k :: 0 <= k < |books| && k != outcome ==> lo <= TrustOf(books[k]) <= hi
  }

  /** The weighted trust is between lo and hi times the principal it is weighted by. */
  ghost predicate Weighs(sums: (nat, real), lo: real, hi: real) {
    lo * sums.0 as real <= sums.1 <= hi * sums.0 as real
  }

  lemma {:induction false} WeightsWithin(books: seq<BookView>, outcome: nat, k: nat, lo: real, hi: real)
    requires k <= |books| && TrustedWithin(books, outcome, lo, hi)
    ensures Weighs(OpposingFirst(books, outcome, k), lo, hi)
    decreases k
  {
    hide Weighs, TrustOf, Carried;
    if k == 0 {
      WeighsNothing(lo, hi);
    } else {
      WeightsWithin(books, outcome, k - 1, lo, hi);
      if k - 1 != outcome { WeighsMore(OpposingFirst(books, outcome, k - 1), books[k - 1], lo, hi); }
    }
  }

  lemma WeighsNothing(lo: real, hi: real)
    ensures Weighs((0, 0.0), lo, hi)
  {
    assert lo * 0.0 == 0.0 == hi * 0.0;
  }

  lemma WeighsMore(sums: (nat, real), b: BookView, lo: real, hi: real)
    requires Weighs(sums, lo, hi) && lo <= TrustOf(b) <= hi
    ensures Weighs((sums.0 + b.principal, sums.1 + Carried(b)), lo, hi)
  {
    var t, p := sums.0 as real, b.principal as real;
    WeighArithmetic(lo, hi, TrustOf(b), t, p, (sums.0 + b.principal) as real, sums.1, Carried(b));
  }

  lemma WeighArithmetic(lo: real, hi: real, trust: real, t: real, p: real, both: real, weighted: real, carried: real)
    requires lo <= trust <= hi && p >= 0.0 && lo * t <= weighted <= hi * t && both == t + p && carried == trust * p
    ensures lo * both <= weighted + carried <= hi * both
  {
    WeighStep(lo, trust, p);
    WeighStep(trust, hi, p);
    WeighSplit(lo, t, p, both);
    WeighSplit(hi, t, p, both);
  }

  lemma WeighStep(x: real, y: real, p: real)
    requires x <= y && p >= 0.0
    ensures x * p <= y * p
  {
  }

  lemma WeighSplit(x: real, t: real, p: real, both: real)
    requires both == t + p
    ensures x * both == x * t + x * p
  {
  }

  lemma MeanWithin(sums: (nat, real), lo: real, hi: real)
    requires sums.0 > 0 && Weighs(sums, lo, hi)
    ensures lo <= sums.1 / sums.0 as real <= hi
  {
    QuotLe(lo, sums.1, sums.0 as real);
    QuotGe(hi, sums.1, sums.0 as real);
  }

  /** Trust is never below the floor, nor above the greater of the floor and one. Unless a figure is
      supplied it is a mean over the opposing books, between the least and the greatest of them
      by whatever principal they are weighted; with no principal against the outcome it is the
      floor. */
  lemma TrustIsMean(m: MarketView, outcome: nat, floor: real, lo: real, hi: real)
    requires TrustedWithin(m.books, outcome, lo, hi)
    ensures floor <= TrustAgainst(m, outcome, floor) <= Max(floor, 1.0)
    ensures var total := OpposingFirst(m.books, outcome, |m.books|).0;
            outcome !in m.opposingTrust ==>
              if total == 0 then TrustAgainst(m, outcome, floor) == floor
              else Max(floor, Clamp(lo, 0.0, 1.0)) <= TrustAgainst(m, outcome, floor) <= Max(floor, Clamp(hi, 0.0, 1.0))
  {
    hide Weighs, TrustOf, OpposingFirst;
    WeightsWithin(m.books, outcome, |m.books|, lo, hi);
    var sums := OpposingFirst(m.books, outcome, |m.books|);
    if sums.0 > 0 { MeanWithin(sums, lo, hi); }
  }

  /** Outcome o's candidate in this decision. */
  function CandidateFor(m: MarketView, estimate: Estimate, bankroll: int, now: int, knobs: Knobs, o: nat): Candidate
    requires o < |m.books|
  {
    Evaluate(m, o, estimate, bankroll, Outlook(m, now), knobs)
  }

  lemma WeighedAt(m: MarketView, estimate: Estimate, bankroll: int, now: int, knobs: Knobs)
    ensures var cs := Weighed(m, estimate, bankroll, now, knobs);
            forall i :: 0 <= i < |cs| ==> cs[i] == CandidateFor(m, estimate, bankroll, now, knobs, i) && cs[i].outcome == i
  {
    hide Evaluate, Outlook;
    forall i | 0 <= i < |m.books|
      ensures Weighed(m, estimate, bankroll, now, knobs)[i] == CandidateFor(m, estimate, bankroll, now, knobs, i)
      ensures CandidateFor(m, estimate, bankroll, now, knobs, i).outcome == i
    {
      CandidateAt(m, estimate, bankroll, Outlook(m, now), knobs, |m.books|, i);
      OutcomeIs(m, estimate, bankroll, Outlook(m, now), knobs, i);
    }
  }

  lemma OutcomeIs(m: MarketView, estimate: Estimate, bankroll: int, outlook: real, knobs: Knobs, o: nat)
    requires o < |m.books|
    ensures Evaluate(m, o, estimate, bankroll, outlook, knobs).outcome == o
  {
  }

  /** The agent enters exactly when nothing vetoes the market and some outcome survives. */
  lemma EntersExactlyWhen(m: MarketView, estimate: Option<Estimate>, bankroll: int, now: int, knobs: Knobs)
    ensures Decide(m, estimate, bankroll, now, knobs).Enters? <==>
            && Veto(m, estimate, bankroll, now, knobs) == None
            && exists o :: 0 <= o < |m.books| && CandidateFor(m, estimate.value, bankroll, now, knobs, o).rejection == None
  {
    hide Evaluate, Outlook, CandidateFor;
    if Veto(m, estimate, bankroll, now, knobs) == None {
      var cs := Weighed(m, estimate.value, bankroll, now, knobs);
      WeighedAt(m, estimate.value, bankroll, now, knobs);
      ViableAre(cs);
      if Viable(cs) != [] { assert Viable(cs)[0] in cs; }
      if o :| 0 <= o < |m.books| && CandidateFor(m, estimate.value, bankroll, now, knobs, o).rejection == None {
        assert cs[o] in cs;
      }
    }
  }

  /** The outcome entered is the best of the survivors: none has more edge, or as much and more
      room, and of equals the lowest is taken. */
  lemma ChoosesBest(m: MarketView, estimate: Option<Estimate>, bankroll: int, now: int, knobs: Knobs, p: nat)
    requires Decide(m, estimate, bankroll, now, knobs).Enters? && p < |m.books|
    ensures var d := Decide(m, estimate, bankroll, now, knobs);
            && estimate.Some? && d.outcome < |m.books|
            && var c, e := CandidateFor(m, estimate.value, bankroll, now, knobs, d.outcome),
                           CandidateFor(m, estimate.value, bankroll, now, knobs, p);
               && c.rejection == None && c.stake == d.stake
               && (e.rejection == None ==> !Better(e, c) && (p < d.outcome ==> Better(c, e)))
  {
    hide Evaluate, Outlook, CandidateFor, Better;
    var cs := Weighed(m, estimate.value, bankroll, now, knobs);
    WeighedAt(m, estimate.value, bankroll, now, knobs);
    ViableAre(cs);
    var at := BestIs(Viable(cs), |Viable(cs)|);
    assert Viable(cs)[at] in cs;
    if cs[p].rejection == None {
      assert cs[p] in Viable(cs);
      var i :| 0 <= i < |Viable(cs)| && Viable(cs)[i] == cs[p];
    }
  }

  /** A stake is a ticket the policy allows, and affordable. */
  lemma StakeWithinLimits(m: MarketView, estimate: Option<Estimate>, bankroll: int, now: int, knobs: Knobs)
    requires Decide(m, estimate, bankroll, now, knobs).Enters?
    ensures var s := Decide(m, estimate, bankroll, now, knobs).stake;
            knobs.minTicket <= s <= knobs.maxTicket && s <= bankroll
  {
    hide Decide, Outlook, ImpliedOdds, TrustAgainst, Conviction, ScaleByFraction, RoomFirst;
    if |m.books| > 0 {
      ChoosesBest(m, estimate, bankroll, now, knobs, 0);
    } else {
      EntersExactlyWhen(m, estimate, bankroll, now, knobs);
    }
  }

  // ------------------------------------------------------------------ room

  /** A fraction of at most one never scales a non-negative amount up. */
  lemma ScaleShrinks(value: int, fraction: real)
    requires value >= 0 && fraction <= 1.0
    ensures 0 <= ScaleByFraction(value, fraction) <= value
  {
    if fraction > 0.0 {
      var n := Nanos(fraction);
      assert 0 <= n <= FRACTION_SCALE;
      MulMono(0, n, value);
      MulMono(n, FRACTION_SCALE, value);
      DivNonNegative(value * n, FRACTION_SCALE);
      FloorMono(value * n, value * FRACTION_SCALE, FRACTION_SCALE);
      FloorShift(0, value, FRACTION_SCALE);
    }
  }

  /** With no more than all of the room to be used, the stake is within the opposing books' room. */
  lemma StakeWithinRoom(m: MarketView, estimate: Option<Estimate>, bankroll: int, now: int, knobs: Knobs)
    requires Decide(m, estimate, bankroll, now, knobs).Enters? && knobs.headroomUtilisation <= 1.0
    ensures var d := Decide(m, estimate, bankroll, now, knobs);
            && d.outcome < |m.books|
            && var room := RoomFirst(m.books, d.outcome, |m.books|);
               room.Some? ==> 0 < room.value && d.stake <= room.value
  {
    hide Decide, Outlook, ImpliedOdds, TrustAgainst, Conviction, ScaleByFraction, RoomFirst;
    EntersExactlyWhen(m, estimate, bankroll, now, knobs);
    ChoosesBest(m, estimate, bankroll, now, knobs, 0);
    var room := RoomFirst(m.books, Decide(m, estimate, bankroll, now, knobs).outcome, |m.books|);
    if room.Some? && room.value > 0 { ScaleShrinks(room.value, knobs.headroomUtilisation); }
  }

  // ------------------------------------------------------------------ a market of the world

  /** The snapshot the world gives of a market: principal and headroom of each book as it stands. */
  ghost function SnapshotOf(mk: Market, openedAt: int, trust: nat -> real): (m: MarketView)
    requires Funded(mk.books)
    ensures |m.books| == |mk.books|
  {
    MarketView(mk.status, openedAt, mk.resolutionTime,
               seq(|mk.books|, o requires 0 <= o < |mk.books| =>
                 BookView(mk.books[o].principal, Headroom(mk.books[o]), trust(o))),
               map[])
  }

  lemma {:induction false} RoomIsTightest(mk: Market, openedAt: int, trust: nat -> real, outcome: nat, k: nat)
    requires Funded(mk.books) && k <= |mk.books|
    ensures RoomFirst(SnapshotOf(mk, openedAt, trust).books, outcome, k) == Tightest(mk.books, outcome, k)
    decreases k
  {
    if k > 0 { RoomIsTightest(mk, openedAt, trust, outcome, k - 1); }
  }

  /** Whatever the policy decides on a current snapshot, with no more than all of the room to be
      used, the world accepts whole: nothing of the stake is refused. */
  lemma DecisionIsFilled(w: World, i: nat, openedAt: int, trust: nat -> real, estimate: Option<Estimate>,
                         bankroll: int, now: int, knobs: Knobs, owner: string)
    requires WellFormed(w) && i < |w.markets| && knobs.headroomUtilisation <= 1.0
    requires Decide(SnapshotOf(w.markets[i], openedAt, trust), estimate, bankroll, now, knobs).Enters?
    ensures var d := Decide(SnapshotOf(w.markets[i], openedAt, trust), estimate, bankroll, now, knobs);
            var r := Enter(w, w.markets[i].id, d.outcome, d.stake, owner).1;
            r.Entered? && r.refused == 0 && r.position.accepted == d.stake
  {
    hide Decide;
    var m := SnapshotOf(w.markets[i], openedAt, trust);
    var d := Decide(m, estimate, bankroll, now, knobs);
    StakeWithinRoom(m, estimate, bankroll, now, knobs);
    RoomIsTightest(w.markets[i], openedAt, trust, d.outcome, |m.books|);
    FindSelf(w, i);
  }

  /** Using more than all of the room asks for a partial fill: the world accepts a decision whole
      exactly when its stake is within the room the snapshot shows. */
  lemma FilledExactlyWhen(w: World, i: nat, openedAt: int, trust: nat -> real, outcome: nat, stake: int, owner: string)
    requires WellFormed(w) && i < |w.markets| && outcome < |w.markets[i].books|
    ensures var room := RoomFirst(SnapshotOf(w.markets[i], openedAt, trust).books, outcome, |w.markets[i].books|);
            var r := Enter(w, w.markets[i].id, outcome, stake, owner).1;
            r.Entered? && (r.refused == 0 <==> room.None? || stake <= room.value)
  {
    RoomIsTightest(w.markets[i], openedAt, trust, outcome, |w.markets[i].books|);
    FindSelf(w, i);
  }
}
