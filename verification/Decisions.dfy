/** The agent's decision told from principals, headrooms, trust and the estimate alone: what an
    outcome's edge is, how much is staked on it, which outcome is entered and why none is. */
module Decisions {
  import opened Numbers
  import opened VestedWorld
  import opened Settlements
  import opened Policy

  // ------------------------------------------------------------------ prices

  function AllPrincipal(books: seq<BookView>): nat {
    if books == [] then 0 else books[0].principal + AllPrincipal(books[1..])
  }

  /** An outcome's share of the principal, to nine decimals without the rest; of nothing, nothing. */
  function Price(books: seq<BookView>, o: nat): real
    requires o < |books|
  {
    if AllPrincipal(books) == 0 then 0.0
    else ((books[o].principal * 1_000_000_000) / AllPrincipal(books)) as real / 1_000_000_000.0
  }

  lemma {:induction false} AllPrincipalSnoc(books: seq<BookView>, b: BookView)
    ensures AllPrincipal(books + [b]) == AllPrincipal(books) + b.principal
  {
    if books != [] {
      AllPrincipalSnoc(books[1..], b);
      assert (books + [b])[1..] == books[1..] + [b];
    }
  }

  lemma {:induction false} PoolIsAll(books: seq<BookView>, k: nat)
    requires k <= |books|
    ensures PoolFirst(books, k) == AllPrincipal(books[..k])
  {
    if k > 0 {
      PoolIsAll(books, k - 1);
      AllPrincipalSnoc(books[..k - 1], books[k - 1]);
      assert books[..k] == books[..k - 1] + [books[k - 1]];
    }
  }

  lemma PriceIs(books: seq<BookView>, o: nat)
    requires o < |books|
    ensures ImpliedOdds(books, o) == Price(books, o)
  {
    PoolIsAll(books, |books|);
    assert books[..|books|] == books;
  }

  /** The price is the share of the principal, short of it by less than a billionth. */
  lemma PriceIsShare(books: seq<BookView>, o: nat)
    requires o < |books| && AllPrincipal(books) > 0
    ensures var p, pool := books[o].principal as real, AllPrincipal(books) as real;
            Price(books, o) * pool <= p < (Price(books, o) + 0.000_000_001) * pool
  {
    var value, pool := books[o].principal * 1_000_000_000, AllPrincipal(books);
    var q := value / pool;
    FloorBounds(value, pool);
    ShareArithmetic(q as real, pool as real, (q * pool) as real, Price(books, o));
  }

  lemma ShareArithmetic(q: real, pool: real, product: real, price: real)
    requires product == q * pool && price == q / 1_000_000_000.0
    ensures price * pool == product / 1_000_000_000.0
    ensures (price + 0.000_000_001) * pool == (product + pool) / 1_000_000_000.0
  {
    assert price * 1_000_000_000.0 == q;
    assert (price * 1_000_000_000.0) * pool == (price * pool) * 1_000_000_000.0;
    assert (price + 0.000_000_001) * pool == price * pool + 0.000_000_001 * pool;
  }

  // ------------------------------------------------------------------ trust

  /** Held between none and full. */
  function Held(x: real): real {
    if x < 0.0 then 0.0 else if x > 1.0 then 1.0 else x
  }

  /** A book's trust by its principal. */
  function Weight(b: BookView): real {
    Held(b.trust) * b.principal as real
  }

  function AllWeight(books: seq<BookView>): real {
    if books == [] then 0.0 else Weight(books[0]) + AllWeight(books[1..])
  }

  /** How far the other side of outcome o is trusted: as supplied, or else the mean of the other books'
      trust by their principal; the floor at least, and the floor alone when no one is on the other side. */
  function Trust(m: MarketView, o: nat, floor: real): real
    requires o < |m.books|
  {
    var others := AllPrincipal(m.books) - m.books[o].principal;
    var trust := if o in m.opposingTrust then Held(m.opposingTrust[o])
                 else if others == 0 then floor
                 else (AllWeight(m.books) - Weight(m.books[o])) / others as real;
    if trust < floor then floor else trust
  }

  lemma {:induction false} AllWeightSnoc(books: seq<BookView>, b: BookView)
    ensures AllWeight(books + [b]) == AllWeight(books) + Weight(b)
  {
    hide Weight;
    if books != [] {
      AllWeightSnoc(books[1..], b);
      assert (books + [b])[1..] == books[1..] + [b];
    }
  }

  lemma {:induction false} OpposingIs(books: seq<BookView>, o: nat, k: nat)
    requires o < |books| && k <= |books|
    ensures OpposingFirst(books, o, k).0 == AllPrincipal(books[..k]) - (if o < k then books[o].principal else 0)
    ensures OpposingFirst(books, o, k).1 == AllWeight(books[..k]) - (if o < k then Weight(books[o]) else 0.0)
    decreases k
  {
    hide Carried, Weight, TrustOf, Held;
    if k > 0 {
      OpposingIs(books, o, k - 1);
      AllPrincipalSnoc(books[..k - 1], books[k - 1]);
      AllWeightSnoc(books[..k - 1], books[k - 1]);
      CarriedIs(books[k - 1]);
      assert books[..k] == books[..k - 1] + [books[k - 1]];
    }
  }

  lemma CarriedIs(b: BookView)
    ensures Carried(b) == Weight(b) && 0.0 <= TrustOf(b) <= 1.0
  {
  }

  /** The mean of trusts held between none and full needs no holding. */
  lemma TrustIs(m: MarketView, o: nat, floor: real)
    requires o < |m.books|
    ensures TrustAgainst(m, o, floor) == Trust(m, o, floor)
  {
    hide OpposingFirst, Carried, Held, AllPrincipal, AllWeight, Weight, TrustOf;
    var books, sums := m.books, OpposingFirst(m.books, o, |m.books|);
    OpposingIs(books, o, |books|);
    CarriedIs(books[o]);
    assert books[..|books|] == books;
    if o in m.opposingTrust {
      HeldIs(m.opposingTrust[o]);
    } else if sums.0 > 0 {
      MeanIsHeld(books, o);
    }
  }

  lemma HeldIs(x: real)
    ensures Clamp(x, 0.0, 1.0) == Held(x) && (0.0 <= x <= 1.0 ==> Held(x) == x)
  {
  }

  lemma MeanIsHeld(books: seq<BookView>, o: nat)
    requires o < |books| && OpposingFirst(books, o, |books|).0 > 0
    ensures var sums := OpposingFirst(books, o, |books|);
            Clamp(sums.1 / sums.0 as real, 0.0, 1.0) == sums.1 / sums.0 as real
  {
    hide OpposingFirst, Weighs;
    WeightsWithin(books, o, |books|, 0.0, 1.0);
    MeanWithin(OpposingFirst(books, o, |books|), 0.0, 1.0);
  }

  // ------------------------------------------------------------------ room

  /** Book k stands against an entry on o and limits it. */
  ghost predicate LimitsEntry(books: seq<BookView>, k: nat, o: nat) {
    k < |books| && k != o && books[k].headroom != UNBOUNDED
  }

  /** x is within the headroom of every book that limits an entry on o. */
  ghost predicate Fits(books: seq<BookView>, o: nat, x: int) {
    forall k :: 0 <= k < |books| && LimitsEntry(books, k, o) ==> x <= books[k].headroom
  }

  /** Some amount fits on o and not on p. */
  ghost predicate MoreRoom(books: seq<BookView>, o: nat, p: nat) {
    exists x: int :: Fits(books, o, x) && !Fits(books, p, x)
  }

  /** h is the least headroom that limits an entry on o. */
  ghost predicate LeastRoom(books: seq<BookView>, o: nat, h: int) {
    Fits(books, o, h) && !Fits(books, o, h + 1)
  }

  lemma {:induction false} RoomFits(books: seq<BookView>, o: nat, k: nat, x: int)
    requires k <= |books|
    ensures RoomFirst(books, o, k).None? || x <= RoomFirst(books, o, k).value <==>
            forall j :: 0 <= j < k && LimitsEntry(books, j, o) ==> x <= books[j].headroom
    decreases k
  {
    if k > 0 {
      RoomFits(books, o, k - 1, x);
      assert LimitsEntry(books, k - 1, o) <==> k - 1 != o && books[k - 1].headroom != UNBOUNDED;
    }
  }

  lemma RoomIs(books: seq<BookView>, o: nat)
    ensures var room := RoomFirst(books, o, |books|);
            && (forall x: int :: Fits(books, o, x) <==> room.None? || x <= room.value)
            && (forall h: int :: LeastRoom(books, o, h) <==> room == Some(h))
  {
    var room := RoomFirst(books, o, |books|);
    forall x: int ensures Fits(books, o, x) <==> room.None? || x <= room.value {
      RoomFits(books, o, |books|, x);
    }
  }

  lemma MoreRoomIs(books: seq<BookView>, o: nat, p: nat)
    ensures var a, b := RoomFirst(books, o, |books|), RoomFirst(books, p, |books|);
            MoreRoom(books, o, p) <==> b.Some? && (a.None? || a.value > b.value)
  {
    var a, b := RoomFirst(books, o, |books|), RoomFirst(books, p, |books|);
    RoomIs(books, o);
    RoomIs(books, p);
    hide Fits;
    if b.Some? && (a.None? || a.value > b.value) {
      assert Fits(books, o, b.value + 1) && !Fits(books, p, b.value + 1);
    }
  }

  // ------------------------------------------------------------------ the stake

  /** The part of the arrival window that is left. */
  function WindowLeft(m: MarketView, now: int): real {
    var window := m.resolutionTime - m.openedAt;
    Held((m.resolutionTime - now) as real / (if window < 1 then 1 else window) as real)
  }

  /** The edge as a part of the edge at which conviction is full. */
  function PartOfFull(edge: real, knobs: Knobs): real {
    if knobs.edgeSaturation > 0.0 then Held(edge / knobs.edgeSaturation) else 1.0
  }

  /** The agent's own probability less the price, as far as the other side is trusted. */
  function Edge(m: MarketView, estimate: Estimate, o: nat, floor: real): real
    requires o < |m.books|
  {
    ((if o in estimate then estimate[o] else 0.0) - Price(m.books, o)) * Trust(m, o, floor)
  }

  /** The part of the bankroll that is staked if nothing else limits it. */
  function BankrollPart(knobs: Knobs, conviction: real, window: real): real {
    knobs.maxBankrollFraction * conviction * window
  }

  /** What the stake on o may not exceed: the bankroll, a ticket, a part of the bankroll by conviction
      and window, and a part of the least room if any book limits it. */
  ghost predicate Caps(m: MarketView, estimate: Estimate, bankroll: int, now: int, knobs: Knobs, o: nat, caps: seq<int>)
    requires o < |m.books|
  {
    var conviction := PartOfFull(Edge(m, estimate, o, knobs.trustFloor), knobs);
    && |caps| >= 3 && caps[0] == bankroll && caps[1] == knobs.maxTicket
    && Scaled(caps[2], bankroll, BankrollPart(knobs, conviction, WindowLeft(m, now)))
    && if exists h :: LeastRoom(m.books, o, h)
       then |caps| == 4 && exists h :: LeastRoom(m.books, o, h) && Scaled(caps[3], h, knobs.headroomUtilisation)
       else |caps| == 3
  }

  /** The stake is the least of the caps. */
  ghost predicate Staked(m: MarketView, estimate: Estimate, bankroll: int, now: int, knobs: Knobs, o: nat, stake: int)
    requires o < |m.books|
  {
    exists caps :: Caps(m, estimate, bankroll, now, knobs, o, caps)
                   && stake in caps && forall x :: x in caps ==> stake <= x
  }

  lemma EdgeIs(m: MarketView, estimate: Estimate, bankroll: int, now: int, knobs: Knobs, o: nat)
    requires o < |m.books|
    ensures var c := CandidateFor(m, estimate, bankroll, now, knobs, o);
            && c.edge == Edge(m, estimate, o, knobs.trustFloor) && c.trust == Trust(m, o, knobs.trustFloor)
            && c.unbounded == RoomFirst(m.books, o, |m.books|).None?
            && (!c.unbounded ==> c.headroom == RoomFirst(m.books, o, |m.books|).value)
            && (c.unbounded ==> c.headroom == UNBOUNDED)
  {
    hide ImpliedOdds, TrustAgainst, Price, Trust, Size, Outlook;
    PriceIs(m.books, o);
    TrustIs(m, o, knobs.trustFloor);
  }

  lemma WindowIs(m: MarketView, now: int)
    ensures Outlook(m, now) == WindowLeft(m, now)
  {
  }

  lemma PartIs(edge: real, knobs: Knobs)
    ensures Conviction(edge, knobs) == PartOfFull(edge, knobs)
  {
  }

  function Target(bankroll: int, edge: real, outlook: real, knobs: Knobs): int {
    ScaleByFraction(bankroll, BankrollPart(knobs, Conviction(edge, knobs), outlook))
  }

  /** The caps a candidate is sized by. */
  function CapsOf(bankroll: int, target: int, room: Option<int>, knobs: Knobs): (caps: seq<int>)
    ensures |caps| >= 3 && caps[0] == bankroll && caps[1] == knobs.maxTicket && caps[2] == target
    ensures if room.None? then |caps| == 3
            else |caps| == 4 && caps[3] == ScaleByFraction(room.value, knobs.headroomUtilisation)
  {
    [bankroll, knobs.maxTicket, target] +
    match room case None => [] case Some(h) => [ScaleByFraction(h, knobs.headroomUtilisation)]
  }

  lemma SameCaps(caps: seq<int>, others: seq<int>)
    requires |caps| == |others| && 3 <= |caps| <= 4
    ensures caps == others <==>
            caps[0] == others[0] && caps[1] == others[1] && caps[2] == others[2] && (|caps| == 4 ==> caps[3] == others[3])
  {
  }

  lemma CapsAre(m: MarketView, estimate: Estimate, bankroll: int, now: int, knobs: Knobs, o: nat, caps: seq<int>)
    requires o < |m.books|
    ensures Caps(m, estimate, bankroll, now, knobs, o, caps) <==>
            caps == CapsOf(bankroll, Target(bankroll, Edge(m, estimate, o, knobs.trustFloor), Outlook(m, now), knobs),
                           RoomFirst(m.books, o, |m.books|), knobs)
  {
    hide Edge, Outlook, WindowLeft, Conviction, PartOfFull, Scaled, ScaleByFraction, LeastRoom, RoomFirst,
        BankrollPart, CapsOf;
    var edge := Edge(m, estimate, o, knobs.trustFloor);
    WindowIs(m, now);
    PartIs(edge, knobs);
    RoomIs(m.books, o);
    var room := RoomFirst(m.books, o, |m.books|);
    if room.Some? { assert LeastRoom(m.books, o, room.value); }
    if |caps| == if room.None? then 3 else 4 {
      SameCaps(caps, CapsOf(bankroll, Target(bankroll, edge, Outlook(m, now), knobs), room, knobs));
      ScaledIs(caps[2], bankroll, BankrollPart(knobs, PartOfFull(edge, knobs), WindowLeft(m, now)));
      if room.Some? { ScaledIs(caps[3], room.value, knobs.headroomUtilisation); }
    }
  }

  /** The size of a stake is the least of its caps. */
  lemma SizeIsLeast(edge: real, room: Option<int>, bankroll: int, outlook: real, knobs: Knobs)
    ensures var caps, stake := CapsOf(bankroll, Target(bankroll, edge, outlook, knobs), room, knobs),
                               Size(edge, room, bankroll, outlook, knobs);
            stake in caps && forall x :: x in caps ==> stake <= x
  {
    hide CapsOf, Conviction, ScaleByFraction, BankrollPart, StakedFraction;
    FractionIs(knobs, Conviction(edge, knobs), outlook);
    var caps := CapsOf(bankroll, Target(bankroll, edge, outlook, knobs), room, knobs);
    var stake := Size(edge, room, bankroll, outlook, knobs);
    assert stake == caps[0] || stake == caps[1] || stake == caps[2] || (room.Some? && stake == caps[3]);
    forall x | x in caps ensures stake <= x {
      var k :| 0 <= k < |caps| && caps[k] == x;
      assert k == 0 || k == 1 || k == 2 || k == 3;
    }
  }

  lemma FractionIs(knobs: Knobs, conviction: real, window: real)
    ensures StakedFraction(knobs, conviction, window) == BankrollPart(knobs, conviction, window)
  {
  }

  lemma StakedIs(m: MarketView, estimate: Estimate, bankroll: int, now: int, knobs: Knobs, o: nat, stake: int)
    requires o < |m.books|
    ensures Staked(m, estimate, bankroll, now, knobs, o, stake) <==>
            stake == Size(Edge(m, estimate, o, knobs.trustFloor), RoomFirst(m.books, o, |m.books|), bankroll,
                Outlook(m, now), knobs)
  {
    hide Edge, Outlook, Size, CapsOf, Caps, RoomFirst, Target;
    var edge, room, outlook := Edge(m, estimate, o, knobs.trustFloor), RoomFirst(m.books, o, |m.books|), Outlook(m, now);
    SizeIsLeast(edge, room, bankroll, outlook, knobs);
    var caps := CapsOf(bankroll, Target(bankroll, edge, outlook, knobs), room, knobs);
    CapsAre(m, estimate, bankroll, now, knobs, o, caps);
    if Staked(m, estimate, bankroll, now, knobs, o, stake) {
      var other :| Caps(m, estimate, bankroll, now, knobs, o, other) && stake in other
          && forall x :: x in other ==> stake <= x;
      CapsAre(m, estimate, bankroll, now, knobs, o, other);
    }
  }

  // ------------------------------------------------------------------ which outcome, and why none

  /** Every book that limits an entry on o has some headroom left. */
  ghost predicate HasRoom(m: MarketView, o: nat) {
    forall k :: 0 <= k < |m.books| && LimitsEntry(m.books, k, o) ==> m.books[k].headroom > 0
  }

  ghost predicate HasEdge(m: MarketView, estimate: Estimate, knobs: Knobs, o: nat)
    requires o < |m.books|
  {
    Edge(m, estimate, o, knobs.trustFloor) >= knobs.minEdge
  }

  /** o can be entered with this stake. */
  ghost predicate Enterable(m: MarketView, estimate: Estimate, bankroll: int, now: int, knobs: Knobs, o: nat, stake: int)
    requires o < |m.books|
  {
    && HasRoom(m, o) && HasEdge(m, estimate, knobs, o)
    && Staked(m, estimate, bankroll, now, knobs, o, stake) && stake >= knobs.minTicket
  }

  /** o has more edge than p, or as much and more room. */
  ghost predicate Preferred(m: MarketView, estimate: Estimate, knobs: Knobs, o: nat, p: nat)
    requires o < |m.books| && p < |m.books|
  {
    var a, b := Edge(m, estimate, o, knobs.trustFloor), Edge(m, estimate, p, knobs.trustFloor);
    a > b || (a == b && MoreRoom(m.books, o, p))
  }

  /** What keeps the agent out of a market whatever its books say; the first that holds is the reason. */
  function Obstacles(m: MarketView, estimate: Option<Estimate>, bankroll: int, now: int, knobs: Knobs): seq<(bool, Reason)> {
    [ (m.status != Open, MarketNotOpen),
      (now >= m.resolutionTime, Frozen),
      (now + knobs.freezeBufferSeconds > m.resolutionTime, InsideFreezeWindow),
      (WindowLeft(m, now) < knobs.minVestingOutlook, OutlookTooLow),
      (estimate.None?, NoEstimate),
      (bankroll < knobs.minTicket, BankrollExhausted) ]
  }

  ghost predicate Unobstructed(obstacles: seq<(bool, Reason)>) {
    forall k :: 0 <= k < |obstacles| ==> !obstacles[k].0
  }

  /** Obstacle k is the first there is. */
  ghost predicate FirstObstacle(obstacles: seq<(bool, Reason)>, k: nat) {
    k < |obstacles| && obstacles[k].0 && forall j :: 0 <= j < k ==> !obstacles[j].0
  }

  lemma VetoIs(m: MarketView, estimate: Option<Estimate>, bankroll: int, now: int, knobs: Knobs)
    ensures var veto, obstacles := Veto(m, estimate, bankroll, now, knobs), Obstacles(m, estimate, bankroll, now, knobs);
            && (veto == None <==> Unobstructed(obstacles))
            && forall k: nat :: FirstObstacle(obstacles, k) ==> veto == Some(obstacles[k].1)
  {
    hide Outlook, WindowLeft;
    WindowIs(m, now);
    var obstacles := Obstacles(m, estimate, bankroll, now, knobs);
    if Unobstructed(obstacles) {
      assert !obstacles[0].0 && !obstacles[1].0 && !obstacles[2].0 && !obstacles[3].0 && !obstacles[4].0 && !obstacles[5].0;
    }
    forall k: nat | FirstObstacle(obstacles, k) ensures Veto(m, estimate, bankroll, now, knobs) == Some(obstacles[k].1) {
      assert k > 0 ==> !obstacles[0].0;
      assert k > 1 ==> !obstacles[1].0;
      assert k > 2 ==> !obstacles[2].0;
      assert k > 3 ==> !obstacles[3].0;
      assert k > 4 ==> !obstacles[4].0;
    }
  }

  lemma HasRoomIs(m: MarketView, o: nat)
    ensures HasRoom(m, o) <==> RoomFirst(m.books, o, |m.books|).None? || RoomFirst(m.books, o, |m.books|).value > 0
  {
    RoomIs(m.books, o);
    assert Fits(m.books, o, 1) <==> HasRoom(m, o);
  }

  /** What a candidate is rejected for, or entered with. */
  lemma CandidateIs(m: MarketView, estimate: Estimate, bankroll: int, now: int, knobs: Knobs, o: nat)
    requires o < |m.books|
    ensures var c := CandidateFor(m, estimate, bankroll, now, knobs, o);
            && c.outcome == o
            && (c.rejection == Some(NoHeadroom) <==> !HasRoom(m, o))
            && (c.rejection == Some(EdgeBelowThreshold) <==> HasRoom(m, o) && !HasEdge(m, estimate, knobs, o))
            && (c.rejection == None <==> Enterable(m, estimate, bankroll, now, knobs, o, c.stake))
            && forall s: int :: Enterable(m, estimate, bankroll, now, knobs, o, s) ==> c.stake == s
  {
    hide ImpliedOdds, TrustAgainst, Trust, Price, Size, Outlook, Edge, Staked, HasRoom, RoomFirst;
    EdgeIs(m, estimate, bankroll, now, knobs, o);
    HasRoomIs(m, o);
    var size := Size(Edge(m, estimate, o, knobs.trustFloor), RoomFirst(m.books, o, |m.books|), bankroll, Outlook(m,
        now), knobs);
    forall s: int ensures Staked(m, estimate, bankroll, now, knobs, o, s) <==> s == size {
      StakedIs(m, estimate, bankroll, now, knobs, o, s);
    }
  }

  lemma PreferredIs(m: MarketView, estimate: Estimate, bankroll: int, now: int, knobs: Knobs, o: nat, p: nat)
    requires o < |m.books| && p < |m.books|
    ensures Preferred(m, estimate, knobs, o, p) <==>
            Better(CandidateFor(m, estimate, bankroll, now, knobs, o), CandidateFor(m, estimate, bankroll, now, knobs, p))
  {
    hide Edge, CandidateFor, MoreRoom, RoomFirst, Trust;
    EdgeIs(m, estimate, bankroll, now, knobs, o);
    EdgeIs(m, estimate, bankroll, now, knobs, p);
    MoreRoomIs(m.books, o, p);
  }

  /** o can be entered at all. */
  ghost predicate CanEnter(m: MarketView, estimate: Estimate, bankroll: int, now: int, knobs: Knobs, o: nat)
    requires o < |m.books|
  {
    exists stake: int :: Enterable(m, estimate, bankroll, now, knobs, o, stake)
  }

  /** o is the outcome to enter: it can be, none that can be is preferred to it, and it is preferred
      to every such outcome before it. */
  ghost predicate Chosen(m: MarketView, estimate: Estimate, bankroll: int, now: int, knobs: Knobs, o: nat, stake: int)
    requires o < |m.books|
  {
    && Enterable(m, estimate, bankroll, now, knobs, o, stake)
    && forall p :: 0 <= p < |m.books| && CanEnter(m, estimate, bankroll, now, knobs, p) ==>
         !Preferred(m, estimate, knobs, p, o) && (p < o ==> Preferred(m, estimate, knobs, o, p))
  }

  lemma OpenIs(m: MarketView, estimate: Estimate, bankroll: int, now: int, knobs: Knobs, o: nat)
    requires o < |m.books|
    ensures var c := CandidateFor(m, estimate, bankroll, now, knobs, o);
            CanEnter(m, estimate, bankroll, now, knobs, o) <==> c.rejection == None
  {
    hide CandidateFor, Enterable;
    CandidateIs(m, estimate, bankroll, now, knobs, o);
  }

  lemma StakeEnters(m: MarketView, estimate: Estimate, bankroll: int, now: int, knobs: Knobs, o: nat, stake: int)
    requires o < |m.books| && Enterable(m, estimate, bankroll, now, knobs, o, stake)
    ensures CanEnter(m, estimate, bankroll, now, knobs, o)
  {
  }

  lemma ChosenOnce(m: MarketView, estimate: Estimate, bankroll: int, now: int, knobs: Knobs, o: nat, s: int, p: nat, t: int)
    requires o < |m.books| && p < |m.books|
    requires Chosen(m, estimate, bankroll, now, knobs, o, s) && Chosen(m, estimate, bankroll, now, knobs, p, t)
    ensures o == p && s == t
  {
    hide Enterable, Preferred, CandidateFor;
    assert CanEnter(m, estimate, bankroll, now, knobs, o) && CanEnter(m, estimate, bankroll, now, knobs, p);
    CandidateIs(m, estimate, bankroll, now, knobs, o);
  }

  lemma EnteredIsChosen(m: MarketView, estimate: Option<Estimate>, bankroll: int, now: int, knobs: Knobs)
    requires Decide(m, estimate, bankroll, now, knobs).Enters?
    ensures var d := Decide(m, estimate, bankroll, now, knobs);
            && Unobstructed(Obstacles(m, estimate, bankroll, now, knobs)) && estimate.Some? && d.outcome < |m.books|
            && Chosen(m, estimate.value, bankroll, now, knobs, d.outcome, d.stake)
  {
    hide Decide, CandidateFor, Enterable, Preferred, Better, CanEnter, Veto, Obstacles, Unobstructed;
    var d := Decide(m, estimate, bankroll, now, knobs);
    VetoIs(m, estimate, bankroll, now, knobs);
    EntersExactlyWhen(m, estimate, bankroll, now, knobs);
    ChoosesBest(m, estimate, bankroll, now, knobs, 0);
    CandidateIs(m, estimate.value, bankroll, now, knobs, d.outcome);
    forall p | 0 <= p < |m.books| && CanEnter(m, estimate.value, bankroll, now, knobs, p)
      ensures !Preferred(m, estimate.value, knobs, p, d.outcome)
      ensures p < d.outcome ==> Preferred(m, estimate.value, knobs, d.outcome, p)
    {
      OpenIs(m, estimate.value, bankroll, now, knobs, p);
      ChoosesBest(m, estimate, bankroll, now, knobs, p);
      PreferredIs(m, estimate.value, bankroll, now, knobs, p, d.outcome);
      PreferredIs(m, estimate.value, bankroll, now, knobs, d.outcome, p);
    }
  }

  /** The agent enters an outcome with a stake if and only if nothing about the market keeps it out and
      that is the outcome to enter, with the least of its caps. */
  lemma EntersIff(m: MarketView, estimate: Option<Estimate>, bankroll: int, now: int, knobs: Knobs, o: nat, stake: int)
    ensures Decide(m, estimate, bankroll, now, knobs) == Enters(o, stake) <==>
            && Unobstructed(Obstacles(m, estimate, bankroll, now, knobs)) && estimate.Some? && o < |m.books|
            && Chosen(m, estimate.value, bankroll, now, knobs, o, stake)
  {
    hide Decide, CandidateFor, Enterable, Preferred, CanEnter, Veto, Obstacles, Unobstructed;
    var d := Decide(m, estimate, bankroll, now, knobs);
    if d.Enters? { EnteredIsChosen(m, estimate, bankroll, now, knobs); }
    if Unobstructed(Obstacles(m, estimate, bankroll, now, knobs)) && estimate.Some? && o < |m.books|
       && Chosen(m, estimate.value, bankroll, now, knobs, o, stake) {
      VetoIs(m, estimate, bankroll, now, knobs);
      EntersExactlyWhen(m, estimate, bankroll, now, knobs);
      StakeEnters(m, estimate.value, bankroll, now, knobs, o, stake);
      OpenIs(m, estimate.value, bankroll, now, knobs, o);
      ChosenOnce(m, estimate.value, bankroll, now, knobs, o, stake, d.outcome, d.stake);
    }
  }

  lemma MissIs(m: MarketView, estimate: Estimate, bankroll: int, now: int, knobs: Knobs, o: nat)
    requires o < |m.books| && !CanEnter(m, estimate, bankroll, now, knobs, o)
    ensures CandidateFor(m, estimate, bankroll, now, knobs, o).rejection ==
            Some(if !HasRoom(m, o) then NoHeadroom
                 else if !HasEdge(m, estimate, knobs, o) then EdgeBelowThreshold else BelowMinTicket)
  {
    hide HasRoom, HasEdge, CandidateFor, Enterable, CanEnter;
    CandidateIs(m, estimate, bankroll, now, knobs, o);
    OpenIs(m, estimate, bankroll, now, knobs, o);
    match CandidateFor(m, estimate, bankroll, now, knobs, o).rejection
    case None =>
    case Some(why) => assert why == NoHeadroom || why == EdgeBelowThreshold || why == BelowMinTicket;
  }

  /** The agent stays out for the first obstacle there is. With none, and no outcome it can enter, it
      names the closest miss: a stake too small where there was room and edge, else an edge too small
      where there was room, else that there was none. */
  lemma AbstainsFor(m: MarketView, estimate: Option<Estimate>, bankroll: int, now: int, knobs: Knobs)
    ensures var d, obstacles := Decide(m, estimate, bankroll, now, knobs), Obstacles(m, estimate, bankroll, now, knobs);
            && (forall k: nat :: FirstObstacle(obstacles, k) ==> d == Abstains(obstacles[k].1))
            && (Unobstructed(obstacles) && estimate.Some?
                && (forall o :: 0 <= o < |m.books| ==> !CanEnter(m, estimate.value, bankroll, now, knobs, o)) ==>
                  d == Abstains(Rejected(
                    if exists o :: 0 <= o < |m.books| && HasRoom(m, o) && HasEdge(m, estimate.value, knobs, o)
                    then BelowMinTicket
                    else if exists o :: 0 <= o < |m.books| && HasRoom(m, o) then EdgeBelowThreshold
                    else NoHeadroom)))
  {
    hide CandidateFor, CanEnter, HasRoom, HasEdge, Veto, Obstacles, Unobstructed, Weighed;
    VetoIs(m, estimate, bankroll, now, knobs);
    if Veto(m, estimate, bankroll, now, knobs) == None && estimate.Some?
       && forall o :: 0 <= o < |m.books| ==> !CanEnter(m, estimate.value, bankroll, now, knobs, o) {
      var cs := Weighed(m, estimate.value, bankroll, now, knobs);
      WeighedIsAll(m, estimate.value, bankroll, now, knobs);
      forall o | 0 <= o < |m.books|
        ensures cs[o].rejection == Some(if !HasRoom(m, o) then NoHeadroom
                                        else if !HasEdge(m, estimate.value, knobs, o) then EdgeBelowThreshold
                                            else BelowMinTicket)
      {
        MissIs(m, estimate.value, bankroll, now, knobs, o);
      }
      NoneViable(cs);
    }
  }

  lemma {:induction false} NoneViable(cs: seq<Candidate>)
    requires forall i :: 0 <= i < |cs| ==> cs[i].rejection != None
    ensures Viable(cs) == []
  {
    if cs != [] { NoneViable(cs[..|cs| - 1]); }
  }

  lemma WeighedIsAll(m: MarketView, estimate: Estimate, bankroll: int, now: int, knobs: Knobs)
    ensures var cs := Weighed(m, estimate, bankroll, now, knobs);
            && |cs| == |m.books|
            && (forall i :: 0 <= i < |cs| ==> cs[i] == CandidateFor(m, estimate, bankroll, now, knobs, i))
            && (forall i :: 0 <= i < |cs| ==> cs[i].outcome == i)
  {
    hide CandidateFor;
    WeighedAt(m, estimate, bankroll, now, knobs);
  }

  // ------------------------------------------------------------------ what follows for the agent

  /** An agent that asks for some edge never buys at or above its own probability. */
  lemma BuysBelowOwn(m: MarketView, estimate: Option<Estimate>, bankroll: int, now: int, knobs: Knobs)
    requires knobs.minEdge > 0.0 && knobs.trustFloor >= 0.0 && Decide(m, estimate, bankroll, now, knobs).Enters?
    ensures var o := Decide(m, estimate, bankroll, now, knobs).outcome;
            && estimate.Some? && o < |m.books|
            && Price(m.books, o) < if o in estimate.value then estimate.value[o] else 0.0
  {
    hide Decide, Price, Staked, HasRoom, CanEnter, Preferred, Unobstructed;
    EnteredIsChosen(m, estimate, bankroll, now, knobs);
    var o := Decide(m, estimate, bankroll, now, knobs).outcome;
    var own := if o in estimate.value then estimate.value[o] else 0.0;
    PositiveFactor(own - Price(m.books, o), Trust(m, o, knobs.trustFloor), Edge(m, estimate.value, o, knobs.trustFloor));
  }

  lemma PositiveFactor(x: real, t: real, product: real)
    requires t >= 0.0 && product == x * t && product > 0.0
    ensures x > 0.0
  {
  }

  /** A stake is within the part of the bankroll that conviction and window allow, to half of that
      part's ninth decimal. */
  lemma StakeWithinPart(m: MarketView, estimate: Option<Estimate>, bankroll: int, now: int, knobs: Knobs)
    requires bankroll >= 0 && Decide(m, estimate, bankroll, now, knobs).Enters?
    ensures var d := Decide(m, estimate, bankroll, now, knobs);
            && estimate.Some? && d.outcome < |m.books|
            && var conviction := PartOfFull(Edge(m, estimate.value, d.outcome, knobs.trustFloor), knobs);
               var part := BankrollPart(knobs, conviction, WindowLeft(m, now));
               0.0 <= part <= 1_000_000_000.0 ==> d.stake as real <= bankroll as real * (part + 0.000_000_000_5)
  {
    hide Decide, Edge, HasRoom, CanEnter, Preferred, Unobstructed, BankrollPart, PartOfFull, WindowLeft, Scaled;
    EnteredIsChosen(m, estimate, bankroll, now, knobs);
    var d := Decide(m, estimate, bankroll, now, knobs);
    var caps :| Caps(m, estimate.value, bankroll, now, knobs, d.outcome, caps)
                && d.stake in caps && forall x :: x in caps ==> d.stake <= x;
    var conviction := PartOfFull(Edge(m, estimate.value, d.outcome, knobs.trustFloor), knobs);
    var part := BankrollPart(knobs, conviction, WindowLeft(m, now));
    assert caps[2] in caps;
    if 0.0 <= part <= 1_000_000_000.0 { ScaledIsNear(caps[2], bankroll, part); }
  }
}
