/** The in-memory settler, with the records it updates in place. Every method is tied to the
    function of VestedWorld that says what it does to the whole world. */
module FixtureWorlds {
  import opened Numbers
  import opened VestedWorld
  import opened VestedReplay
  import opened Claimables
  import Text

  class WorldBook {
    const outcome: nat
    var principal: int
    var acc: int
    var capacity: int
    var vested: int
    var holders: nat

    constructor (outcome: nat, b: Book)
      ensures this.outcome == outcome && View() == b
    {
      this.outcome := outcome;
      principal, acc, capacity, vested, holders := b.principal, b.acc, b.capacity, b.vested, b.holders;
    }

    ghost function View(): Book
      reads this
    {
      Book(principal, acc, capacity, vested, holders)
    }

    /** The room left in this book; none once more has vested than it holds. */
    method HeadroomOf() returns (h: int)
      ensures h == Headroom(View())
    {
      if capacity == UNBOUNDED { return UNBOUNDED; }
      h := if capacity > vested then capacity - vested else 0;
    }
  }

  class WorldMarket {
    const marketId: string
    const kappa: int
    const books: seq<WorldBook>
    const resolutionTime: int
    const strike8: int
    const direction: nat
    const driftPerTick: real
    const flowPerTick: int
    var status: Status
    var winner: Option<nat>
    var price8: int

    constructor (m: Market, books: seq<WorldBook>)
      requires |books| == |m.books| && forall o :: 0 <= o < |books| ==> books[o].View() == m.books[o]
      ensures View() == m && this.books == books
    {
      marketId, kappa, this.books := m.id, m.kappa, books;
      resolutionTime, strike8, direction := m.resolutionTime, m.strike8, m.direction;
      driftPerTick, flowPerTick := m.driftPerTick, m.flowPerTick;
      status, winner, price8 := m.status, m.winner, m.price8;
    }

    ghost function BooksView(): (r: seq<Book>)
      reads books
      ensures |r| == |books| && forall o :: 0 <= o < |books| ==> r[o] == books[o].View()
    {
      seq(|books|, o requires 0 <= o < |books| reads books => books[o].View())
    }

    ghost function View(): Market
      reads this, books
    {
      Market(marketId, kappa, BooksView(), status, winner, resolutionTime, strike8, direction,
             price8, driftPerTick, flowPerTick)
    }

    /** Outcomes are numbered by position and no record stands in two places. */
    ghost predicate Numbered() {
      && (forall o :: 0 <= o < |books| ==> books[o].outcome == o)
      && (forall o, k :: 0 <= o < k < |books| ==> books[o] != books[k])
    }

    /** The part of an offer that fits every bounded book against `outcome`. */
    method AcceptableOn(outcome: nat, offered: int) returns (a: int)
      requires Numbered()
      ensures a == Acceptable(BooksView(), outcome, offered)
    {
      var cap: Option<int> := None;
      for k := 0 to |books|
        invariant cap == Tightest(BooksView(), outcome, k)
      {
        var b := books[k];
        if b.outcome == outcome { continue; }
        var h := b.HeadroomOf();
        if h == UNBOUNDED { continue; }
        if cap.None? || h < cap.value { cap := Some(h); }
      }
      if cap.None? { return offered; }
      a := if offered < cap.value then offered else cap.value;
    }

    /** Vests `accepted` into every book but the one of `outcome`. */
    method VestInto(outcome: nat, accepted: int)
      requires Numbered() && Funded(BooksView())
      modifies books
      ensures BooksView() == VestAll(old(BooksView()), outcome, accepted)
    {
      ghost var before := BooksView();
      for k := 0 to |books|
        invariant forall o :: k <= o < |books| ==> books[o].View() == before[o]
        invariant forall o :: 0 <= o < k ==>
                    books[o].View() == if o == outcome then before[o] else Vest(before[o], accepted)
      {
        var b := books[k];
        assert b.View() == before[k];
        if b.outcome == outcome || accepted == 0 { continue; }
        b.acc := b.acc + TruncDiv(accepted * SCALE, b.principal);
        b.vested := b.vested + accepted;
        assert forall o :: 0 <= o < |books| && o != k ==> books[o] != b;
      }
    }

    /** Books `accepted` on its own outcome. */
    method Book(outcome: nat, accepted: int)
      requires Numbered() && outcome < |books|
      modifies books
      ensures BooksView() == old(BooksView())[outcome := Grow(kappa, old(BooksView())[outcome], accepted)]
    {
      ghost var before := BooksView();
      var own := books[outcome];
      if accepted > 0 {
        own.principal := own.principal + accepted;
        own.capacity := AddCapacity(own.capacity, Times(kappa, accepted));
        own.holders := own.holders + 1;
      }
      assert forall o :: 0 <= o < |books| && o != outcome ==> books[o].View() == before[o];
    }

    /** The tick's flow split by principal, from the books as they stand before any arrival. */
    method Shares(pool: int) returns (split: seq<int>)
      requires pool > 0
      ensures split == Split(flowPerTick, BooksView(), pool)
    {
      split := [];
      ghost var shares := Split(flowPerTick, BooksView(), pool);
      for o := 0 to |books|
        invariant split == shares[..o]
      {
        split := split + [ScaleByFraction(flowPerTick, Ratio(books[o].principal, pool))];
      }
    }

    method Total() returns (pool: int)
      ensures pool == Pool(BooksView())
    {
      pool := 0;
      ghost var view := BooksView();
      for k := 0 to |books|
        invariant pool == Pool(view[..k])
      {
        pool := pool + books[k].principal;
        assert view[..k + 1][..k] == view[..k];
      }
      assert view[..|books|] == view;
    }
  }

  /** An entry of w in the two halves its method takes: vesting, then booking. */
  lemma EntryInHalves(w: World, i: nat, outcome: nat, offered: int, owner: string)
    requires WellFormed(w) && i < |w.markets|
    ensures var m, (w', r) := w.markets[i], EnterMarket(w, i, outcome, offered, owner);
            var a := Acceptable(m.books, outcome, offered);
            var vested := w.markets[i := m.(books := VestAll(m.books, outcome, a))];
            if outcome >= |m.books| then w' == World(vested, w.positions) && r == UnknownOutcome
            else
              var own := Grow(m.kappa, vested[i].books[outcome], a);
              var p := Position(m.id, owner, outcome, offered, a, m.books[outcome].acc, |w.positions| + 1, false);
              && w'.markets == vested[i := vested[i].(books := vested[i].books[outcome := own])]
              && w'.positions == w.positions + [p]
              && r == Entered(p, offered - a)
  {
  }

  class FixtureWorld {
    const markets: seq<WorldMarket>
    var vintage: nat
    var nextPositionId: nat
    var positions: map<nat, Position>
    ghost var log: seq<Position>

    /** Every book of every market. */
    ghost const books: set<WorldBook>

    ghost function View(): World
      requires Laid()
      reads this, markets, books
    {
      World(MarketsView(), log)
    }

    ghost function MarketsView(): (r: seq<Market>)
      requires Laid()
      reads markets, books
      ensures |r| == |markets| && forall i :: 0 <= i < |markets| ==> r[i] == markets[i].View()
    {
      assert forall i :: 0 <= i < |markets| ==> Owns(markets[i]);
      seq(|markets|, i requires 0 <= i < |markets| reads markets, books => markets[i].View())
    }

    ghost predicate Owns(m: WorldMarket) {
      m.Numbered() && forall b :: b in m.books ==> b in books
    }

    ghost predicate Separate(m: WorldMarket, n: WorldMarket) {
      m != n && forall b :: b in m.books ==> b !in n.books
    }

    /** No record stands in two markets, and outcomes are numbered as loading numbers them. */
    ghost predicate Laid() {
      && (forall i :: 0 <= i < |markets| ==> Owns(markets[i]))
      && (forall i, j :: 0 <= i < |markets| && 0 <= j < |markets| && i != j ==> Separate(markets[i], markets[j]))
    }

    ghost predicate Ledger()
      reads this
    {
      && vintage == nextPositionId == |log| + 1
      && (forall n :: n in positions <==> 1 <= n < nextPositionId)
      && (forall n :: n in positions ==> positions[n] == log[n - 1])
    }

    ghost predicate Valid()
      reads this, markets, books
    {
      Laid() && WellFormed(View()) && Ledger()
    }

    /** If only market i and its books moved, only entry i of the view moved. */
    twostate lemma OneMarketMoved(i: nat)
      requires Laid() && i < |markets|
      requires forall j :: 0 <= j < |markets| && j != i ==> unchanged(markets[j])
      requires forall j, b :: 0 <= j < |markets| && j != i && b in markets[j].books ==> unchanged(b)
      ensures MarketsView() == old(MarketsView())[i := markets[i].View()]
    {
      forall j | 0 <= j < |markets| && j != i ensures markets[j].View() == old(markets[j].View()) {
        forall o | 0 <= o < |markets[j].books|
          ensures markets[j].books[o].View() == old(markets[j].books[o].View())
        {
          assert markets[j].books[o] in markets[j].books;
        }
        assert markets[j].BooksView() == old(markets[j].BooksView());
      }
    }

    constructor (markets: seq<WorldMarket>)
      requires forall i :: 0 <= i < |markets| ==> markets[i].Numbered() && Funded(markets[i].BooksView())
      requires forall i, j :: 0 <= i < j < |markets| ==> markets[i].marketId != markets[j].marketId
      requires forall i, j, b :: 0 <= i < j < |markets| && b in markets[i].books ==> b !in markets[j].books
      ensures this.markets == markets && Valid() && View().positions == []
    {
      this.markets := markets;
      books := set m, b | m in markets && b in m.books :: b;
      vintage, nextPositionId, positions, log := 1, 1, map[], [];
    }

    /** The first market with this id. */
    method Find(id: string) returns (found: Option<nat>)
      requires Laid()
      ensures found == FindMarket(MarketsView(), id)
    {
      ghost var view := MarketsView();
      for i := 0 to |markets|
        invariant FindMarket(view, id) == match FindMarket(view[i..], id) case None => None case Some(k) => Some(i + k)
      {
        assert view[i..][1..] == view[i + 1..];
        if markets[i].marketId == id { return Some(i); }
      }
      found := None;
    }

    method VestMarket(i: nat, outcome: nat, accepted: int)
      requires Laid() && i < |markets| && Funded(markets[i].BooksView())
      modifies markets[i].books
      ensures var was := old(MarketsView());
              MarketsView() == was[i := was[i].(books := VestAll(was[i].books, outcome, accepted))]
    {
      markets[i].VestInto(outcome, accepted);
      assert forall j :: 0 <= j < |markets| && j != i ==> Separate(markets[j], markets[i]);
      OneMarketMoved(i);
    }

    method BookMarket(i: nat, outcome: nat, accepted: int)
      requires Laid() && i < |markets| && outcome < |markets[i].books|
      modifies markets[i].books
      ensures var was := old(MarketsView());
              var own := Grow(was[i].kappa, was[i].books[outcome], accepted);
              MarketsView() == was[i := was[i].(books := was[i].books[outcome := own])]
    {
      markets[i].Book(outcome, accepted);
      assert forall j :: 0 <= j < |markets| && j != i ==> Separate(markets[j], markets[i]);
      OneMarketMoved(i);
    }

    /** Appends a position under the next number. */
    method Record(position: Position)
      requires Ledger()
      modifies this
      ensures Ledger() && log == old(log) + [position]
    {
      positions := positions[nextPositionId := position];
      log := log + [position];
      nextPositionId := nextPositionId + 1;
      vintage := vintage + 1;
    }

    /** An entry by market id; only a market that is found is touched. */
    method Enter(id: string, outcome: nat, offered: int, owner: string) returns (r: EnterResult)
      requires Valid()
      modifies this, books
      ensures Valid()
      ensures (View(), r) == VestedWorld.Enter(old(View()), id, outcome, offered, owner)
    {
      var found := Find(id);
      if found.None? { return UnknownMarket; }
      r := EnterAt(found.value, outcome, offered, owner);
    }

    method EnterAt(i: nat, outcome: nat, offered: int, owner: string) returns (r: EnterResult)
      requires Valid() && i < |markets|
      modifies this, books
      ensures Valid()
      ensures (View(), r) == EnterMarket(old(View()), i, outcome, offered, owner)
    {
      hide EnterMarket, WellFormed, Acceptable, VestAll, Grow;
      ghost var w := View();
      EntryInHalves(w, i, outcome, offered, owner);
      assert Owns(markets[i]);
      var accepted, entryAcc := VestOn(i, outcome, offered);
      if outcome >= |markets[i].books| { return UnknownOutcome; }
      var position := Position(markets[i].marketId, owner, outcome, offered, accepted, entryAcc, vintage, false);
      BookMarket(i, outcome, accepted);
      Record(position);
      r := Entered(position, offered - accepted);
    }

    /** The first half of an entry: acceptance and vesting, and the accumulator it enters at. */
    method VestOn(i: nat, outcome: nat, offered: int) returns (accepted: int, entryAcc: int)
      requires Laid() && WellFormed(View()) && i < |markets|
      modifies markets[i].books
      ensures var m := old(MarketsView())[i];
              && accepted == Acceptable(m.books, outcome, offered)
              && (outcome < |m.books| ==> entryAcc == m.books[outcome].acc)
              && MarketsView() == old(MarketsView())[i := m.(books := VestAll(m.books, outcome, accepted))]
    {
      var market := markets[i];
      ghost var m := MarketsView()[i];
      accepted := market.AcceptableOn(outcome, offered);
      VestMarket(i, outcome, accepted);
      entryAcc := 0;
      if outcome < |market.books| {
        // Read only now, as the settler does, although vesting left this book where it was.
        entryAcc := market.books[outcome].acc;
        assert MarketsView()[i].books[outcome] == m.books[outcome];
        assert market.books[outcome].View() == MarketsView()[i].books[outcome];
      }
    }

    /** Drift and crowd for each open market, in list order. */
    method Tick()
      requires Valid()
      modifies this, markets, books
      ensures Valid()
      ensures View() == TickFirst(old(View()), |markets|)
    {
      hide Moved, MarketMoves, WellFormed;
      ghost var w := View();
      for i := 0 to |markets|
        invariant Valid()
        invariant View() == TickFirst(w, i)
      {
        TickOne(i);
      }
    }

    method MovePrice(i: nat)
      requires Valid() && i < |markets|
      modifies markets[i]
      ensures Valid() && View() == MoveTo(old(View()), Drift(i))
    {
      var market := markets[i];
      market.price8 := DriftPrice(market.price8, market.driftPerTick);
      assert forall j :: 0 <= j < |markets| && j != i ==> Separate(markets[j], markets[i]);
      OneMarketMoved(i);
      assert View().markets == MoveTo(old(View()), Drift(i)).markets;
    }

    method TickOne(i: nat)
      requires Valid() && i < |markets|
      modifies this, markets, books
      ensures Valid()
      ensures Leads(old(View()), MarketMoves(old(View()), i), View())
    {
      var market := markets[i];
      ghost var w := View();
      assert market.View() == w.markets[i];
      if market.status != Open { return; }
      MovePrice(i);
      OneMove(w, Drift(i));
      if market.flowPerTick == 0 { return; }
      assert market.BooksView() == w.markets[i].books by { assert market.View() == View().markets[i]; }
      var pool := market.Total();
      if pool == 0 { return; }
      var split := market.Shares(pool);
      ghost var v := View();
      EnterEach(i, split);
      TickPieces(w, i, v, View());
    }

    method EnterOne(i: nat, outcome: nat, amount: int)
      requires Valid() && i < |markets|
      modifies this, books
      ensures Valid()
      ensures View() == MoveTo(old(View()), Arrive(i, outcome, amount, CROWD))
    {
      FindSelf(View(), i);
      assert markets[i].View() == View().markets[i];
      var _ := Enter(markets[i].marketId, outcome, amount, CROWD);
    }

    /** The crowd's arrivals, by the market's id; nothing is entered for nothing. */
    method EnterEach(i: nat, amounts: seq<int>)
      requires Valid() && i < |markets|
      modifies this, books
      ensures Valid()
      ensures Leads(old(View()), Arrivals(i, amounts, |amounts|), View())
    {
      ghost var w := View();
      LeadsNowhere(w);
      for k := 0 to |amounts|
        invariant Valid()
        invariant Leads(w, Arrivals(i, amounts, k), View())
      {
        if amounts[k] > 0 {
          ghost var v := View();
          EnterOne(i, k, amounts[k]);
          LeadsOn(w, Arrivals(i, amounts, k), v, Arrive(i, k, amounts[k], CROWD));
        }
      }
    }

    /** Resolves the open markets that are due, and returns their ids in list order. */
    method SettleDue(now: int) returns (settled: seq<string>)
      requires Valid()
      modifies markets
      ensures Valid()
      ensures View() == SettleFirst(old(View()), now, |markets|)
      ensures settled == SettledIds(old(View()).markets, now)
    {
      hide MoveTo, WellFormed;
      ghost var w := View();
      settled := [];
      for i := 0 to |markets|
        invariant Valid()
        invariant View() == SettleFirst(w, now, i)
        invariant settled == SettledIds(w.markets[..i], now)
      {
        SettleUntouched(w, now, i, i);
        assert w.markets[..i + 1][..i] == w.markets[..i];
        var due := SettleOne(i, now);
        if due { settled := settled + [markets[i].marketId]; }
      }
      assert w.markets[..|markets|] == w.markets;
    }

    method SettleOne(i: nat, now: int) returns (due: bool)
      requires Valid() && i < |markets|
      modifies markets[i]
      ensures Valid()
      ensures due == Due(old(View()).markets[i], now) && old(View()).markets[i].id == markets[i].marketId
      ensures View() == MoveTo(old(View()), Close(i, now))
    {
      var market := markets[i];
      assert market.View() == View().markets[i];
      due := market.status == Open && now >= market.resolutionTime;
      if due {
        var above := market.price8 >= market.strike8;
        market.winner := Some(if market.direction == 0 then (if above then 0 else 1) else (if above then 1 else 0));
        market.status := Resolved;
      }
      assert forall j :: 0 <= j < |markets| && j != i ==> Separate(markets[j], markets[i]);
      OneMarketMoved(i);
      assert View().markets == MoveTo(old(View()), Close(i, now)).markets;
    }

    method MarkClaimed(number: nat)
      requires Valid()
      modifies this
      ensures Valid()
      ensures View() == VestedWorld.MarkClaimed(old(View()), number)
    {
      if number in positions {
        ghost var w := View();
        log := log[number - 1 := positions[number].(claimed := true)];
        positions := positions[number := positions[number].(claimed := true)];
        assert View().markets == w.markets;
      }
    }

    /** What a claim on this position would pay: nothing for a position that does not exist. */
    method PayoutOf(number: nat) returns (paid: int)
      requires Valid()
      requires number in positions ==> FindMarket(MarketsView(), positions[number].marketId).Some?
      ensures number !in positions ==> paid == 0
      ensures number in positions ==>
                var i := FindMarket(View().markets, View().positions[number - 1].marketId).value;
                paid == Payout(View().markets[i], View().positions[number - 1])
    {
      if number !in positions { return 0; }
      var p := positions[number];
      var found := Find(p.marketId);
      var market := markets[found.value];
      if market.status == Voided { return p.accepted; }
      if market.status != Resolved || market.winner != Some(p.outcome) || p.outcome >= |market.books| { return 0; }
      var book := market.books[p.outcome];
      paid := TruncDiv(p.accepted * (SCALE + book.acc - p.entryAcc), SCALE);
    }

    method VestingEarnedBy(number: nat) returns (earned: int)
      requires Valid()
      requires number in positions ==> FindMarket(MarketsView(), positions[number].marketId).Some?
      ensures number !in positions ==> earned == 0
      ensures number in positions ==>
                var i := FindMarket(View().markets, View().positions[number - 1].marketId).value;
                earned == VestingEarned(View().markets[i], View().positions[number - 1])
    {
      if number !in positions { return 0; }
      var p := positions[number];
      var found := Find(p.marketId);
      var market := markets[found.value];
      if p.outcome >= |market.books| { return 0; }
      var book := market.books[p.outcome];
      if book.acc <= p.entryAcc { return 0; }
      earned := TruncDiv(p.accepted * (book.acc - p.entryAcc), SCALE);
    }

    /** What a wallet may claim, position by position in the order they were opened. */
    method ClaimsFor(owner: string) returns (claims: seq<Claim>)
      requires Valid()
      requires forall n :: n in positions ==> FindMarket(MarketsView(), positions[n].marketId).Some?
      ensures claims == Claimable(View(), owner, |View().positions|)
    {
      hide ClaimOf, WellFormed;
      claims := [];
      var n := 1;
      while n < nextPositionId
        invariant 1 <= n <= nextPositionId
        invariant claims == Claimable(View(), owner, n - 1)
      {
        claims := AddClaim(claims, owner, n);
        n := n + 1;
      }
    }

    method AddClaim(claims: seq<Claim>, owner: string, n: nat) returns (more: seq<Claim>)
      requires Valid() && n in positions
      requires FindMarket(MarketsView(), positions[n].marketId).Some?
      ensures more == match ClaimOf(View(), owner, n - 1) case Some(c) => claims + [c] case None => claims
    {
      hide Payout, WellFormed;
      more := claims;
      var p := positions[n];
      if Text.Lower(p.owner) != Text.Lower(owner) || p.claimed { return; }
      var found := Find(p.marketId);
      if markets[found.value].status == Open { return; }
      var payout := PayoutOf(n);
      var refund := p.offered - p.accepted;
      if payout == 0 && refund == 0 { return; }
      more := more + [Claim(n, p.marketId, payout, refund)];
    }
  }
}
