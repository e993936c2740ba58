/** The vested-parimutuel mechanism as a function of values: what one entry, one tick of
    everybody else and one settlement do to the markets and to the list of positions.
    Outcome o of a market is the book at index o. */
module VestedWorld {
  import opened Numbers

  datatype Book = Book(principal: int, acc: int, capacity: int, vested: int, holders: nat)

  datatype Status = Open | Resolved | Voided

  datatype Market = Market(id: string, kappa: int, books: seq<Book>, status: Status, winner: Option<nat>,
                           resolutionTime: int, strike8: int, direction: nat,
                           price8: int, driftPerTick: real, flowPerTick: int)

  datatype Position = Position(marketId: string, owner: string, outcome: nat, offered: int, accepted: int,
                               entryAcc: int, vintage: nat, claimed: bool)

  /** Position number n of the world is positions[n - 1]. */
  datatype World = World(markets: seq<Market>, positions: seq<Position>)

  datatype EnterResult = Entered(position: Position, refused: int) | UnknownMarket | UnknownOutcome

  /** The wallet all flow of a tick comes from. */
  const CROWD: string := "0xc0c0c0c0c0c0c0c0c0c0c0c0c0c0c0c0c0c0c0c0"

  ghost predicate Funded(books: seq<Book>) {
    forall o :: 0 <= o < |books| ==> books[o].principal > 0
  }

  /** The parts of a market that no operation ever changes. */
  datatype Frame = Frame(id: string, kappa: int, outcomes: nat)

  ghost function Frames(markets: seq<Market>): (frames: seq<Frame>)
    ensures |frames| == |markets|
  {
    seq(|markets|, i requires 0 <= i < |markets| => Frame(markets[i].id, markets[i].kappa, |markets[i].books|))
  }

  ghost predicate Distinct(frames: seq<Frame>) {
    forall i, j :: 0 <= i < j < |frames| ==> frames[i].id != frames[j].id
  }

  ghost predicate AllFunded(markets: seq<Market>) {
    forall i :: 0 <= i < |markets| ==> Funded(markets[i].books)
  }

  /** What loading guarantees: no market id twice, no book without principal. */
  ghost predicate WellFormed(w: World) {
    Distinct(Frames(w.markets)) && AllFunded(w.markets)
  }

  ghost predicate SameShape(w: World, w': World) {
    Frames(w.markets) == Frames(w'.markets)
  }

  lemma ShapeAt(w: World, w': World, i: nat)
    requires SameShape(w, w') && i < |w.markets|
    ensures |w.markets| == |w'.markets|
    ensures w.markets[i].id == w'.markets[i].id && w.markets[i].kappa == w'.markets[i].kappa
    ensures |w.markets[i].books| == |w'.markets[i].books|
  {
    assert Frames(w.markets)[i] == Frames(w'.markets)[i];
  }

  lemma IdsDistinct(w: World, i: nat, j: nat)
    requires WellFormed(w) && i < |w.markets| && j < |w.markets| && i != j
    ensures w.markets[i].id != w.markets[j].id
  {
    assert Frames(w.markets)[i].id != Frames(w.markets)[j].id;
  }

  /** A market is found by its own id. */
  lemma FindSelf(w: World, i: nat)
    requires WellFormed(w) && i < |w.markets|
    ensures FindMarket(w.markets, w.markets[i].id) == Some(i)
  {
    var found := FindMarket(w.markets, w.markets[i].id);
    if found.Some? && found.value != i { IdsDistinct(w, found.value, i); }
  }

  /** The world with the changeable parts of market i replaced. */
  function WithMarket(w: World, i: nat, m: Market): (r: World)
    requires WellFormed(w) && i < |w.markets| && Funded(m.books)
    requires m.id == w.markets[i].id && m.kappa == w.markets[i].kappa && |m.books| == |w.markets[i].books|
    ensures WellFormed(r) && SameShape(w, r)
  {
    assert Frames(w.markets[i := m]) == Frames(w.markets);
    w.(markets := w.markets[i := m])
  }

  // ------------------------------------------------------------------ acceptance

  function Headroom(b: Book): int {
    if b.capacity == UNBOUNDED then UNBOUNDED
    else if b.capacity > b.vested then b.capacity - b.vested
    else 0
  }

  /** A book that limits an entry on another outcome. */
  predicate Limits(b: Book) {
    Headroom(b) != UNBOUNDED
  }

  /** The least headroom among the first k books other than `outcome`'s that have a limit. */
  function Tightest(books: seq<Book>, outcome: nat, k: nat): (cap: Option<int>)
    requires k <= |books|
    ensures cap.Some? ==> cap.value >= 0
  {
    if k == 0 then None
    else
      var cap := Tightest(books, outcome, k - 1);
      var h := Headroom(books[k - 1]);
      if k - 1 == outcome || h == UNBOUNDED then cap
      else if cap.None? || h < cap.value then Some(h)
      else cap
  }

  /** How much of `offered` on `outcome` the opposing books have room for. */
  function Acceptable(books: seq<Book>, outcome: nat, offered: int): (a: int)
    ensures offered >= 0 ==> a >= 0
  {
    var cap := Tightest(books, outcome, |books|);
    if cap.None? || offered < cap.value then offered else cap.value
  }

  /** Book w stands against an entry on `outcome` and limits it. */
  ghost predicate Opposes(books: seq<Book>, w: nat, outcome: nat) {
    w < |books| && w != outcome && Limits(books[w])
  }

  lemma {:induction false} TightestIsLeast(books: seq<Book>, outcome: nat, k: nat)
    requires k <= |books|
    ensures Tightest(books, outcome, k).None? <==> forall w :: 0 <= w < k ==> !Opposes(books, w, outcome)
    ensures Tightest(books, outcome, k).Some? ==>
              var cap := Tightest(books, outcome, k).value;
              && (exists w :: 0 <= w < k && Opposes(books, w, outcome) && Headroom(books[w]) == cap)
              && (forall w :: 0 <= w < k && Opposes(books, w, outcome) ==> cap <= Headroom(books[w]))
  {
    if k > 0 {
      TightestIsLeast(books, outcome, k - 1);
      assert Opposes(books, k - 1, outcome) <==> k - 1 != outcome && Headroom(books[k - 1]) != UNBOUNDED;
    }
  }

  /** The accepted amount is the greatest that is at most the offer and at most the headroom
      of every opposing book with a limit: an amount fits exactly when it does not exceed it. */
  lemma AcceptableIsGreatest(books: seq<Book>, outcome: nat, offered: int, x: int)
    ensures x <= Acceptable(books, outcome, offered) <==>
            x <= offered && forall w :: 0 <= w < |books| && Opposes(books, w, outcome) ==> x <= Headroom(books[w])
  {
    TightestIsLeast(books, outcome, |books|);
  }

  // ------------------------------------------------------------------ one entry

  /** An opposing entry of `a` reaching this book. */
  function Vest(b: Book, a: int): Book
    requires b.principal > 0
  {
    if a == 0 then b
    else b.(acc := b.acc + TruncDiv(a * SCALE, b.principal), vested := b.vested + a)
  }

  function Times(kappa: int, x: int): int {
    if kappa == UNBOUNDED then (if x == 0 then 0 else UNBOUNDED) else kappa * x
  }

  function AddCapacity(c: int, d: int): int {
    if c == UNBOUNDED || d == UNBOUNDED then UNBOUNDED else c + d
  }

  /** An entry of `a` booked on this book's own outcome. */
  function Grow(kappa: int, b: Book, a: int): Book {
    if a > 0 then
      b.(principal := b.principal + a, capacity := AddCapacity(b.capacity, Times(kappa, a)), holders := b.holders + 1)
    else b
  }

  /** `a` vested into every book but `outcome`'s. */
  function VestAll(books: seq<Book>, outcome: nat, a: int): (r: seq<Book>)
    requires Funded(books)
    ensures |r| == |books| && Funded(r)
  {
    seq(|books|, w requires 0 <= w < |books| => if w == outcome then books[w] else Vest(books[w], a))
  }

  function FindMarket(markets: seq<Market>, id: string): (r: Option<nat>)
    ensures r.None? ==> forall i :: 0 <= i < |markets| ==> markets[i].id != id
    ensures r.Some? ==> r.value < |markets| && markets[r.value].id == id
  {
    if |markets| == 0 then None
    else if markets[0].id == id then Some(0)
    else match FindMarket(markets[1..], id)
         case None => None
         case Some(i) => Some(i + 1)
  }

  /** The books of one market after an entry of `a` accepted on `outcome`. */
  function EnterBooks(kappa: int, books: seq<Book>, outcome: nat, a: int): (r: seq<Book>)
    requires Funded(books)
    ensures |r| == |books| && Funded(r)
  {
    var vested := VestAll(books, outcome, a);
    if outcome < |books| then vested[outcome := Grow(kappa, vested[outcome], a)] else vested
  }

  /** An entry on market i. An outcome the market does not have is only noticed once the
      stake has vested into every book. */
  function EnterMarket(w: World, i: nat, outcome: nat, offered: int, owner: string): (r: (World, EnterResult))
    requires WellFormed(w) && i < |w.markets|
    ensures WellFormed(r.0) && SameShape(w, r.0)
  {
    var m := w.markets[i];
    var a := Acceptable(m.books, outcome, offered);
    var w' := WithMarket(w, i, m.(books := EnterBooks(m.kappa, m.books, outcome, a)));
    if outcome >= |m.books| then (w', UnknownOutcome)
    else
      var p := Position(m.id, owner, outcome, offered, a, m.books[outcome].acc, |w.positions| + 1, false);
      (w'.(positions := w.positions + [p]), Entered(p, offered - a))
  }

  /** An entry by market id. An unknown market changes nothing. */
  function Enter(w: World, id: string, outcome: nat, offered: int, owner: string): (r: (World, EnterResult))
    requires WellFormed(w)
    ensures WellFormed(r.0) && SameShape(w, r.0)
  {
    match FindMarket(w.markets, id)
    case None => (w, UnknownMarket)
    case Some(i) => EnterMarket(w, i, outcome, offered, owner)
  }

  // ------------------------------------------------------------------ everybody else

  /** The denominator of every fraction of money. */
  const FRACTION_SCALE: int := 1_000_000_000

  /** A share with nine decimals; nothing of nothing is nothing. */
  function Ratio(numerator: int, denominator: int): real
    requires denominator >= 0
  {
    if denominator == 0 then 0.0
    else TruncDiv(numerator * FRACTION_SCALE, denominator) as real / 1_000_000_000.0
  }

  /** The nearest nine-decimal fraction, a half going up. */
  function Nanos(fraction: real): int {
    ((if fraction < 1_000_000_000.0 then fraction else 1_000_000_000.0) * 1_000_000_000.0 + 0.5).Floor
  }

  /** value * fraction without the fractional unit; a fraction of zero or less gives zero. */
  function ScaleByFraction(value: int, fraction: real): int {
    if fraction <= 0.0 then 0 else TruncDiv(value * Nanos(fraction), FRACTION_SCALE)
  }

  function Pool(books: seq<Book>): (total: int)
    ensures Funded(books) ==> total >= |books|
  {
    if |books| == 0 then 0
    else
      assert Funded(books) ==> Funded(books[..|books| - 1]) && books[|books| - 1].principal > 0;
      Pool(books[..|books| - 1]) + books[|books| - 1].principal
  }

  /** What the crowd offers on each outcome: the tick's flow in proportion to principal. */
  function Split(flow: int, books: seq<Book>, pool: int): (amounts: seq<int>)
    requires pool >= 0
    ensures |amounts| == |books|
  {
    seq(|books|, o requires 0 <= o < |books| => ScaleByFraction(flow, Ratio(books[o].principal, pool)))
  }

  function DriftPrice(price8: int, drift: real): int {
    if drift == 0.0 then price8
    else if drift > 0.0 then price8 + ScaleByFraction(price8, drift)
    else price8 - ScaleByFraction(price8, -drift)
  }

  /** One thing that happens to one market. */
  datatype Move =
    | Arrive(market: nat, outcome: nat, offered: int, owner: string)
    | Drift(market: nat)
    | Close(market: nat, now: int)

  function MoveTo(w: World, v: Move): (r: World)
    requires WellFormed(w) && v.market < |w.markets|
    ensures WellFormed(r) && SameShape(w, r)
  {
    var m := w.markets[v.market];
    match v
    case Arrive(i, outcome, offered, owner) => EnterMarket(w, i, outcome, offered, owner).0
    case Drift(i) => WithMarket(w, i, m.(price8 := DriftPrice(m.price8, m.driftPerTick)))
    case Close(i, now) => WithMarket(w, i, SettleMarket(m, now))
  }

  ghost predicate InRange(w: World, moves: seq<Move>) {
    forall k :: 0 <= k < |moves| ==> moves[k].market < |w.markets|
  }

  /** The moves one after another. */
  function Moved(w: World, moves: seq<Move>): (r: World)
    requires WellFormed(w) && InRange(w, moves)
    ensures WellFormed(r) && SameShape(w, r)
  {
    if |moves| == 0 then w else MoveTo(Moved(w, moves[..|moves| - 1]), moves[|moves| - 1])
  }

  /** The crowd's arrivals on the first k outcomes of market i; nothing is entered for nothing. */
  function Arrivals(i: nat, amounts: seq<int>, k: nat): (moves: seq<Move>)
    requires k <= |amounts|
    ensures forall n :: 0 <= n < |moves| ==>
              moves[n].Arrive? && moves[n].market == i && moves[n].outcome < k && moves[n].offered > 0
  {
    if k == 0 then []
    else
      var before := Arrivals(i, amounts, k - 1);
      if amounts[k - 1] > 0 then before + [Arrive(i, k - 1, amounts[k - 1], CROWD)] else before
  }

  /** What a tick does to market i: its price drifts, and the crowd arrives on each outcome
      with shares taken from the books before any of these arrivals. */
  function MarketMoves(w: World, i: nat): (moves: seq<Move>)
    requires WellFormed(w) && i < |w.markets|
    ensures w.markets[i].status != Open ==> moves == []
    ensures forall n :: 0 <= n < |moves| ==>
              && moves[n].market == i && !moves[n].Close?
              && (moves[n].Arrive? ==> moves[n].outcome < |w.markets[i].books| && moves[n].offered > 0)
  {
    var m := w.markets[i];
    if m.status != Open then []
    else if m.flowPerTick == 0 || Pool(m.books) == 0 then [Drift(i)]
    else [Drift(i)] + Arrivals(i, Split(m.flowPerTick, m.books, Pool(m.books)), |m.books|)
  }

  /** One tick of the first k markets, in order. */
  function TickFirst(w: World, k: nat): (r: World)
    requires WellFormed(w) && k <= |w.markets|
    ensures WellFormed(r) && SameShape(w, r)
  {
    if k == 0 then w
    else
      var v := TickFirst(w, k - 1);
      Moved(v, MarketMoves(v, k - 1))
  }

  // ------------------------------------------------------------------ settlement

  predicate Due(m: Market, now: int) {
    m.status == Open && now >= m.resolutionTime
  }

  function WinnerOf(m: Market): nat {
    var above := m.price8 >= m.strike8;
    if m.direction == 0 then (if above then 0 else 1) else (if above then 1 else 0)
  }

  function SettleMarket(m: Market, now: int): Market {
    if Due(m, now) then m.(winner := Some(WinnerOf(m)), status := Resolved) else m
  }

  /** The first k markets settled if due, in order. */
  function SettleFirst(w: World, now: int, k: nat): (r: World)
    requires WellFormed(w) && k <= |w.markets|
    ensures WellFormed(r) && SameShape(w, r)
  {
    if k == 0 then w else MoveTo(SettleFirst(w, now, k - 1), Close(k - 1, now))
  }

  function SettledIds(markets: seq<Market>, now: int): seq<string> {
    if |markets| == 0 then []
    else
      var before, m := SettledIds(markets[..|markets| - 1], now), markets[|markets| - 1];
      if Due(m, now) then before + [m.id] else before
  }

  /** What a claim would pay position p in a market that looks like m. */
  function Payout(m: Market, p: Position): int {
    if m.status == Voided then p.accepted
    else if m.status != Resolved || m.winner != Some(p.outcome) || p.outcome >= |m.books| then 0
    else PayoutIfWins(p.accepted, p.entryAcc, m.books[p.outcome].acc)
  }

  /** What a stake is worth to a winner: itself and its share of the gain since entry, floored. */
  function PayoutIfWins(accepted: int, entryAcc: int, acc: int): int {
    TruncDiv(accepted * (SCALE + acc - entryAcc), SCALE)
  }

  function VestingEarned(m: Market, p: Position): int {
    if p.outcome >= |m.books| || m.books[p.outcome].acc <= p.entryAcc then 0
    else TruncDiv(p.accepted * (m.books[p.outcome].acc - p.entryAcc), SCALE)
  }

  // ------------------------------------------------------------------ runs

  datatype Step =
    | EnterStep(id: string, outcome: nat, offered: int, owner: string)
    | TickStep
    | SettleStep(now: int)
    | ClaimStep(number: int)

  function MarkClaimed(w: World, number: int): (r: World)
    requires WellFormed(w)
    ensures WellFormed(r) && SameShape(w, r)
  {
    if 1 <= number <= |w.positions|
    then w.(positions := w.positions[number - 1 := w.positions[number - 1].(claimed := true)])
    else w
  }

  function Apply(w: World, s: Step): (r: World)
    requires WellFormed(w)
    ensures WellFormed(r) && SameShape(w, r)
  {
    match s
    case EnterStep(id, outcome, offered, owner) => Enter(w, id, outcome, offered, owner).0
    case TickStep => TickFirst(w, |w.markets|)
    case SettleStep(now) => SettleFirst(w, now, |w.markets|)
    case ClaimStep(number) => MarkClaimed(w, number)
  }

  function Run(w: World, steps: seq<Step>): (r: World)
    requires WellFormed(w)
    ensures WellFormed(r) && SameShape(w, r)
  {
    if |steps| == 0 then w
    else Apply(Run(w, steps[..|steps| - 1]), steps[|steps| - 1])
  }
}
