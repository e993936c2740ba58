/** The account solvency rests on, for every entry the world takes: one on an outcome the market
    does not have and one of a negative amount included. */
module Backing {
  import opened Numbers
  import opened VestedWorld
  import opened VestedReplay
  import opened Solvency

  /** Opposing stake accepted, less what has vested to the holders of book o, in units of 1 / SCALE:
      what solvency keeps from going below zero. */
  function Spare(m0: Market, m: Market, ps: seq<Position>, o: nat): int
    requires o < |m0.books| && o < |m.books|
  {
    SCALE * Inflow(ps, m.id, o) - Owed(m0.books[o], ps, m.id, o, m.books[o].acc)
  }

  /** m is some later state of the market that opened as m0. */
  ghost predicate SameMarket(m0: Market, m: Market) {
    m.id == m0.id && |m.books| == |m0.books|
  }

  /** Units on book o, which opened as b: the opening principal and the accepted stake. */
  function Held(b: Book, ps: seq<Position>, id: string, o: nat): int {
    b.principal + Stake(ps, id, o)
  }

  /** What an entry of `a` vests to `units` of book b, beyond what it brings; an entry that
      records no position brings nothing. */
  function Excess(b: Book, units: int, a: int, recorded: bool): int
    requires b.principal > 0
  {
    TruncDiv(a * SCALE, b.principal) * units - if recorded then a * SCALE else 0
  }

  lemma SpareVests(b: Book, r: Book, ps: seq<Position>, id: string, o: nat, a: int)
    requires r.principal > 0
    ensures Owed(b, ps, id, o, Vest(r, a).acc)
            == Owed(b, ps, id, o, r.acc) + TruncDiv(a * SCALE, r.principal) * (b.principal + Stake(ps, id, o))
  {
    var d := VestAdds(r, a);
    OwedShift(b, ps, id, o, r.acc, d, b.principal + Stake(ps, id, o));
  }

  /** Every entry, from every world, takes its excess out of what is spare for the other books
      and nothing out of what is spare for its own. */
  lemma EntryMovesSpare(m0: Market, w: World, i: nat, outcome: nat, offered: int, owner: string, o: nat)
    requires WellFormed(w) && i < |w.markets| && SameMarket(m0, w.markets[i]) && o < |m0.books|
    ensures var m, w' := w.markets[i], EnterMarket(w, i, outcome, offered, owner).0;
            var a := Acceptable(m.books, outcome, offered);
            Spare(m0, w'.markets[i], w'.positions, o) ==
            Spare(m0, m, w.positions, o)
            - if o == outcome then 0
              else Excess(m.books[o], Held(m0.books[o], w.positions, m0.id, o), a, outcome < |m.books|)
  {
    var m, w' := w.markets[i], EnterMarket(w, i, outcome, offered, owner).0;
    var a := Acceptable(m.books, outcome, offered);
    var acc := w'.markets[i].books[o].acc;
    if o != outcome { SpareVests(m0.books[o], m.books[o], w.positions, m0.id, o, a); }
    if outcome < |m.books| {
      var p := w'.positions[|w.positions|];
      assert w'.positions == w.positions + [p];
      assert (w.positions + [p])[..|w.positions|] == w.positions;
      OwedSnoc(m0.books[o], w.positions, p, m0.id, o, acc);
    }
  }

  // ------------------------------------------------------------------ one more entry

  /** The spare of a book covers an entry of `a` against it. */
  predicate Affords(b: Book, spare: int, a: int, recorded: bool)
    requires b.principal > 0
  {
    if recorded then a >= 0 || ((-a) * SCALE) % b.principal <= spare
    else TruncDiv(a * SCALE, b.principal) * b.principal <= spare
  }

  lemma AffordsIff(b: Book, spare: int, a: int, recorded: bool)
    requires b.principal > 0 && spare >= 0
    ensures Affords(b, spare, a, recorded) <==> Excess(b, b.principal, a, recorded) <= spare
  {
    TruncSplits(a * SCALE, b.principal);
  }

  /** After any run of offers on known outcomes, what is spare is what the divisions dropped. */
  lemma RunSpare(w0: World, steps: seq<Step>, i: nat, o: nat)
    requires WellFormed(w0) && w0.positions == [] && i < |w0.markets| && o < |w0.markets[i].books|
    requires KnownOutcomes(w0, steps) && Offers(steps)
    ensures var m0, w := w0.markets[i], Run(w0, steps);
            && SameMarket(m0, w.markets[i])
            && w.markets[i].books[o].principal == Held(m0.books[o], w.positions, m0.id, o)
            && Spare(m0, w.markets[i], w.positions, o) == LostVesting(m0.kappa, m0.books[o], w.positions, m0.id, o)
            && Spare(m0, w.markets[i], w.positions, o) >= 0
  {
    var m0, w := w0.markets[i], Run(w0, steps);
    RunTracks(w0, steps);
    RunNonNegative(w0, steps);
    ShapeAt(w0, w, i);
    Backed(m0, w.positions, o);
    LostBounds(m0.kappa, m0.books[o], w.positions, m0.id, o);
    ReplayTotals(m0.kappa, m0.books[o], w.positions, m0.id, o);
  }

  ghost predicate AllBacked(m0: Market, m: Market, ps: seq<Position>)
    requires SameMarket(m0, m)
  {
    forall o :: 0 <= o < |m.books| ==> Spare(m0, m, ps, o) >= 0
  }

  /** Book o of market i after one more entry. */
  lemma NextEntryBacksBook(w0: World, steps: seq<Step>, i: nat, outcome: nat, offered: int, owner: string, o: nat)
    requires WellFormed(w0) && w0.positions == [] && i < |w0.markets| && o < |w0.markets[i].books|
    requires KnownOutcomes(w0, steps) && Offers(steps)
    ensures var m0, w := w0.markets[i], Run(w0, steps);
            var m, w' := w.markets[i], EnterMarket(w, i, outcome, offered, owner).0;
            && SameMarket(m0, m) && SameMarket(m0, w'.markets[i])
            && (Spare(m0, w'.markets[i], w'.positions, o) >= 0 <==>
                o == outcome || Affords(m.books[o], Spare(m0, m, w.positions, o),
                                        Acceptable(m.books, outcome, offered), outcome < |m.books|))
  {
    hide Spare, EnterMarket, Affords, Acceptable, Excess, KnownOutcomes, Offers;
    var m0, w := w0.markets[i], Run(w0, steps);
    var m, w' := w.markets[i], EnterMarket(w, i, outcome, offered, owner).0;
    ShapeAt(w0, w, i);
    ShapeAt(w0, w', i);
    RunSpare(w0, steps, i, o);
    EntryMovesSpare(m0, w, i, outcome, offered, owner, o);
    AffordsIff(m.books[o], Spare(m0, m, w.positions, o), Acceptable(m.books, outcome, offered), outcome < |m.books|);
  }

  /** One more entry keeps every book backed exactly when each book it vests into affords it: a
      recorded offer of zero or more always, a recorded negative one when its remainder is
      spare, and one on a missing outcome when all it vests is. */
  lemma NextEntryKeepsBackingIff(w0: World, steps: seq<Step>, i: nat, outcome: nat, offered: int, owner: string)
    requires WellFormed(w0) && w0.positions == [] && i < |w0.markets| && KnownOutcomes(w0, steps) && Offers(steps)
    ensures var m0, w := w0.markets[i], Run(w0, steps);
            var m, w' := w.markets[i], EnterMarket(w, i, outcome, offered, owner).0;
            && SameMarket(m0, m) && SameMarket(m0, w'.markets[i])
            && (AllBacked(m0, w'.markets[i], w'.positions) <==>
                forall o :: 0 <= o < |m.books| && o != outcome ==>
                  Affords(m.books[o], Spare(m0, m, w.positions, o),
                          Acceptable(m.books, outcome, offered), outcome < |m.books|))
  {
    hide Spare, EnterMarket, Affords, Acceptable, KnownOutcomes, Offers, Run;
    var m0, w := w0.markets[i], Run(w0, steps);
    var w' := EnterMarket(w, i, outcome, offered, owner).0;
    ShapeAt(w0, w, i);
    ShapeAt(w0, w', i);
    forall o | 0 <= o < |w.markets[i].books|
      ensures Spare(m0, w'.markets[i], w'.positions, o) >= 0 <==>
              o == outcome || Affords(w.markets[i].books[o], Spare(m0, w.markets[i], w.positions, o),
                                      Acceptable(w.markets[i].books, outcome, offered), outcome < |w.markets[i].books|)
    {
      NextEntryBacksBook(w0, steps, i, outcome, offered, owner, o);
    }
  }

  // ------------------------------------------------------------------ the account of a whole run

  /** What move v takes out of what is spare for book o of market i, which opened as b: the excess of
      an arrival against o, missing outcomes included, on the books it finds. */
  function Takes(b: Book, x: World, v: Move, i: nat, o: nat): int
    requires WellFormed(x) && i < |x.markets| && o < |x.markets[i].books|
  {
    var m := x.markets[i];
    if v.Arrive? && v.market == i && v.outcome != o
    then Excess(m.books[o], Held(b, x.positions, m.id, o), Acceptable(m.books, v.outcome, v.offered), v.outcome < |m.books|)
    else 0
  }

  /** What the moves take, each on the books it finds. */
  function Taken(b: Book, w: World, moves: seq<Move>, i: nat, o: nat): int
    requires WellFormed(w) && InRange(w, moves) && i < |w.markets| && o < |w.markets[i].books|
  {
    if |moves| == 0 then 0
    else
      var front := moves[..|moves| - 1];
      ShapeAt(w, Moved(w, front), i);
      Taken(b, w, front, i, o) + Takes(b, Moved(w, front), moves[|moves| - 1], i, o)
  }

  /** What one step takes: an entry by name, or the crowd's arrivals of a tick. */
  function StepTakes(b: Book, w: World, s: Step, i: nat, o: nat): int
    requires WellFormed(w) && i < |w.markets| && o < |w.markets[i].books|
  {
    match s
    case EnterStep(id, outcome, offered, owner) =>
      if FindMarket(w.markets, id) == Some(i) then Takes(b, w, Arrive(i, outcome, offered, owner), i, o) else 0
    case TickStep =>
      var v := TickFirst(w, i);
      ShapeAt(w, v, i);
      Taken(b, v, MarketMoves(v, i), i, o)
    case SettleStep(_) => 0
    case ClaimStep(_) => 0
  }

  /** What a run takes, entry by entry. */
  function RunTakes(b: Book, w: World, steps: seq<Step>, i: nat, o: nat): int
    requires WellFormed(w) && i < |w.markets| && o < |w.markets[i].books|
  {
    if |steps| == 0 then 0
    else
      var front := steps[..|steps| - 1];
      ShapeAt(w, Run(w, front), i);
      RunTakes(b, w, front, i, o) + StepTakes(b, Run(w, front), steps[|steps| - 1], i, o)
  }

  /** A position in another market is nothing to book o of this one. */
  lemma SpareElsewhere(m0: Market, m: Market, ps: seq<Position>, p: Position, o: nat)
    requires SameMarket(m0, m) && o < |m0.books| && p.marketId != m.id
    ensures Spare(m0, m, ps + [p], o) == Spare(m0, m, ps, o)
  {
    assert (ps + [p])[..|ps|] == ps;
    OwedSnoc(m0.books[o], ps, p, m.id, o, m.books[o].acc);
  }

  lemma MoveTakes(m0: Market, w: World, v: Move, i: nat, o: nat)
    requires WellFormed(w) && v.market < |w.markets| && i < |w.markets| && SameMarket(m0, w.markets[i]) && o < |m0.books|
    ensures SameMarket(m0, MoveTo(w, v).markets[i])
    ensures Spare(m0, MoveTo(w, v).markets[i], MoveTo(w, v).positions, o)
            == Spare(m0, w.markets[i], w.positions, o) - Takes(m0.books[o], w, v, i, o)
  {
    hide Spare, Excess;
    var w' := MoveTo(w, v);
    ShapeAt(w, w', i);
    if v.Arrive? && v.market == i {
      EntryMovesSpare(m0, w, i, v.outcome, v.offered, v.owner, o);
    } else if v.Arrive? {
      IdsDistinct(w, i, v.market);
      if v.outcome < |w.markets[v.market].books| {
        SpareElsewhere(m0, w.markets[i], w.positions, w'.positions[|w.positions|], o);
      }
    } else {
      SameSpare(m0, w.markets[i], w'.markets[i], w.positions, o);
    }
  }

  lemma SameSpare(m0: Market, m: Market, m': Market, ps: seq<Position>, o: nat)
    requires SameMarket(m0, m) && SameMarket(m0, m') && o < |m0.books| && m'.books == m.books
    ensures Spare(m0, m', ps, o) == Spare(m0, m, ps, o)
  {
  }

  lemma {:induction false} MovesTake(m0: Market, w: World, moves: seq<Move>, i: nat, o: nat)
    requires WellFormed(w) && InRange(w, moves) && i < |w.markets| && SameMarket(m0, w.markets[i]) && o < |m0.books|
    ensures SameMarket(m0, Moved(w, moves).markets[i])
    ensures Spare(m0, Moved(w, moves).markets[i], Moved(w, moves).positions, o)
            == Spare(m0, w.markets[i], w.positions, o) - Taken(m0.books[o], w, moves, i, o)
  {
    hide Spare, Takes, MoveTo;
    if |moves| > 0 {
      var front := moves[..|moves| - 1];
      MovesTake(m0, w, front, i, o);
      MoveTakes(m0, Moved(w, front), moves[|moves| - 1], i, o);
    }
  }

  lemma {:induction false} TakenElsewhere(b: Book, w: World, moves: seq<Move>, i: nat, o: nat)
    requires WellFormed(w) && InRange(w, moves) && i < |w.markets| && o < |w.markets[i].books|
    requires forall n :: 0 <= n < |moves| ==> moves[n].market != i
    ensures Taken(b, w, moves, i, o) == 0
  {
    if |moves| > 0 {
      ShapeAt(w, Moved(w, moves[..|moves| - 1]), i);
      TakenElsewhere(b, w, moves[..|moves| - 1], i, o);
    }
  }

  /** A tick of the first k markets takes what the arrivals on market i take, if it is among them. */
  lemma {:induction false} TickTakes(m0: Market, w: World, k: nat, i: nat, o: nat)
    requires WellFormed(w) && k <= |w.markets| && i < |w.markets| && SameMarket(m0, w.markets[i]) && o < |m0.books|
    ensures var v := TickFirst(w, k);
            && SameMarket(m0, v.markets[i])
            && Spare(m0, v.markets[i], v.positions, o) ==
               Spare(m0, w.markets[i], w.positions, o) - if i < k then StepTakes(m0.books[o], w, TickStep, i, o) else 0
  {
    hide Spare, Taken, MarketMoves, Moved;
    if k > 0 {
      var v := TickFirst(w, k - 1);
      TickTakes(m0, w, k - 1, i, o);
      MovesTake(m0, v, MarketMoves(v, k - 1), i, o);
      if i != k - 1 { TakenElsewhere(m0.books[o], v, MarketMoves(v, k - 1), i, o); }
    }
  }

  lemma {:induction false} SettleKeepsBooks(w: World, now: int, k: nat, i: nat)
    requires WellFormed(w) && k <= |w.markets| && i < |w.markets|
    ensures SettleFirst(w, now, k).positions == w.positions
    ensures SettleFirst(w, now, k).markets[i].books == w.markets[i].books
  {
    if k > 0 { SettleKeepsBooks(w, now, k - 1, i); }
  }

  lemma {:induction false} SumsIgnoreClaims(ps: seq<Position>, qs: seq<Position>, id: string, o: nat, acc: int)
    requires SameStakes(ps, qs)
    ensures Inflow(ps, id, o) == Inflow(qs, id, o) && Vesting(ps, id, o, acc) == Vesting(qs, id, o, acc)
  {
    if |ps| > 0 {
      SumsIgnoreClaims(ps[..|ps| - 1], qs[..|qs| - 1], id, o, acc);
      assert ps[|ps| - 1].(claimed := qs[|ps| - 1].claimed) == qs[|ps| - 1];
    }
  }

  lemma StepsTake(m0: Market, w: World, s: Step, i: nat, o: nat)
    requires WellFormed(w) && i < |w.markets| && SameMarket(m0, w.markets[i]) && o < |m0.books|
    ensures SameMarket(m0, Apply(w, s).markets[i])
    ensures Spare(m0, Apply(w, s).markets[i], Apply(w, s).positions, o)
            == Spare(m0, w.markets[i], w.positions, o) - StepTakes(m0.books[o], w, s, i, o)
  {
    ShapeAt(w, Apply(w, s), i);
    match s
    case EnterStep(id, outcome, offered, owner) =>
      var found := FindMarket(w.markets, id);
      if found.Some? { MoveTakes(m0, w, Arrive(found.value, outcome, offered, owner), i, o); }
    case TickStep => TickTakes(m0, w, |w.markets|, i, o);
    case SettleStep(now) =>
      SettleKeepsBooks(w, now, |w.markets|, i);
      SameSpare(m0, w.markets[i], Apply(w, s).markets[i], w.positions, o);
    case ClaimStep(number) =>
      SumsIgnoreClaims(w.positions, Apply(w, s).positions, m0.id, o, w.markets[i].books[o].acc);
  }

  /** Over any run, from any world, what is spare falls by what the run takes. */
  lemma {:induction false} RunTakesFromSpare(m0: Market, w: World, steps: seq<Step>, i: nat, o: nat)
    requires WellFormed(w) && i < |w.markets| && SameMarket(m0, w.markets[i]) && o < |m0.books|
    ensures SameMarket(m0, Run(w, steps).markets[i])
    ensures Spare(m0, Run(w, steps).markets[i], Run(w, steps).positions, o)
            == Spare(m0, w.markets[i], w.positions, o) - RunTakes(m0.books[o], w, steps, i, o)
  {
    hide Spare, StepTakes, Apply;
    if |steps| > 0 {
      var front := steps[..|steps| - 1];
      RunTakesFromSpare(m0, w, front, i, o);
      StepsTake(m0, Run(w, front), steps[|steps| - 1], i, o);
    }
  }

  // ------------------------------------------------------------------ payouts

  lemma OpeningSpare(m0: Market, o: nat)
    requires o < |m0.books|
    ensures Spare(m0, m0, [], o) == 0
  {
    assert m0.books[o].principal * (m0.books[o].acc - m0.books[o].acc) == 0;
  }

  /** Solvency of every run, whatever was entered in it, missing outcomes and negative amounts in any
      number: the positions on o can be paid out of what was accepted exactly when what the
      entries took, each on the books it found, is within what vested to the opening principal
      and what flooring the payouts drops. */
  lemma RunIsCoveredIff(w0: World, steps: seq<Step>, i: nat, o: nat)
    requires WellFormed(w0) && w0.positions == [] && i < |w0.markets| && o < |w0.markets[i].books|
    ensures var m0, w := w0.markets[i], Run(w0, steps);
            && SameMarket(m0, w.markets[i])
            && var acc := w.markets[i].books[o].acc;
               PaidIfWins(w.positions, m0.id, o, acc) <= Accepted(w.positions, m0.id) <==>
               RunTakes(m0.books[o], w0, steps, i, o)
               <= m0.books[o].principal * (acc - m0.books[o].acc) + LostPaying(w.positions, m0.id, o, acc)
  {
    var m0, w := w0.markets[i], Run(w0, steps);
    OpeningSpare(m0, o);
    RunTakesFromSpare(m0, w0, steps, i, o);
    PaidExactly(w.positions, m0.id, o, w.markets[i].books[o].acc);
    StakeAndInflow(w.positions, m0.id, o);
  }

  /** What a market claims of what it accepted, once it is settled: exactly under that condition on
      its winner it claims no more. */
  lemma RunIsSolventIff(w0: World, steps: seq<Step>, i: nat, o: nat)
    requires WellFormed(w0) && w0.positions == [] && i < |w0.markets| && o < |w0.markets[i].books|
    requires Run(w0, steps).markets[i].status == Resolved && Run(w0, steps).markets[i].winner == Some(o)
    ensures var m0, m, ps := w0.markets[i], Run(w0, steps).markets[i], Run(w0, steps).positions;
            && |m.books| == |m0.books|
            && (PaidOut(m, ps) <= Accepted(ps, m0.id) <==>
                RunTakes(m0.books[o], w0, steps, i, o)
                <= m0.books[o].principal * (m.books[o].acc - m0.books[o].acc) + LostPaying(ps, m0.id, o, m.books[o].acc))
  {
    hide RunTakes, PaidOut, PaidIfWins, LostPaying, Accepted;
    ShapeAt(w0, Run(w0, steps), i);
    RunIsCoveredIff(w0, steps, i, o);
    PaidOutCases(Run(w0, steps).markets[i], Run(w0, steps).positions);
  }

  /** A run of offers on known outcomes takes nothing, and leaves over what its divisions dropped. */
  lemma CleanRunTakes(w0: World, steps: seq<Step>, i: nat, o: nat)
    requires WellFormed(w0) && w0.positions == [] && i < |w0.markets| && o < |w0.markets[i].books|
    requires KnownOutcomes(w0, steps) && Offers(steps)
    ensures var m0 := w0.markets[i];
            RunTakes(m0.books[o], w0, steps, i, o) == -LostVesting(m0.kappa, m0.books[o], Run(w0, steps).positions, m0.id, o) <= 0
  {
    RunSpare(w0, steps, i, o);
    OpeningSpare(w0.markets[i], o);
    RunTakesFromSpare(w0.markets[i], w0, steps, i, o);
  }

  /** The accumulator book o of these will stand at once `a` has been accepted on `outcome`. */
  function AccAfter(books: seq<Book>, outcome: nat, a: int, o: nat): int
    requires Funded(books) && o < |books|
  {
    if o == outcome then books[o].acc else Vest(books[o], a).acc
  }

  lemma WholeStake(s: int)
    ensures TruncRem(s * SCALE, SCALE) == 0
  {
  }

  lemma NothingGained(s: int, unit: int)
    requires unit == SCALE
    ensures TruncRem(s * unit, SCALE) == 0
  {
    hide TruncRem;
    WholeStake(s);
  }

  /** A position that has gained nothing yet loses nothing to flooring. */
  lemma LostSnoc(ps: seq<Position>, p: Position, id: string, o: nat, acc: int)
    requires Mine(p, id, o) ==> p.entryAcc == acc
    ensures LostPaying(ps + [p], id, o, acc) == LostPaying(ps, id, o, acc)
  {
    hide TruncRem;
    assert (ps + [p])[..|ps|] == ps;
    if Mine(p, id, o) { NothingGained(p.accepted, SCALE + acc - p.entryAcc); }
  }

  /** An entry adds nothing to what flooring drops of the payouts on any book. */
  lemma EntryLosesNothing(w: World, i: nat, outcome: nat, offered: int, owner: string, o: nat)
    requires WellFormed(w) && i < |w.markets| && o < |w.markets[i].books|
    ensures var m, w' := w.markets[i], EnterMarket(w, i, outcome, offered, owner).0;
            var acc := AccAfter(m.books, outcome, Acceptable(m.books, outcome, offered), o);
            && |w'.markets[i].books| == |m.books| && w'.markets[i].books[o].acc == acc
            && LostPaying(w'.positions, m.id, o, acc) == LostPaying(w.positions, m.id, o, acc)
  {
    hide LostPaying, Acceptable, Vest;
    var m, w' := w.markets[i], EnterMarket(w, i, outcome, offered, owner).0;
    if outcome < |m.books| {
      var p := w'.positions[|w.positions|];
      assert w'.positions == w.positions + [p];
      LostSnoc(w.positions, p, m.id, o, w'.markets[i].books[o].acc);
    }
  }

  lemma OneMoreTakes(b: Book, w: World, steps: seq<Step>, i: nat, outcome: nat, offered: int, owner: string, o: nat)
    requires WellFormed(w) && i < |w.markets| && o < |w.markets[i].books|
    ensures var (s, x) := (EnterStep(w.markets[i].id, outcome, offered, owner), Run(w, steps));
            && |x.markets| == |w.markets| && |x.markets[i].books| == |w.markets[i].books|
            && Run(w, steps + [s]) == EnterMarket(x, i, outcome, offered, owner).0
            && RunTakes(b, w, steps + [s], i, o) == RunTakes(b, w, steps, i, o) + Takes(b, x, Arrive(i, outcome, offered, owner), i, o)
  {
    hide Takes, EnterMarket;
    var (s, x) := (EnterStep(w.markets[i].id, outcome, offered, owner), Run(w, steps));
    assert (steps + [s])[..|steps|] == steps;
    ShapeAt(w, x, i);
    FindSelf(x, i);
  }

  /** What a clean run and one more entry take together. */
  lemma NextTakes(w0: World, steps: seq<Step>, i: nat, outcome: nat, offered: int, owner: string, o: nat)
    requires WellFormed(w0) && w0.positions == [] && i < |w0.markets| && o < |w0.markets[i].books|
    requires KnownOutcomes(w0, steps) && Offers(steps)
    ensures var m0, w := w0.markets[i], Run(w0, steps);
            && SameMarket(m0, w.markets[i])
            && var m := w.markets[i];
               RunTakes(m0.books[o], w0, steps + [EnterStep(m0.id, outcome, offered, owner)], i, o) ==
               (if o == outcome then 0
                else Excess(m.books[o], m.books[o].principal, Acceptable(m.books, outcome, offered), outcome < |m.books|))
               - LostVesting(m0.kappa, m0.books[o], w.positions, m0.id, o)
  {
    hide EnterMarket, Acceptable, Excess, KnownOutcomes, Offers, LostVesting, RunTakes, Run;
    var m0, w := w0.markets[i], Run(w0, steps);
    RunSpare(w0, steps, i, o);
    CleanRunTakes(w0, steps, i, o);
    OneMoreTakes(m0.books[o], w0, steps, i, outcome, offered, owner, o);
  }

  /** One more entry after any run of offers on known outcomes leaves the positions on o covered
      exactly when its excess is within what the divisions had dropped, what will have vested
      to the opening principal and what flooring the payouts will drop: all of it known before
      the entry is made. */
  lemma NextEntryIsCoveredIff(w0: World, steps: seq<Step>, i: nat, outcome: nat, offered: int, owner: string, o: nat)
    requires WellFormed(w0) && w0.positions == [] && i < |w0.markets| && o < |w0.markets[i].books|
    requires KnownOutcomes(w0, steps) && Offers(steps)
    ensures var m0, w := w0.markets[i], Run(w0, steps);
            var m, w' := w.markets[i], EnterMarket(w, i, outcome, offered, owner).0;
            && SameMarket(m0, m) && SameMarket(m0, w'.markets[i])
            && var a := Acceptable(m.books, outcome, offered);
               var acc := AccAfter(m.books, outcome, a, o);
               PaidIfWins(w'.positions, m0.id, o, w'.markets[i].books[o].acc) <= Accepted(w'.positions, m0.id) <==>
               (if o == outcome then 0 else Excess(m.books[o], m.books[o].principal, a, outcome < |m.books|))
               <= LostVesting(m0.kappa, m0.books[o], w.positions, m0.id, o)
                  + m0.books[o].principal * (acc - m0.books[o].acc) + LostPaying(w.positions, m0.id, o, acc)
  {
    hide EnterMarket, Acceptable, AccAfter, Excess, KnownOutcomes, Offers, LostPaying, PaidIfWins, LostVesting, RunTakes,
         Run, Takes, Accepted;
    var m0, w := w0.markets[i], Run(w0, steps);
    var w' := EnterMarket(w, i, outcome, offered, owner).0;
    ShapeAt(w0, w, i);
    ShapeAt(w0, w', i);
    NextTakes(w0, steps, i, outcome, offered, owner, o);
    OneMoreTakes(m0.books[o], w0, steps, i, outcome, offered, owner, o);
    RunIsCoveredIff(w0, steps + [EnterStep(m0.id, outcome, offered, owner)], i, o);
    EntryLosesNothing(w, i, outcome, offered, owner, o);
  }
}
