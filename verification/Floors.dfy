/** The floor under a position, exactly: which entries can lower what a position is worth if its
    side wins, whatever amounts and outcomes are asked for. */
module Floors {
  import opened Numbers
  import opened VestedWorld
  import opened VestedReplay
  import opened Claims

  // ------------------------------------------------------------------ one entry

  /** Nothing is taken back, or too little to lower any book it is taken from by a unit. */
  ghost predicate Gentle(books: seq<Book>, outcome: nat, offered: int) {
    offered >= 0 || forall o :: 0 <= o < |books| && o != outcome ==> -offered * SCALE < books[o].principal
  }

  ghost predicate NoneFalls(books: seq<Book>, after: seq<Book>) {
    |books| == |after| && forall o :: 0 <= o < |books| ==> books[o].acc <= after[o].acc
  }

  lemma VestFallsIff(b: Book, a: int)
    requires b.principal > 0
    ensures b.acc <= Vest(b, a).acc <==> a >= 0 || -a * SCALE < b.principal
  {
    if a > 0 {
      DivNonNegative(a * SCALE, b.principal);
    } else if a < 0 {
      FloorIsGreatest(1, -(a * SCALE), b.principal);
      DivNonNegative(-(a * SCALE), b.principal);
      assert -(a * SCALE) == -a * SCALE;
    }
  }

  /** No book's accumulator falls at an entry exactly when the entry is gentle. */
  lemma EntryKeepsAccsIff(kappa: int, books: seq<Book>, outcome: nat, offered: int)
    requires Funded(books)
    ensures NoneFalls(books, EnterBooks(kappa, books, outcome, Acceptable(books, outcome, offered)))
            <==> Gentle(books, outcome, offered)
  {
    var a := Acceptable(books, outcome, offered);
    var after := EnterBooks(kappa, books, outcome, a);
    forall o | 0 <= o < |books|
      ensures books[o].acc <= after[o].acc <==> o == outcome || offered >= 0 || -offered * SCALE < books[o].principal
    {
      VestFallsIff(books[o], a);
    }
  }

  /** Every stake that can stand on the book keeps what it is paid if the book wins. */
  ghost predicate KeepsWorth(b: Book, after: Book) {
    forall s, entryAcc :: s >= 0 && entryAcc <= b.acc ==>
      PayoutIfWins(s, entryAcc, b.acc) <= PayoutIfWins(s, entryAcc, after.acc)
  }

  lemma KeepsWorthIff(b: Book, after: Book)
    ensures KeepsWorth(b, after) <==> b.acc <= after.acc
  {
    if b.acc <= after.acc {
      forall s, entryAcc | s >= 0 && entryAcc <= b.acc
        ensures PayoutIfWins(s, entryAcc, b.acc) <= PayoutIfWins(s, entryAcc, after.acc)
      {
        PayoutMonotone(s, entryAcc, b.acc, after.acc);
      }
    } else {
      OneShare(b.acc, b.acc);
      OneShare(b.acc, after.acc);
      assert PayoutIfWins(SCALE, b.acc, b.acc) > PayoutIfWins(SCALE, b.acc, after.acc);
    }
  }

  /** A stake of SCALE units is paid every unit of gain exactly. */
  lemma OneShare(entryAcc: int, acc: int)
    ensures PayoutIfWins(SCALE, entryAcc, acc) == SCALE + acc - entryAcc
  {
    var x := SCALE + acc - entryAcc;
    if x >= 0 { FloorShift(0, x, SCALE); } else { FloorShift(0, -x, SCALE); }
    assert SCALE * x == x * SCALE + 0 && -(SCALE * x) == (-x) * SCALE + 0;
  }

  /** An entry leaves every stake that can stand on any book its worth exactly when it is gentle. */
  lemma EntryKeepsWorthIff(kappa: int, books: seq<Book>, outcome: nat, offered: int)
    requires Funded(books)
    ensures var after := EnterBooks(kappa, books, outcome, Acceptable(books, outcome, offered));
            (forall o :: 0 <= o < |books| ==> KeepsWorth(books[o], after[o])) <==> Gentle(books, outcome, offered)
  {
    var after := EnterBooks(kappa, books, outcome, Acceptable(books, outcome, offered));
    EntryKeepsAccsIff(kappa, books, outcome, offered);
    forall o | 0 <= o < |books| ensures KeepsWorth(books[o], after[o]) <==> books[o].acc <= after[o].acc {
      KeepsWorthIff(books[o], after[o]);
    }
  }

  // ------------------------------------------------------------------ every run

  ghost predicate NoMarketFalls(w: World, w': World) {
    |w.markets| == |w'.markets|
    && forall i :: 0 <= i < |w.markets| ==> NoneFalls(w.markets[i].books, w'.markets[i].books)
  }

  lemma NoMarketFallsTrans(w: World, v: World, x: World)
    requires NoMarketFalls(w, v) && NoMarketFalls(v, x)
    ensures NoMarketFalls(w, x)
  {
    forall i | 0 <= i < |w.markets| ensures NoneFalls(w.markets[i].books, x.markets[i].books) {
      assert NoneFalls(w.markets[i].books, v.markets[i].books) && NoneFalls(v.markets[i].books, x.markets[i].books);
    }
  }

  /** If the step is an entry, it is gentle on the market it finds. */
  ghost predicate GentleStep(w: World, s: Step) {
    s.EnterStep? ==>
      var found := FindMarket(w.markets, s.id);
      found.Some? ==> Gentle(w.markets[found.value].books, s.outcome, s.offered)
  }

  lemma MoveKeepsAccs(w: World, v: Move)
    requires WellFormed(w) && v.market < |w.markets|
    requires v.Arrive? ==> Gentle(w.markets[v.market].books, v.outcome, v.offered)
    ensures NoMarketFalls(w, MoveTo(w, v))
  {
    var m := w.markets[v.market];
    if v.Arrive? { EntryKeepsAccsIff(m.kappa, m.books, v.outcome, v.offered); }
    assert forall i :: 0 <= i < |w.markets| && i != v.market ==> MoveTo(w, v).markets[i] == w.markets[i];
  }

  lemma {:induction false} MovedKeepsAccs(w: World, moves: seq<Move>)
    requires WellFormed(w) && InRange(w, moves) && Paying(moves)
    ensures NoMarketFalls(w, Moved(w, moves))
  {
    if |moves| > 0 {
      var front := moves[..|moves| - 1];
      MovedKeepsAccs(w, front);
      MoveKeepsAccs(Moved(w, front), moves[|moves| - 1]);
      NoMarketFallsTrans(w, Moved(w, front), Moved(w, moves));
    }
  }

  /** Of all steps only an entry can lower an accumulator, and it does unless it is gentle. */
  lemma StepKeepsAccsIff(w: World, s: Step)
    requires WellFormed(w)
    ensures NoMarketFalls(w, Apply(w, s)) <==> GentleStep(w, s)
  {
    if s.EnterStep? {
      var found := FindMarket(w.markets, s.id);
      if found.Some? {
        var m := w.markets[found.value];
        EntryKeepsAccsIff(m.kappa, m.books, s.outcome, s.offered);
        assert forall i :: 0 <= i < |w.markets| && i != found.value ==> Apply(w, s).markets[i] == w.markets[i];
        assert NoMarketFalls(w, Apply(w, s)) <==> NoneFalls(m.books, Apply(w, s).markets[found.value].books);
      }
    } else if !s.ClaimStep? {
      var moves := StepMoves(w, s);
      MovedKeepsAccs(w, moves);
    }
  }

  /** Every entry of the run is gentle on the books it finds. */
  ghost predicate GentleRun(w: World, steps: seq<Step>)
    requires WellFormed(w)
  {
    forall k :: 0 <= k < |steps| ==> GentleStep(Run(w, steps[..k]), steps[k])
  }

  /** No step of the run lowers any accumulator. */
  ghost predicate NeverFalls(w: World, steps: seq<Step>)
    requires WellFormed(w)
  {
    forall k :: 0 <= k < |steps| ==> NoMarketFalls(Run(w, steps[..k]), Apply(Run(w, steps[..k]), steps[k]))
  }

  /** No step of a run ever lowers what a unit on any book has gained exactly when all its entries
      are gentle: runs of offers of zero or more, on whatever outcomes, are. */
  lemma NeverFallsIff(w: World, steps: seq<Step>)
    requires WellFormed(w)
    ensures NeverFalls(w, steps) <==> GentleRun(w, steps)
    ensures Offers(steps) ==> GentleRun(w, steps)
  {
    forall k | 0 <= k < |steps|
      ensures NoMarketFalls(Run(w, steps[..k]), Apply(Run(w, steps[..k]), steps[k]))
              <==> GentleStep(Run(w, steps[..k]), steps[k])
      ensures Offers(steps) ==> GentleStep(Run(w, steps[..k]), steps[k])
    {
      StepKeepsAccsIff(Run(w, steps[..k]), steps[k]);
      assert steps[k] in steps;
    }
  }

  lemma {:induction false} GentleRunKeepsAccs(w: World, steps: seq<Step>)
    requires WellFormed(w) && GentleRun(w, steps)
    ensures NoMarketFalls(w, Run(w, steps))
  {
    if |steps| > 0 {
      var last := |steps| - 1;
      var front := steps[..last];
      GentleFront(w, steps);
      GentleRunKeepsAccs(w, front);
      StepKeepsAccsIff(Run(w, front), steps[last]);
      NoMarketFallsTrans(w, Run(w, front), Run(w, steps));
    }
  }

  lemma GentleFront(w: World, steps: seq<Step>)
    requires WellFormed(w) && GentleRun(w, steps) && |steps| > 0
    ensures GentleRun(w, steps[..|steps| - 1]) && GentleStep(Run(w, steps[..|steps| - 1]), steps[|steps| - 1])
  {
    hide Run, GentleStep;
    var front := steps[..|steps| - 1];
    forall k | 0 <= k < |front| ensures GentleStep(Run(w, front[..k]), front[k]) {
      assert front[..k] == steps[..k];
    }
  }

  // ------------------------------------------------------------------ the floor

  /** Position n is on a book of market i that it did not enter ahead of. */
  ghost predicate Stands(w: World, i: nat, n: nat) {
    && i < |w.markets| && n < |w.positions| && w.positions[n].outcome < |w.markets[i].books|
    && w.positions[n].entryAcc <= w.markets[i].books[w.positions[n].outcome].acc
  }

  /** Every position in a market stands there. */
  ghost predicate AllStand(w: World) {
    forall i, n :: 0 <= i < |w.markets| && 0 <= n < |w.positions| && w.positions[n].marketId == w.markets[i].id
                   ==> Stands(w, i, n)
  }

  lemma StandingStays(w: World, w': World, i: nat, n: nat)
    requires Stands(w, i, n) && NoMarketFalls(w, w') && Extends(w.positions, w'.positions)
    ensures Stands(w', i, n)
    ensures w'.positions[n].(claimed := w.positions[n].claimed) == w.positions[n]
  {
    assert NoneFalls(w.markets[i].books, w'.markets[i].books);
    assert w'.positions[..|w.positions|][n] == w'.positions[n];
  }

  lemma MoveStands(w: World, v: Move)
    requires WellFormed(w) && v.market < |w.markets| && AllStand(w) && NoMarketFalls(w, MoveTo(w, v))
    ensures AllStand(MoveTo(w, v))
  {
    var w' := MoveTo(w, v);
    forall i, n | 0 <= i < |w'.markets| && 0 <= n < |w'.positions| && w'.positions[n].marketId == w'.markets[i].id
      ensures Stands(w', i, n)
    {
      ShapeAt(w, w', i);
      if n < |w.positions| {
        StandingStays(w, w', i, n);
      } else if i != v.market {
        IdsDistinct(w, i, v.market);
      }
    }
  }

  lemma {:induction false} MovedStands(w: World, moves: seq<Move>)
    requires WellFormed(w) && InRange(w, moves) && Paying(moves) && AllStand(w)
    ensures AllStand(Moved(w, moves))
  {
    if |moves| > 0 {
      var front, last := moves[..|moves| - 1], moves[|moves| - 1];
      MovedStands(w, front);
      MoveKeepsAccs(Moved(w, front), last);
      MoveStands(Moved(w, front), last);
    }
  }

  lemma StepStands(w: World, s: Step)
    requires WellFormed(w) && AllStand(w) && GentleStep(w, s)
    ensures AllStand(Apply(w, s))
  {
    match s
    case EnterStep(id, outcome, offered, owner) =>
      var found := FindMarket(w.markets, id);
      if found.Some? {
        var v := Arrive(found.value, outcome, offered, owner);
        MoveKeepsAccs(w, v);
        MoveStands(w, v);
      }
    case ClaimStep(number) =>
      forall i, n | 0 <= i < |w.markets| && 0 <= n < |w.positions|
                    && Apply(w, s).positions[n].marketId == w.markets[i].id
        ensures Stands(Apply(w, s), i, n)
      {
        assert Stands(w, i, n);
      }
    case TickStep =>
      var moves := StepMoves(w, s);
      MovedStands(w, moves);
    case SettleStep(now) =>
      var moves := StepMoves(w, s);
      MovedStands(w, moves);
  }

  /** In every state of a gentle run every position stands on its book. */
  lemma {:induction false} RunStands(w: World, steps: seq<Step>)
    requires WellFormed(w) && AllStand(w) && GentleRun(w, steps)
    ensures AllStand(Run(w, steps))
  {
    if |steps| > 0 {
      GentleFront(w, steps);
      RunStands(w, steps[..|steps| - 1]);
      StepStands(Run(w, steps[..|steps| - 1]), steps[|steps| - 1]);
    }
  }

  /** The floor, with no more asked of the entries than that they are gentle: over any
      continuation a position of zero or more is never worth less if its side wins than it was,
      nor ever less than its principal. */
  lemma FloorOverTime(w0: World, steps: seq<Step>, later: seq<Step>, i: nat, n: nat)
    requires WellFormed(w0) && w0.positions == [] && i < |w0.markets|
    requires GentleRun(w0, steps) && GentleRun(Run(w0, steps), later)
    requires n < |Run(w0, steps).positions| && Run(w0, steps).positions[n].marketId == w0.markets[i].id
    requires Run(w0, steps).positions[n].accepted >= 0
    ensures var w, w' := Run(w0, steps), Run(Run(w0, steps), later);
            && Stands(w, i, n) && Stands(w', i, n)
            && w.positions[n].accepted <= WorthIfWins(w, i, n) <= WorthIfWins(w', i, n)
  {
    var w := Run(w0, steps);
    var w' := Run(w, later);
    ShapeAt(w0, w, i);
    RunStands(w0, steps);
    GentleRunKeepsAccs(w, later);
    RunExtends(w, later);
    StandingStays(w, w', i, n);
    var p := w.positions[n];
    assert NoneFalls(w.markets[i].books, w'.markets[i].books);
    PayoutMonotone(p.accepted, p.entryAcc, w.markets[i].books[p.outcome].acc, w'.markets[i].books[p.outcome].acc);
  }

  /** Payout and vesting are two readings of one account: a position that stands on its book is
      worth its principal and what has vested to it. */
  lemma WorthIsVested(w: World, i: nat, n: nat)
    requires Stands(w, i, n) && w.positions[n].accepted >= 0
    ensures WorthIfWins(w, i, n) == w.positions[n].accepted + VestingEarned(w.markets[i], w.positions[n])
    ensures VestingEarned(w.markets[i], w.positions[n]) >= 0
  {
    var p := w.positions[n];
    var gain := w.markets[i].books[p.outcome].acc - p.entryAcc;
    assert p.accepted * (SCALE + w.markets[i].books[p.outcome].acc - p.entryAcc) == p.accepted * SCALE + p.accepted * gain;
    MulMono(0, gain, p.accepted);
    DivNonNegative(p.accepted * gain, SCALE);
    FloorShift(p.accepted * gain, p.accepted, SCALE);
    if gain == 0 { assert p.accepted * gain == 0; }
  }
}
