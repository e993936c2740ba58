/** A second, independent account of the mechanism: every book is the replay of the list of
    positions against the book the market opened with. Whatever a run did, the world's
    books are that replay, so facts about runs become facts about one list. */
module VestedReplay {
  import opened VestedWorld

  predicate Mine(p: Position, id: string, o: nat) {
    p.marketId == id && p.outcome == o
  }

  predicate Against(p: Position, id: string, o: nat) {
    p.marketId == id && p.outcome != o
  }

  /** Book o of market `id`, having opened as b, after the entries in ps. */
  function Replay(kappa: int, b: Book, ps: seq<Position>, id: string, o: nat): (r: Book)
    requires b.principal > 0
    ensures r.principal >= b.principal
  {
    if |ps| == 0 then b
    else
      var r := Replay(kappa, b, ps[..|ps| - 1], id, o);
      var p := ps[|ps| - 1];
      if Mine(p, id, o) then Grow(kappa, r, p.accepted)
      else if Against(p, id, o) then Vest(r, p.accepted)
      else r
  }

  function ReplayBooks(m0: Market, ps: seq<Position>): (books: seq<Book>)
    requires Funded(m0.books)
    ensures |books| == |m0.books| && Funded(books)
  {
    seq(|m0.books|, o requires 0 <= o < |m0.books| => Replay(m0.kappa, m0.books[o], ps, m0.id, o))
  }

  /** Position n was accepted by the rule of its time and recorded the accumulator of its time. */
  ghost predicate Genuine(m0: Market, ps: seq<Position>, n: nat)
    requires Funded(m0.books) && n < |ps|
  {
    var p := ps[n];
    var then_ := ReplayBooks(m0, ps[..n]);
    && p.outcome < |m0.books|
    && p.accepted == Acceptable(then_, p.outcome, p.offered)
    && p.entryAcc == then_[p.outcome].acc
  }

  /** Every position of market m0 in ps is genuine. */
  ghost predicate Faithful(m0: Market, ps: seq<Position>)
    requires Funded(m0.books)
  {
    forall n :: 0 <= n < |ps| && ps[n].marketId == m0.id ==> Genuine(m0, ps, n)
  }

  /** w is what its own list of positions makes of the opening world w0. */
  ghost predicate Tracks(w0: World, w: World)
    requires WellFormed(w0)
  {
    && SameShape(w0, w)
    && (forall i :: 0 <= i < |w0.markets| ==> w.markets[i].books == ReplayBooks(w0.markets[i], w.positions))
    && (forall i :: 0 <= i < |w0.markets| ==> Faithful(w0.markets[i], w.positions))
  }

  // ------------------------------------------------------------------ one entry

  lemma ReplaySnoc(kappa: int, b: Book, ps: seq<Position>, p: Position, id: string, o: nat)
    requires b.principal > 0
    ensures var r := Replay(kappa, b, ps, id, o);
            Replay(kappa, b, ps + [p], id, o) ==
            if Mine(p, id, o) then Grow(kappa, r, p.accepted)
            else if Against(p, id, o) then Vest(r, p.accepted) else r
  {
    assert (ps + [p])[..|ps|] == ps;
  }

  lemma FaithfulSnoc(m0: Market, ps: seq<Position>, p: Position)
    requires Funded(m0.books) && Faithful(m0, ps)
    requires p.marketId == m0.id ==> Genuine(m0, ps + [p], |ps|)
    ensures Faithful(m0, ps + [p])
  {
    forall n | 0 <= n < |ps + [p]| && (ps + [p])[n].marketId == m0.id ensures Genuine(m0, ps + [p], n) {
      if n < |ps| {
        assert (ps + [p])[..n] == ps[..n];
        assert Genuine(m0, ps, n);
      }
    }
  }

  /** The books of a market, one accepted entry on. */
  lemma ReplayBooksSnoc(m0: Market, ps: seq<Position>, p: Position)
    requires Funded(m0.books)
    ensures p.marketId != m0.id ==> ReplayBooks(m0, ps + [p]) == ReplayBooks(m0, ps)
    ensures p.marketId == m0.id && p.outcome < |m0.books| ==>
              ReplayBooks(m0, ps + [p]) == EnterBooks(m0.kappa, ReplayBooks(m0, ps), p.outcome, p.accepted)
  {
    forall o | 0 <= o < |m0.books|
      ensures p.marketId != m0.id ==> ReplayBooks(m0, ps + [p])[o] == ReplayBooks(m0, ps)[o]
      ensures p.marketId == m0.id && p.outcome < |m0.books| ==>
                ReplayBooks(m0, ps + [p])[o] == EnterBooks(m0.kappa, ReplayBooks(m0, ps), p.outcome, p.accepted)[o]
    {
      ReplaySnoc(m0.kappa, m0.books[o], ps, p, m0.id, o);
    }
  }

  lemma EnterTracks(w0: World, w: World, k: nat, outcome: nat, offered: int, owner: string)
    requires WellFormed(w0) && WellFormed(w) && Tracks(w0, w) && k < |w.markets| && outcome < |w.markets[k].books|
    ensures Tracks(w0, EnterMarket(w, k, outcome, offered, owner).0)
  {
    var w' := EnterMarket(w, k, outcome, offered, owner).0;
    var p := w'.positions[|w.positions|];
    assert w'.positions == w.positions + [p];
    forall i | 0 <= i < |w0.markets|
      ensures w'.markets[i].books == ReplayBooks(w0.markets[i], w'.positions)
      ensures Faithful(w0.markets[i], w'.positions)
    {
      ShapeAt(w0, w, i);
      ReplayBooksSnoc(w0.markets[i], w.positions, p);
      if i == k {
        assert (w.positions + [p])[..|w.positions|] == w.positions;
        assert Genuine(w0.markets[i], w.positions + [p], |w.positions|);
      } else {
        IdsDistinct(w, i, k);
      }
      FaithfulSnoc(w0.markets[i], w.positions, p);
    }
  }

  // ------------------------------------------------------------------ steps that enter nothing

  /** The same list of entries, whatever has been claimed since. */
  ghost predicate SameStakes(ps: seq<Position>, qs: seq<Position>) {
    |ps| == |qs| && forall n :: 0 <= n < |ps| ==> ps[n].(claimed := qs[n].claimed) == qs[n]
  }

  lemma ReplayIgnoresClaims(kappa: int, b: Book, ps: seq<Position>, qs: seq<Position>, id: string, o: nat)
    requires b.principal > 0 && SameStakes(ps, qs)
    ensures Replay(kappa, b, ps, id, o) == Replay(kappa, b, qs, id, o)
  {
    if |ps| > 0 {
      ReplayIgnoresClaims(kappa, b, ps[..|ps| - 1], qs[..|qs| - 1], id, o);
      assert ps[|ps| - 1].(claimed := qs[|ps| - 1].claimed) == qs[|ps| - 1];
    }
  }

  lemma FaithfulIgnoresClaims(m0: Market, ps: seq<Position>, qs: seq<Position>)
    requires Funded(m0.books) && SameStakes(ps, qs) && Faithful(m0, ps)
    ensures ReplayBooks(m0, ps) == ReplayBooks(m0, qs) && Faithful(m0, qs)
  {
    forall n | 0 <= n <= |ps| ensures ReplayBooks(m0, ps[..n]) == ReplayBooks(m0, qs[..n]) {
      forall o | 0 <= o < |m0.books| ensures ReplayBooks(m0, ps[..n])[o] == ReplayBooks(m0, qs[..n])[o] {
        ReplayIgnoresClaims(m0.kappa, m0.books[o], ps[..n], qs[..n], m0.id, o);
      }
    }
    assert ps[..|ps|] == ps && qs[..|qs|] == qs;
    forall n | 0 <= n < |qs| && qs[n].marketId == m0.id ensures Genuine(m0, qs, n) {
      assert ps[n].(claimed := qs[n].claimed) == qs[n];
      assert Genuine(m0, ps, n);
    }
  }

  /** Anything that leaves every book alone and the entries as they were keeps the replay. */
  lemma QuietTracks(w0: World, w: World, w': World)
    requires WellFormed(w0) && Tracks(w0, w) && SameShape(w, w') && SameStakes(w.positions, w'.positions)
    requires forall i :: 0 <= i < |w.markets| ==> w'.markets[i].books == w.markets[i].books
    ensures Tracks(w0, w')
  {
    forall i | 0 <= i < |w0.markets|
      ensures w'.markets[i].books == ReplayBooks(w0.markets[i], w'.positions)
      ensures Faithful(w0.markets[i], w'.positions)
    {
      FaithfulIgnoresClaims(w0.markets[i], w.positions, w'.positions);
    }
  }

  // ------------------------------------------------------------------ runs as moves

  /** Every arrival is on an outcome its market has. */
  ghost predicate KnownMoves(w: World, moves: seq<Move>) {
    && InRange(w, moves)
    && forall k :: 0 <= k < |moves| && moves[k].Arrive? ==> moves[k].outcome < |w.markets[moves[k].market].books|
  }

  /** No arrival offers a negative amount. */
  ghost predicate Paying(moves: seq<Move>) {
    forall k :: 0 <= k < |moves| && moves[k].Arrive? ==> moves[k].offered >= 0
  }

  lemma {:induction false} MovedTracks(w0: World, w: World, moves: seq<Move>)
    requires WellFormed(w0) && WellFormed(w) && Tracks(w0, w) && KnownMoves(w, moves)
    ensures Tracks(w0, Moved(w, moves))
  {
    if |moves| > 0 {
      var front, last := moves[..|moves| - 1], moves[|moves| - 1];
      MovedTracks(w0, w, front);
      var v := Moved(w, front);
      if last.Arrive? {
        ShapeAt(w, v, last.market);
        EnterTracks(w0, v, last.market, last.outcome, last.offered, last.owner);
      } else {
        QuietTracks(w0, v, MoveTo(v, last));
      }
    }
  }

  lemma MovedSnoc(w: World, moves: seq<Move>, v: Move)
    requires WellFormed(w) && InRange(w, moves) && v.market < |w.markets|
    ensures InRange(w, moves + [v]) && Moved(w, moves + [v]) == MoveTo(Moved(w, moves), v)
  {
    assert (moves + [v])[..|moves|] == moves;
  }

  lemma {:induction false} MovedConcat(w: World, a: seq<Move>, b: seq<Move>)
    requires WellFormed(w) && InRange(w, a) && InRange(w, b)
    ensures Moved(w, a + b) == Moved(Moved(w, a), b)
  {
    if |b| == 0 {
      assert a + b == a;
    } else {
      MovedConcat(w, a, b[..|b| - 1]);
      assert (a + b)[..|a + b| - 1] == a + b[..|b| - 1];
    }
  }

  /** The moves lead from w to v. */
  ghost predicate Leads(w: World, moves: seq<Move>, v: World) {
    WellFormed(w) && InRange(w, moves) && v == Moved(w, moves)
  }

  lemma LeadsNowhere(w: World)
    requires WellFormed(w)
    ensures Leads(w, [], w)
  {
  }

  lemma LeadsOn(w: World, moves: seq<Move>, v: World, move: Move)
    requires Leads(w, moves, v) && move.market < |w.markets|
    ensures WellFormed(v) && |v.markets| == |w.markets| && Leads(w, moves + [move], MoveTo(v, move))
  {
    MovedSnoc(w, moves, move);
  }

  lemma LeadsThrough(w: World, a: seq<Move>, v: World, b: seq<Move>, x: World)
    requires Leads(w, a, v) && Leads(v, b, x)
    ensures Leads(w, a + b, x)
  {
    MovedConcat(w, a, b);
  }

  /** What a tick does to an open market with flow is a drift, then the arrivals. */
  lemma TickPieces(w: World, i: nat, v: World, x: World)
    requires WellFormed(w) && i < |w.markets| && w.markets[i].status == Open
    requires w.markets[i].flowPerTick != 0 && Pool(w.markets[i].books) != 0
    requires v == MoveTo(w, Drift(i))
    requires Leads(v, Arrivals(i, Split(w.markets[i].flowPerTick, w.markets[i].books, Pool(w.markets[i].books)),
                               |w.markets[i].books|), x)
    ensures Leads(w, MarketMoves(w, i), x)
  {
    OneMove(w, Drift(i));
    LeadsThrough(w, [Drift(i)], v,
                 Arrivals(i, Split(w.markets[i].flowPerTick, w.markets[i].books, Pool(w.markets[i].books)),
                          |w.markets[i].books|), x);
  }

  /** Every entry asked for names an outcome its market has (or a market that does not exist). */
  ghost predicate KnownOutcomes(w0: World, steps: seq<Step>) {
    forall s, i :: s in steps && s.EnterStep? && 0 <= i < |w0.markets| && w0.markets[i].id == s.id
                   ==> s.outcome < |w0.markets[i].books|
  }

  /** No entry asked for offers a negative amount. */
  ghost predicate Offers(steps: seq<Step>) {
    forall s :: s in steps && s.EnterStep? ==> s.offered >= 0
  }

  /** Moves known to a market's later state may follow moves known to its earlier one. */
  lemma KnownConcat(w: World, a: seq<Move>, v: World, b: seq<Move>)
    requires KnownMoves(w, a) && Paying(a) && SameShape(w, v) && KnownMoves(v, b) && Paying(b)
    ensures KnownMoves(w, a + b) && Paying(a + b)
  {
    forall k | 0 <= k < |a + b|
      ensures (a + b)[k].market < |w.markets|
      ensures (a + b)[k].Arrive? ==>
                (a + b)[k].outcome < |w.markets[(a + b)[k].market].books| && (a + b)[k].offered >= 0
    {
      if k >= |a| {
        assert (a + b)[k] == b[k - |a|];
        assert |Frames(w.markets)| == |Frames(v.markets)|;
        ShapeAt(w, v, b[k - |a|].market);
      }
    }
  }

  lemma MarketMovesKnown(w: World, i: nat)
    requires WellFormed(w) && i < |w.markets|
    ensures KnownMoves(w, MarketMoves(w, i)) && Paying(MarketMoves(w, i))
  {
  }

  lemma {:induction false} TickMoves(w: World, k: nat) returns (moves: seq<Move>)
    requires WellFormed(w) && k <= |w.markets|
    ensures KnownMoves(w, moves) && Paying(moves) && Leads(w, moves, TickFirst(w, k))
  {
    hide Moved, MarketMoves, WellFormed;
    if k == 0 {
      moves := [];
      LeadsNowhere(w);
    } else {
      var before := TickMoves(w, k - 1);
      var v := TickFirst(w, k - 1);
      var more := MarketMoves(v, k - 1);
      MarketMovesKnown(v, k - 1);
      KnownConcat(w, before, v, more);
      LeadsThrough(w, before, v, more, TickFirst(w, k));
      moves := before + more;
    }
  }

  lemma OneMove(w: World, v: Move)
    requires WellFormed(w) && v.market < |w.markets|
    ensures Leads(w, [v], MoveTo(w, v))
  {
    assert [v][..0] == [];
    assert Moved(w, [v][..0]) == w;
  }

  lemma {:induction false} SettleMoves(w: World, now: int, k: nat) returns (moves: seq<Move>)
    requires WellFormed(w) && k <= |w.markets|
    ensures KnownMoves(w, moves) && Paying(moves) && Leads(w, moves, SettleFirst(w, now, k))
  {
    if k == 0 {
      moves := [];
      LeadsNowhere(w);
    } else {
      var before := SettleMoves(w, now, k - 1);
      LeadsOn(w, before, SettleFirst(w, now, k - 1), Close(k - 1, now));
      moves := before + [Close(k - 1, now)];
    }
  }

  /** Settling the first k markets leaves the others alone. */
  lemma {:induction false} SettleUntouched(w: World, now: int, k: nat, j: nat)
    requires WellFormed(w) && k <= j < |w.markets|
    ensures SettleFirst(w, now, k).markets[j] == w.markets[j]
  {
    if k > 0 { SettleUntouched(w, now, k - 1, j); }
  }

  /** Every step but a claim is a list of moves. */
  lemma StepMoves(w: World, s: Step) returns (moves: seq<Move>)
    requires WellFormed(w) && !s.ClaimStep?
    ensures InRange(w, moves) && Apply(w, s) == Moved(w, moves)
    ensures KnownOutcomes(w, [s]) ==> KnownMoves(w, moves)
    ensures !s.EnterStep? || s.offered >= 0 ==> Paying(moves)
  {
    moves := [];
    match s
    case EnterStep(id, outcome, offered, owner) =>
      assert s in [s];
      var found := FindMarket(w.markets, id);
      if found.Some? {
        moves := [Arrive(found.value, outcome, offered, owner)];
        OneMove(w, moves[0]);
      }
    case TickStep => moves := TickMoves(w, |w.markets|);
    case SettleStep(now) => moves := SettleMoves(w, now, |w.markets|);
    case ClaimStep(number) =>
  }

  lemma KnownFrom(w0: World, w: World, steps: seq<Step>)
    requires SameShape(w0, w) && KnownOutcomes(w0, steps)
    ensures KnownOutcomes(w, steps)
  {
    forall s, i | s in steps && s.EnterStep? && 0 <= i < |w.markets| && w.markets[i].id == s.id
      ensures s.outcome < |w.markets[i].books|
    {
      ShapeAt(w, w0, i);
    }
  }

  lemma ApplyTracks(w0: World, w: World, s: Step)
    requires WellFormed(w0) && WellFormed(w) && Tracks(w0, w) && KnownOutcomes(w, [s])
    ensures Tracks(w0, Apply(w, s))
  {
    if s.ClaimStep? {
      QuietTracks(w0, w, MarkClaimed(w, s.number));
    } else {
      var moves := StepMoves(w, s);
      MovedTracks(w0, w, moves);
    }
  }

  /** Refinement, from any world the replay already describes. */
  lemma {:induction false} ContinuationTracks(w0: World, w: World, steps: seq<Step>)
    requires WellFormed(w0) && WellFormed(w) && Tracks(w0, w) && KnownOutcomes(w0, steps)
    ensures Tracks(w0, Run(w, steps))
  {
    if |steps| > 0 {
      var front, last := steps[..|steps| - 1], steps[|steps| - 1];
      ContinuationTracks(w0, w, front);
      LastKnown(w0, Run(w, front), steps);
      ApplyTracks(w0, Run(w, front), last);
    }
  }

  lemma LastKnown(w0: World, w: World, steps: seq<Step>)
    requires SameShape(w0, w) && KnownOutcomes(w0, steps) && |steps| > 0
    ensures KnownOutcomes(w, [steps[|steps| - 1]])
  {
    assert steps[|steps| - 1] in steps;
    KnownFrom(w0, w, [steps[|steps| - 1]]);
  }

  lemma OpeningTracks(w0: World)
    requires WellFormed(w0) && w0.positions == []
    ensures Tracks(w0, w0)
  {
    forall i | 0 <= i < |w0.markets| ensures w0.markets[i].books == ReplayBooks(w0.markets[i], []) {}
  }

  /** Refinement: in every run from an opening world the incremental books, the accepted
      amounts and the entry accumulators are the ones the replay computes. */
  lemma RunTracks(w0: World, steps: seq<Step>)
    requires WellFormed(w0) && w0.positions == [] && KnownOutcomes(w0, steps)
    ensures Tracks(w0, Run(w0, steps))
  {
    OpeningTracks(w0);
    ContinuationTracks(w0, w0, steps);
  }

  // ------------------------------------------------------------------ positions persist

  /** What stood in `ps` still stands at the front of `qs`, and what was claimed still is. */
  ghost predicate Extends(ps: seq<Position>, qs: seq<Position>) {
    && |ps| <= |qs| && SameStakes(ps, qs[..|ps|])
    && forall n :: 0 <= n < |ps| && ps[n].claimed ==> qs[n].claimed
  }

  lemma ExtendsTrans(ps: seq<Position>, qs: seq<Position>, rs: seq<Position>)
    requires Extends(ps, qs) && Extends(qs, rs)
    ensures Extends(ps, rs)
  {
    forall n | 0 <= n < |ps| ensures ps[n].(claimed := rs[n].claimed) == rs[n] {
      assert ps[n].(claimed := qs[..|ps|][n].claimed) == qs[..|ps|][n];
      assert qs[n].(claimed := rs[..|qs|][n].claimed) == rs[..|qs|][n];
    }
  }

  lemma {:induction false} MovedExtends(w: World, moves: seq<Move>)
    requires WellFormed(w) && InRange(w, moves)
    ensures Extends(w.positions, Moved(w, moves).positions)
  {
    if |moves| > 0 {
      MovedExtends(w, moves[..|moves| - 1]);
      ExtendsTrans(w.positions, Moved(w, moves[..|moves| - 1]).positions, Moved(w, moves).positions);
    }
  }

  /** No step takes a position away, or changes anything of it but that it is claimed. */
  lemma {:induction false} RunExtends(w: World, steps: seq<Step>)
    requires WellFormed(w)
    ensures Extends(w.positions, Run(w, steps).positions)
  {
    if |steps| > 0 {
      var front, last := steps[..|steps| - 1], steps[|steps| - 1];
      RunExtends(w, front);
      var v := Run(w, front);
      if !last.ClaimStep? {
        var moves := StepMoves(v, last);
        MovedExtends(v, moves);
      }
      ExtendsTrans(w.positions, v.positions, Apply(v, last).positions);
    }
  }
}
