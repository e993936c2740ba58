/** What every reachable state keeps about its books: capacity is kappa times principal,
    nothing vests beyond capacity, vested stake is the other books' growth, and the pool is
    what the market opened with plus what it accepted. */
module ReachableBooks {
  import opened Numbers
  import opened VestedWorld
  import opened VestedReplay
  import opened Solvency

  /** A book with finite kappa, as loaded without a capacity override and as kept since. */
  ghost predicate Matched(kappa: int, b: Book) {
    b.principal > 0 && b.capacity == kappa * b.principal && 0 <= b.vested <= b.capacity
  }

  ghost predicate Bounded(kappa: int, books: seq<Book>) {
    kappa != UNBOUNDED && kappa >= 0 && forall o :: 0 <= o < |books| ==> Matched(kappa, books[o])
  }

  ghost predicate Unbounded(kappa: int, books: seq<Book>) {
    kappa == UNBOUNDED && forall o :: 0 <= o < |books| ==> books[o].capacity == UNBOUNDED
  }

  /** kappa times the principal is still a number and not the sentinel. */
  ghost predicate BelowSentinel(kappa: int, b: Book) {
    kappa * b.principal < UNBOUNDED
  }

  ghost predicate AllBelowSentinel(kappa: int, books: seq<Book>) {
    forall o :: 0 <= o < |books| ==> BelowSentinel(kappa, books[o])
  }

  // ------------------------------------------------------------------ capacity

  /** An entry that fits below the sentinel leaves its own book matched. */
  lemma GrowMatched(kappa: int, b: Book, a: int)
    requires kappa >= 0 && kappa != UNBOUNDED && Matched(kappa, b) && a >= 0 && BelowSentinel(kappa, Grow(kappa, b, a))
    ensures Matched(kappa, Grow(kappa, b, a))
  {
    if a > 0 {
      assert kappa * (b.principal + a) == kappa * b.principal + kappa * a;
      MulMono(0, a, kappa);
      MulMono(0, b.principal, kappa);
    }
  }

  lemma VestMatched(kappa: int, b: Book, a: int)
    requires Matched(kappa, b) && BelowSentinel(kappa, b) && a >= 0 && (Limits(b) ==> a <= Headroom(b))
    ensures Matched(kappa, Vest(b, a))
  {
  }

  /** An earlier state of a book that is below the sentinel is below it too. */
  lemma {:induction false} EarlierBelow(kappa: int, b: Book, ps: seq<Position>, id: string, o: nat, n: nat)
    requires b.principal > 0 && kappa >= 0 && n <= |ps|
    requires BelowSentinel(kappa, Replay(kappa, b, ps, id, o))
    ensures BelowSentinel(kappa, Replay(kappa, b, ps[..n], id, o))
    decreases |ps|
  {
    if n == |ps| {
      assert ps[..n] == ps;
    } else {
      var front := ps[..|ps| - 1];
      var r, q := Replay(kappa, b, ps, id, o), Replay(kappa, b, front, id, o);
      assert q.principal <= r.principal;
      MulMono(q.principal, r.principal, kappa);
      EarlierBelow(kappa, b, front, id, o, n);
      assert front[..n] == ps[..n];
    }
  }

  lemma AllEarlierBelow(m0: Market, ps: seq<Position>, n: nat)
    requires Funded(m0.books) && m0.kappa >= 0 && n <= |ps| && AllBelowSentinel(m0.kappa, ReplayBooks(m0, ps))
    ensures AllBelowSentinel(m0.kappa, ReplayBooks(m0, ps[..n]))
  {
    forall o | 0 <= o < |m0.books| ensures BelowSentinel(m0.kappa, ReplayBooks(m0, ps[..n])[o]) {
      assert BelowSentinel(m0.kappa, ReplayBooks(m0, ps)[o]);
      EarlierBelow(m0.kappa, m0.books[o], ps, m0.id, o, n);
    }
  }

  /** One accepted entry keeps every book of a bounded market matched. */
  lemma EnterMatched(kappa: int, books: seq<Book>, outcome: nat, offered: int)
    requires Funded(books) && Bounded(kappa, books) && AllBelowSentinel(kappa, books) && offered >= 0 && outcome < |books|
    requires AllBelowSentinel(kappa, EnterBooks(kappa, books, outcome, Acceptable(books, outcome, offered)))
    ensures Bounded(kappa, EnterBooks(kappa, books, outcome, Acceptable(books, outcome, offered)))
  {
    var a := Acceptable(books, outcome, offered);
    var after := EnterBooks(kappa, books, outcome, a);
    AcceptableIsGreatest(books, outcome, offered, a);
    forall o | 0 <= o < |books| ensures Matched(kappa, after[o]) {
      assert Limits(books[o]) && o != outcome ==> Opposes(books, o, outcome);
      assert BelowSentinel(kappa, books[o]) && BelowSentinel(kappa, after[o]);
      if o == outcome { GrowMatched(kappa, books[o], a); } else { VestMatched(kappa, books[o], a); }
    }
  }

  lemma {:induction false} ReplayMatched(m0: Market, ps: seq<Position>)
    requires Funded(m0.books) && Faithful(m0, ps) && NonNegative(ps) && Bounded(m0.kappa, m0.books)
    requires AllBelowSentinel(m0.kappa, ReplayBooks(m0, ps))
    ensures Bounded(m0.kappa, ReplayBooks(m0, ps))
  {
    if |ps| == 0 {
      assert ReplayBooks(m0, ps) == m0.books;
    } else {
      var front, p := ps[..|ps| - 1], ps[|ps| - 1];
      assert ps == front + [p];
      FaithfulFront(m0, ps, |ps| - 1);
      AllEarlierBelow(m0, ps, |ps| - 1);
      ReplayMatched(m0, front);
      ReplayBooksSnoc(m0, front, p);
      if p.marketId == m0.id {
        assert Genuine(m0, ps, |front|);
        EnterMatched(m0.kappa, ReplayBooks(m0, front), p.outcome, p.offered);
      }
    }
  }

  lemma {:induction false} ReplayUnbounded(kappa: int, b: Book, ps: seq<Position>, id: string, o: nat)
    requires b.principal > 0 && b.capacity == UNBOUNDED
    ensures Replay(kappa, b, ps, id, o).capacity == UNBOUNDED
  {
    if |ps| > 0 { ReplayUnbounded(kappa, b, ps[..|ps| - 1], id, o); }
  }

  // ------------------------------------------------------------------ the pool

  lemma PoolUpdate(books: seq<Book>, o: nat, b: Book)
    requires o < |books|
    ensures Pool(books[o := b]) == Pool(books) - books[o].principal + b.principal
  {
    var last := |books| - 1;
    if o == last {
      assert books[o := b][..last] == books[..last];
    } else {
      assert books[o := b][..last] == books[..last][o := b];
      PoolUpdate(books[..last], o, b);
    }
  }

  lemma PoolOfVested(books: seq<Book>, o: nat, a: int)
    requires Funded(books)
    ensures Pool(VestAll(books, o, a)) == Pool(books)
  {
    PoolByPrincipal(books, VestAll(books, o, a));
  }

  lemma {:induction false} PoolByPrincipal(books: seq<Book>, others: seq<Book>)
    requires |books| == |others| && forall o :: 0 <= o < |books| ==> books[o].principal == others[o].principal
    ensures Pool(books) == Pool(others)
  {
    if |books| > 0 { PoolByPrincipal(books[..|books| - 1], others[..|books| - 1]); }
  }

  lemma {:induction false} ReplayPool(m0: Market, ps: seq<Position>)
    requires Funded(m0.books) && Faithful(m0, ps) && NonNegative(ps)
    ensures Pool(ReplayBooks(m0, ps)) == Pool(m0.books) + Accepted(ps, m0.id)
  {
    if |ps| == 0 {
      assert ReplayBooks(m0, ps) == m0.books;
    } else {
      var front, p := ps[..|ps| - 1], ps[|ps| - 1];
      assert ps == front + [p];
      FaithfulFront(m0, ps, |ps| - 1);
      ReplayPool(m0, front);
      ReplayBooksSnoc(m0, front, p);
      if p.marketId == m0.id {
        assert Genuine(m0, ps, |front|);
        var vested := VestAll(ReplayBooks(m0, front), p.outcome, p.accepted);
        PoolOfVested(ReplayBooks(m0, front), p.outcome, p.accepted);
        PoolUpdate(vested, p.outcome, Grow(m0.kappa, vested[p.outcome], p.accepted));
      }
    }
  }

  // ------------------------------------------------------------------ every reachable state

  /** Every reachable market conserves its pool, and what has vested into each book since
      opening is what the other books have grown by. */
  lemma RunConservesPool(w0: World, steps: seq<Step>, i: nat)
    requires WellFormed(w0) && w0.positions == [] && i < |w0.markets|
    requires KnownOutcomes(w0, steps) && Offers(steps)
    ensures var m0, m := w0.markets[i], Run(w0, steps).markets[i];
            && |m.books| == |m0.books| && Funded(m.books)
            && Pool(m.books) == Pool(m0.books) + Accepted(Run(w0, steps).positions, m.id)
            && forall o :: 0 <= o < |m.books| ==>
                 m.books[o].vested - m0.books[o].vested ==
                 (Pool(m.books) - m.books[o].principal) - (Pool(m0.books) - m0.books[o].principal)
  {
    var w := Run(w0, steps);
    var m0 := w0.markets[i];
    RunTracks(w0, steps);
    RunNonNegative(w0, steps);
    ShapeAt(w0, w, i);
    ReplayPool(m0, w.positions);
    forall o | 0 <= o < |m0.books|
      ensures w.markets[i].books[o].vested - m0.books[o].vested ==
              (Pool(w.markets[i].books) - w.markets[i].books[o].principal) - (Pool(m0.books) - m0.books[o].principal)
    {
      ReplayTotals(m0.kappa, m0.books[o], w.positions, m0.id, o);
      StakeAndInflow(w.positions, m0.id, o);
    }
  }

  lemma {:induction false} ReplayHolders(kappa: int, b: Book, ps: seq<Position>, id: string, o: nat)
    requires b.principal > 0
    ensures Replay(kappa, b, ps, id, o).holders == b.holders + Winners(ps, id, o)
  {
    if |ps| > 0 { ReplayHolders(kappa, b, ps[..|ps| - 1], id, o); }
  }

  /** A book's holders are those it opened with and one for each position on it that was accepted for
      more than nothing; a wallet with two positions counts twice. */
  lemma RunCountsHolders(w0: World, steps: seq<Step>, i: nat, o: nat)
    requires WellFormed(w0) && w0.positions == [] && i < |w0.markets| && o < |w0.markets[i].books|
    requires KnownOutcomes(w0, steps)
    ensures var m0, w := w0.markets[i], Run(w0, steps);
            && i < |w.markets| && o < |w.markets[i].books|
            && w.markets[i].books[o].holders == m0.books[o].holders + Winners(w.positions, m0.id, o)
  {
    RunTracks(w0, steps);
    ReplayHolders(w0.markets[i].kappa, w0.markets[i].books[o], Run(w0, steps).positions, w0.markets[i].id, o);
  }

  /** Every reachable book of a bounded market that stays below the sentinel has capacity
      kappa times its principal and no more vested than that; an unbounded market stays so. */
  lemma RunMatchesCapacity(w0: World, steps: seq<Step>, i: nat)
    requires WellFormed(w0) && w0.positions == [] && i < |w0.markets|
    requires KnownOutcomes(w0, steps) && Offers(steps)
    ensures var m0, m := w0.markets[i], Run(w0, steps).markets[i];
            && (Bounded(m0.kappa, m0.books) && AllBelowSentinel(m.kappa, m.books) ==> Bounded(m.kappa, m.books))
            && (Unbounded(m0.kappa, m0.books) ==> Unbounded(m.kappa, m.books))
  {
    var w := Run(w0, steps);
    var m0, m := w0.markets[i], w.markets[i];
    RunTracks(w0, steps);
    RunNonNegative(w0, steps);
    ShapeAt(w0, w, i);
    if Bounded(m0.kappa, m0.books) && AllBelowSentinel(m.kappa, m.books) { ReplayMatched(m0, w.positions); }
    if Unbounded(m0.kappa, m0.books) {
      forall o | 0 <= o < |m.books| ensures m.books[o].capacity == UNBOUNDED {
        ReplayUnbounded(m0.kappa, m0.books[o], w.positions, m0.id, o);
      }
    }
  }

  // ------------------------------------------------------------------ any loaded capacity

  /** While its capacity is a number below the sentinel, no more has vested than that. */
  ghost predicate Within(b: Book) {
    b.capacity < UNBOUNDED ==> 0 <= b.vested <= b.capacity
  }

  ghost predicate AllWithin(books: seq<Book>) {
    forall o :: 0 <= o < |books| ==> Within(books[o])
  }

  lemma GrowWithin(kappa: int, b: Book, a: int)
    requires kappa >= 0 && Within(b)
    ensures Within(Grow(kappa, b, a))
  {
    if a > 0 { MulMono(0, a, kappa); }
  }

  lemma VestWithin(books: seq<Book>, outcome: nat, offered: int, o: nat)
    requires Funded(books) && o < |books| && o != outcome && Within(books[o]) && offered >= 0
    ensures Within(Vest(books[o], Acceptable(books, outcome, offered)))
  {
    var a := Acceptable(books, outcome, offered);
    AcceptableIsGreatest(books, outcome, offered, a);
    if books[o].capacity < UNBOUNDED { assert Opposes(books, o, outcome); }
  }

  lemma EntryWithin(kappa: int, books: seq<Book>, outcome: nat, offered: int)
    requires Funded(books) && kappa >= 0 && AllWithin(books) && offered >= 0
    ensures AllWithin(EnterBooks(kappa, books, outcome, Acceptable(books, outcome, offered)))
  {
    var after := EnterBooks(kappa, books, outcome, Acceptable(books, outcome, offered));
    forall o | 0 <= o < |books| ensures Within(after[o]) {
      if o == outcome {
        GrowWithin(kappa, books[o], Acceptable(books, outcome, offered));
      } else {
        VestWithin(books, outcome, offered, o);
      }
    }
  }

  lemma {:induction false} MovedWithin(w: World, moves: seq<Move>, i: nat)
    requires WellFormed(w) && InRange(w, moves) && Paying(moves) && i < |w.markets|
    requires w.markets[i].kappa >= 0 && AllWithin(w.markets[i].books)
    ensures AllWithin(Moved(w, moves).markets[i].books)
  {
    if |moves| > 0 {
      var front, last := moves[..|moves| - 1], moves[|moves| - 1];
      var v := Moved(w, front);
      MovedWithin(w, front, i);
      ShapeAt(w, v, i);
      if last.Arrive? && last.market == i {
        EntryWithin(v.markets[i].kappa, v.markets[i].books, last.outcome, last.offered);
      }
    }
  }

  /** Whatever capacities a market was loaded with, a run of offers of zero or more, on whatever
      outcomes, vests no more into a book than its capacity while that is below the sentinel. */
  lemma {:induction false} RunStaysWithin(w: World, steps: seq<Step>, i: nat)
    requires WellFormed(w) && i < |w.markets| && Offers(steps)
    requires w.markets[i].kappa >= 0 && AllWithin(w.markets[i].books)
    ensures i < |Run(w, steps).markets| && AllWithin(Run(w, steps).markets[i].books)
  {
    if |steps| > 0 {
      var front, last := steps[..|steps| - 1], steps[|steps| - 1];
      assert last in steps;
      RunStaysWithin(w, front, i);
      ShapeAt(w, Run(w, front), i);
      if !last.ClaimStep? {
        var moves := StepMoves(Run(w, front), last);
        MovedWithin(Run(w, front), moves, i);
      }
    }
  }

  // ------------------------------------------------------------------ exact conditions

  /** One entry keeps "what vested into a book is what the others grew by" exactly when its
      outcome has a book and takes nothing back from another, or nothing was accepted, or there
      is no book to keep it for. */
  lemma EntryConservesIff(kappa: int, books: seq<Book>, outcome: nat, offered: int)
    requires Funded(books)
    ensures var a := Acceptable(books, outcome, offered);
            var after := EnterBooks(kappa, books, outcome, a);
            (forall o :: 0 <= o < |books| ==>
               after[o].vested - books[o].vested ==
               (Pool(after) - after[o].principal) - (Pool(books) - books[o].principal))
            <==> (outcome < |books| && (offered >= 0 || |books| == 1)) || a == 0 || |books| == 0
  {
    var a := Acceptable(books, outcome, offered);
    var vested := VestAll(books, outcome, a);
    PoolOfVested(books, outcome, a);
    if outcome < |books| {
      PoolUpdate(vested, outcome, Grow(kappa, vested[outcome], a));
      if a < 0 && |books| > 1 {
        var other := if outcome == 0 then 1 else 0;
        assert vested[other].vested == books[other].vested + a;
      }
    } else if |books| > 0 && a != 0 {
      assert vested[0].vested == books[0].vested + a;
    }
  }

  /** One entry on a matched book keeps its capacity at kappa times its principal exactly
      when nothing is accepted, or kappa is zero, or neither the standing capacity nor the
      added one reads as the sentinel. */
  lemma CapacityKeptIff(kappa: int, b: Book, a: int)
    requires kappa >= 0 && kappa != UNBOUNDED && Matched(kappa, b) && a >= 0
    ensures Grow(kappa, b, a).capacity == kappa * Grow(kappa, b, a).principal
            <==> a == 0 || kappa == 0 || (b.capacity != UNBOUNDED && kappa * a != UNBOUNDED)
  {
    assert kappa * (b.principal + a) == kappa * b.principal + kappa * a;
    if a > 0 && kappa > 0 {
      MulMono(1, a, kappa);
      MulMono(1, b.principal, kappa);
    }
  }
}
