/** What one entry writes down and moves, told without the functions that do it, and which positions
    a run has claimed. */
module Entries {
  import opened Numbers
  import opened VestedWorld
  import opened VestedReplay

  // ------------------------------------------------------------------ one entry

  /** The room a book leaves the other side: none if it is not bounded, else what of its capacity has
      not been vested, not below zero. */
  function RoomOf(b: Book): Option<int> {
    if b.capacity == UNBOUNDED then None
    else if b.capacity < b.vested then Some(0)
    else Some(b.capacity - b.vested)
  }

  /** a is the greatest amount within the offer and within the room of every other book. */
  ghost predicate Greatest(books: seq<Book>, outcome: nat, offered: int, a: int) {
    && Within(books, outcome, offered, a) && !Within(books, outcome, offered, a + 1)
  }

  ghost predicate Within(books: seq<Book>, outcome: nat, offered: int, x: int) {
    && x <= offered
    && forall k :: 0 <= k < |books| && k != outcome && RoomOf(books[k]).Some? ==> x <= RoomOf(books[k]).value
  }

  /** An opposing book after an entry of a: that much more is vested in it, and each unit of its
      principal has earned its part of it. */
  ghost predicate VestedBy(b: Book, b': Book, a: int)
    requires b.principal > 0
  {
    && b' == b.(acc := b'.acc, vested := b.vested + a)
    && Quotient(b'.acc - b.acc, a * SCALE, b.principal)
  }

  /** The entry's own book: its principal and, by kappa, its capacity grow by what was accepted, and
      it has one holder more, unless nothing was. */
  ghost predicate GrownBy(kappa: int, b: Book, b': Book, a: int) {
    if a <= 0 then b' == b
    else
      && b' == b.(principal := b.principal + a, capacity := b'.capacity, holders := b.holders + 1)
      && b'.capacity == if kappa == UNBOUNDED || b.capacity == UNBOUNDED then UNBOUNDED else b.capacity + kappa * a
  }

  ghost predicate NoSentinel(books: seq<Book>) {
    forall k :: 0 <= k < |books| && RoomOf(books[k]).Some? ==> RoomOf(books[k]).value != UNBOUNDED
  }

  lemma HeadroomIs(b: Book)
    requires RoomOf(b).Some? ==> RoomOf(b).value != UNBOUNDED
    ensures Limits(b) <==> RoomOf(b).Some?
    ensures RoomOf(b).Some? ==> Headroom(b) == RoomOf(b).value
  {
  }

  lemma AcceptsGreatest(books: seq<Book>, outcome: nat, offered: int, a: int)
    requires NoSentinel(books)
    ensures a == Acceptable(books, outcome, offered) <==> Greatest(books, outcome, offered, a)
  {
    hide Acceptable, Headroom, RoomOf;
    var accepted := Acceptable(books, outcome, offered);
    forall x: int ensures Within(books, outcome, offered, x) <==> x <= accepted {
      AcceptableIsGreatest(books, outcome, offered, x);
      forall k | 0 <= k < |books|
        ensures Opposes(books, k, outcome) <==> k != outcome && RoomOf(books[k]).Some?
        ensures RoomOf(books[k]).Some? ==> Headroom(books[k]) == RoomOf(books[k]).value
      {
        HeadroomIs(books[k]);
      }
    }
  }

  lemma VestIs(b: Book, a: int)
    requires b.principal > 0
    ensures VestedBy(b, Vest(b, a), a)
  {
    QuotientIs(Vest(b, a).acc - b.acc, a * SCALE, b.principal);
    if a == 0 { NoneOf(b.principal); }
  }

  lemma NoneOf(unit: int)
    requires unit > 0
    ensures TruncDiv(0 * SCALE, unit) == 0
  {
  }

  lemma GrowIs(kappa: int, b: Book, a: int)
    requires a > 0 && kappa != UNBOUNDED && b.capacity != UNBOUNDED ==> kappa * a != UNBOUNDED
    ensures GrownBy(kappa, b, Grow(kappa, b, a), a)
  {
  }

  /** An entry in a market on an outcome it has: the greatest amount that fits is accepted and the rest
      refused; the position says so, is numbered next, and remembers its own book's accumulator; that
      book grows, every other book of the market takes the vesting, and nothing else in the world
      changes. No amount counted reads as the sentinel. */
  lemma EntryRecords(w: World, i: nat, outcome: nat, offered: int, owner: string)
    requires WellFormed(w) && i < |w.markets| && outcome < |w.markets[i].books| && NoSentinel(w.markets[i].books)
    requires var m := w.markets[i];
             forall a :: Greatest(m.books, outcome, offered, a) && a > 0 && m.kappa != UNBOUNDED ==> m.kappa * a != UNBOUNDED
    ensures var m, (w', r) := w.markets[i], Enter(w, w.markets[i].id, outcome, offered, owner);
            && r.Entered? && |w'.markets| == |w.markets|
            && var p, m' := r.position, w'.markets[i];
               && Greatest(m.books, outcome, offered, p.accepted) && r.refused == offered - p.accepted
               && p == Position(m.id, owner, outcome, offered, p.accepted, m.books[outcome].acc, |w.positions| + 1, false)
               && w'.positions == w.positions + [p]
               && m' == m.(books := m'.books) && |m'.books| == |m.books|
               && GrownBy(m.kappa, m.books[outcome], m'.books[outcome], p.accepted)
               && (forall k :: 0 <= k < |m.books| && k != outcome ==> VestedBy(m.books[k], m'.books[k], p.accepted))
               && (forall j :: 0 <= j < |w.markets| && j != i ==> w'.markets[j] == w.markets[j])
  {
    hide Acceptable, Greatest, VestedBy, GrownBy, Vest, Grow, NoSentinel;
    var m := w.markets[i];
    FindSelf(w, i);
    var a := Acceptable(m.books, outcome, offered);
    AcceptsGreatest(m.books, outcome, offered, a);
    GrowIs(m.kappa, m.books[outcome], a);
    forall k | 0 <= k < |m.books| && k != outcome
        ensures VestedBy(m.books[k], Vest(m.books[k], a), a) { VestIs(m.books[k], a); }
  }

  // ------------------------------------------------------------------ over a run

  /** Positions are numbered from one, in the order they were taken. */
  ghost predicate Numbered(ps: seq<Position>) {
    forall n :: 0 <= n < |ps| ==> ps[n].vintage == n + 1
  }

  lemma EntryNumbers(w: World, v: Move)
    requires WellFormed(w) && v.market < |w.markets| && Numbered(w.positions)
    ensures Numbered(MoveTo(w, v).positions)
  {
  }

  lemma {:induction false} MovesNumber(w: World, moves: seq<Move>)
    requires WellFormed(w) && InRange(w, moves) && Numbered(w.positions)
    ensures Numbered(Moved(w, moves).positions)
  {
    hide MoveTo, WellFormed;
    if |moves| > 0 {
      MovesNumber(w, moves[..|moves| - 1]);
      EntryNumbers(Moved(w, moves[..|moves| - 1]), moves[|moves| - 1]);
    }
  }

  /** No vintage is shared: every position of a run is alone in its own, whatever became of the entries
      that failed. */
  lemma {:induction false} RunNumbers(w: World, steps: seq<Step>)
    requires WellFormed(w) && Numbered(w.positions)
    ensures Numbered(Run(w, steps).positions)
  {
    hide WellFormed, Apply;
    if |steps| > 0 {
      var front, last := steps[..|steps| - 1], steps[|steps| - 1];
      RunNumbers(w, front);
      StepNumbers(Run(w, front), last);
    }
  }

  lemma StepNumbers(w: World, s: Step)
    requires WellFormed(w) && Numbered(w.positions)
    ensures Numbered(Apply(w, s).positions)
  {
    if !s.ClaimStep? {
      var moves := StepMoves(w, s);
      MovesNumber(w, moves);
    }
  }

  /** Step j of the run claimed position number n + 1, which was there. */
  ghost predicate ClaimedAt(w: World, steps: seq<Step>, j: nat, n: nat)
    requires WellFormed(w) && j < |steps|
  {
    steps[j] == ClaimStep(n + 1) && n < |Run(w, steps[..j]).positions|
  }

  lemma ClaimedStep(w: World, s: Step, n: nat)
    requires WellFormed(w) && n < |Apply(w, s).positions|
    ensures Apply(w, s).positions[n].claimed <==>
            n < |w.positions| && (w.positions[n].claimed || s == ClaimStep(n + 1))
  {
    hide WellFormed;
    if !s.ClaimStep? {
      var moves := StepMoves(w, s);
      MovesLeave(w, moves, n);
    }
  }

  lemma {:induction false} MovesLeave(w: World, moves: seq<Move>, n: nat)
    requires WellFormed(w) && InRange(w, moves) && n < |Moved(w, moves).positions|
    ensures Moved(w, moves).positions[n].claimed <==> n < |w.positions| && w.positions[n].claimed
  {
    hide WellFormed;
    if |moves| > 0 {
      var front := moves[..|moves| - 1];
      MoveLeaves(Moved(w, front), moves[|moves| - 1], n);
      if n < |Moved(w, front).positions| { MovesLeave(w, front, n); } else { MovedExtends(w, front); }
    }
  }

  lemma MoveLeaves(w: World, v: Move, n: nat)
    requires WellFormed(w) && v.market < |w.markets| && n < |MoveTo(w, v).positions|
    ensures MoveTo(w, v).positions[n].claimed <==> n < |w.positions| && w.positions[n].claimed
  {
    hide WellFormed;
  }

  /** A position is claimed if and only if some step of the run claimed it once it was there. */
  lemma {:induction false} ClaimedIff(w: World, steps: seq<Step>, n: nat)
    requires WellFormed(w) && w.positions == [] && n < |Run(w, steps).positions|
    ensures Run(w, steps).positions[n].claimed <==> exists j :: 0 <= j < |steps| && ClaimedAt(w, steps, j, n)
    decreases |steps|
  {
    hide WellFormed, Apply;
    if |steps| > 0 {
      var front, last := steps[..|steps| - 1], steps[|steps| - 1];
      ClaimedStep(Run(w, front), last, n);
      if n < |Run(w, front).positions| { ClaimedIff(w, front, n); }
      forall j | 0 <= j < |front| ensures ClaimedAt(w, steps, j, n) <==> ClaimedAt(w, front, j, n) {
        assert steps[..j] == front[..j];
      }
      forall j | 0 <= j < |front| && ClaimedAt(w, front, j, n) ensures n < |Run(w, front).positions| {
        EarlierThere(w, front, j, n);
      }
      assert ClaimedAt(w, steps, |front|, n) <==> last == ClaimStep(n + 1) && n < |Run(w, front).positions|;
    }
  }

  /** What is there stays there. */
  lemma {:induction false} EarlierThere(w: World, steps: seq<Step>, j: nat, n: nat)
    requires WellFormed(w) && j <= |steps| && n < |Run(w, steps[..j]).positions|
    ensures n < |Run(w, steps).positions|
    decreases |steps|
  {
    hide WellFormed, Apply;
    if j == |steps| {
      assert steps[..j] == steps;
    } else {
      var front, last := steps[..|steps| - 1], steps[|steps| - 1];
      assert steps[..j] == front[..j];
      EarlierThere(w, front, j, n);
      OneStepExtends(Run(w, front), last);
    }
  }

  lemma OneStepExtends(w: World, s: Step)
    requires WellFormed(w)
    ensures |w.positions| <= |Apply(w, s).positions|
  {
    if !s.ClaimStep? {
      var moves := StepMoves(w, s);
      MovedExtends(w, moves);
    }
  }
}
