/** Runs of the store under a clock that never goes back: it answers like one that is never
    swept, spends a nonce once while it lasts, and counts a window's calls exactly. */
module TierRuns {
  import opened Numbers
  import opened TierStorages

  ghost predicate InOrder(ops: seq<Op>) {
    forall i, j :: 0 <= i <= j < |ops| ==> ops[i].now <= ops[j].now
  }

  function After(batch: nat, ops: seq<Op>): Store {
    if ops == [] then EMPTY else Handle(After(batch, ops[..|ops| - 1]), batch, ops[|ops| - 1]).0
  }

  /** The answer to call i of a run. */
  function AnswerAt(batch: nat, ops: seq<Op>, i: nat): Answer
    requires i < |ops|
  {
    Handle(After(batch, ops[..i]), batch, ops[i]).1
  }

  // ------------------------------------------------------------------ a store that is never swept

  datatype Kept = Kept(nonces: map<string, nat>, counters: map<string, Counter>)

  function LiveNonce(r: Kept, k: string, now: nat): bool {
    k in r.nonces && r.nonces[k] > now
  }

  function LiveCounter(r: Kept, k: string, now: nat): Option<Counter> {
    if k in r.counters && r.counters[k].until > now then Some(r.counters[k]) else None
  }

  function KeptHandle(r: Kept, op: Op): (Kept, Answer) {
    match op
    case Consume(key, until, now) =>
      if LiveNonce(r, key, now) then (r, Replayed) else (r.(nonces := r.nonces[key := until]), Accepted)
    case Increment(key, until, now) =>
      var next := NextCount(LiveCounter(r, key, now));
      (r.(counters := r.counters[key := Counter(next, until)]), Used(next))
  }

  function KeptAfter(ops: seq<Op>): Kept {
    if ops == [] then Kept(map[], map[]) else KeptHandle(KeptAfter(ops[..|ops| - 1]), ops[|ops| - 1]).0
  }

  function KeptAnswerAt(ops: seq<Op>, i: nat): Answer
    requires i < |ops|
  {
    KeptHandle(KeptAfter(ops[..i]), ops[i]).1
  }

  ghost predicate SameAt(s: Store, r: Kept, k: string, now: nat) {
    && (Live(s.nonces, k, NONCE_END, now).Some? <==> LiveNonce(r, k, now))
    && Live(s.counters, k, COUNTER_END, now) == LiveCounter(r, k, now)
  }

  /** The two stores answer alike from now on. */
  ghost predicate Same(s: Store, r: Kept, now: nat) {
    Distinct(s.nonces) && Distinct(s.counters) && forall k, t: nat :: now <= t ==> SameAt(s, r, k, t)
  }

  lemma SweepSame(s: Store, r: Kept, batch: nat, now: nat)
    requires Same(s, r, now)
    ensures Same(Sweep(s, batch, now), r, now)
  {
    SweptKeys(s.nonces, batch, NONCE_END, now);
    SweptKeys(s.counters, batch, COUNTER_END, now);
    forall k, t: nat | now <= t ensures SameAt(Sweep(s, batch, now), r, k, t) {
      assert SameAt(s, r, k, t);
      SweptLive(s.nonces, batch, NONCE_END, now, k, t);
      SweptLive(s.counters, batch, COUNTER_END, now, k, t);
    }
  }

  lemma ConsumeSame(s: Store, r: Kept, key: string, until: nat, now: nat)
    requires Same(s, r, now)
    ensures ConsumeIn(s, key, until, now).1 == KeptHandle(r, Consume(key, until, now)).1
    ensures Same(ConsumeIn(s, key, until, now).0, KeptHandle(r, Consume(key, until, now)).0, now)
  {
    assert SameAt(s, r, key, now);
    if !LiveNonce(r, key, now) {
      var s', r' := s.(nonces := Put(s.nonces, key, until)), r.(nonces := r.nonces[key := until]);
      PutKeys(s.nonces, key, until);
      forall k, t: nat | now <= t ensures SameAt(s', r', k, t) {
        assert SameAt(s, r, k, t);
        LookupPut(s.nonces, key, until, k);
        assert NONCE_END(until) == until;
      }
    }
  }

  lemma IncrementSame(s: Store, r: Kept, key: string, until: nat, now: nat)
    requires Same(s, r, now)
    ensures IncrementIn(s, key, until, now).1 == KeptHandle(r, Increment(key, until, now)).1
    ensures Same(IncrementIn(s, key, until, now).0, KeptHandle(r, Increment(key, until, now)).0, now)
  {
    assert SameAt(s, r, key, now);
    var c := Counter(NextCount(LiveCounter(r, key, now)), until);
    var s', r' := s.(counters := Put(s.counters, key, c)), r.(counters := r.counters[key := c]);
    PutKeys(s.counters, key, c);
    forall k, t: nat | now <= t ensures SameAt(s', r', k, t) {
      assert SameAt(s, r, k, t);
      LookupPut(s.counters, key, c, k);
    }
  }

  lemma HandleSame(s: Store, r: Kept, batch: nat, op: Op)
    requires Same(s, r, op.now)
    ensures Handle(s, batch, op).1 == KeptHandle(r, op).1 && Same(Handle(s, batch, op).0, KeptHandle(r, op).0, op.now)
  {
    SweepSame(s, r, batch, op.now);
    match op
    case Consume(key, until, now) => ConsumeSame(Sweep(s, batch, now), r, key, until, now);
    case Increment(key, until, now) => IncrementSame(Sweep(s, batch, now), r, key, until, now);
  }

  lemma SameLater(s: Store, r: Kept, now: nat, later: nat)
    requires Same(s, r, now) && now <= later
    ensures Same(s, r, later)
  {
    forall k, t: nat | later <= t ensures SameAt(s, r, k, t) {}
  }

  lemma {:induction false} RunSame(batch: nat, ops: seq<Op>)
    requires InOrder(ops)
    ensures Same(After(batch, ops), KeptAfter(ops), if ops == [] then 0 else ops[|ops| - 1].now)
    decreases |ops|
  {
    if ops == [] {
      forall k, t: nat ensures SameAt(EMPTY, Kept(map[], map[]), k, t) {}
    } else {
      hide Same, Handle, KeptHandle;
      var front, op := ops[..|ops| - 1], ops[|ops| - 1];
      RunSame(batch, front);
      SameLater(After(batch, front), KeptAfter(front), if front == [] then 0 else front[|front| - 1].now, op.now);
      HandleSame(After(batch, front), KeptAfter(front), batch, op);
    }
  }

  /** Whatever the sweep batch, every call of every run is answered as by a store that keeps
      everything. */
  lemma AnswersLikeUnswept(batch: nat, ops: seq<Op>, i: nat)
    requires InOrder(ops) && i < |ops|
    ensures AnswerAt(batch, ops, i) == KeptAnswerAt(ops, i)
  {
    hide Same, Handle, KeptHandle;
    RunSame(batch, ops[..i]);
    SameLater(After(batch, ops[..i]), KeptAfter(ops[..i]), if i == 0 then 0 else ops[i - 1].now, ops[i].now);
    HandleSame(After(batch, ops[..i]), KeptAfter(ops[..i]), batch, ops[i]);
  }

  // ------------------------------------------------------------------ nonces

  /** Call j spent the nonce k, and it lasts beyond t. */
  ghost predicate SpentBeyond(batch: nat, ops: seq<Op>, j: nat, k: string, t: nat) {
    j < |ops| && ops[j].Consume? && ops[j].key == k && AnswerAt(batch, ops, j) == Accepted && ops[j].until > t
  }

  /** One of the first n calls spent k beyond t. */
  ghost predicate Spent(batch: nat, ops: seq<Op>, n: nat, k: string, t: nat) {
    exists j: nat :: j < n && SpentBeyond(batch, ops, j, k, t)
  }

  lemma SpentStep(batch: nat, ops: seq<Op>, n: nat, k: string, t: nat, earlier: nat)
    requires earlier <= t
    ensures Spent(batch, ops, n + 1, k, t) <==> Spent(batch, ops, n, k, t) || SpentBeyond(batch, ops, n, k, t)
    ensures Spent(batch, ops, n, k, t) ==> Spent(batch, ops, n, k, earlier)
  {
    if j: nat :| j < n && SpentBeyond(batch, ops, j, k, t) {
      assert j < n + 1 && SpentBeyond(batch, ops, j, k, t);
      assert SpentBeyond(batch, ops, j, k, earlier);
    }
  }

  lemma KeptStep(ops: seq<Op>, n: nat)
    requires n < |ops|
    ensures KeptAfter(ops[..n + 1]) == KeptHandle(KeptAfter(ops[..n]), ops[n]).0
  {
    assert ops[..n + 1][..n] == ops[..n];
  }

  /** What an unswept store remembers of a nonce is whether it was spent and still lasts. */
  lemma {:induction false} NonceHistory(batch: nat, ops: seq<Op>, n: nat, k: string, t: nat)
    requires InOrder(ops) && n <= |ops| && (n > 0 ==> ops[n - 1].now <= t)
    ensures LiveNonce(KeptAfter(ops[..n]), k, t) <==> Spent(batch, ops, n, k, t)
    decreases n
  {
    if n > 0 {
      var op := ops[n - 1];
      hide KeptAfter, Spent, AnswerAt, InOrder;
      InOrderAt(ops, n - 1);
      NonceHistory(batch, ops, n - 1, k, t);
      NonceHistory(batch, ops, n - 1, k, op.now);
      AnswersLikeUnswept(batch, ops, n - 1);
      SpentStep(batch, ops, n - 1, k, t, op.now);
      KeptStep(ops, n - 1);
    } else {
      assert ops[..0] == [];
    }
  }

  lemma InOrderAt(ops: seq<Op>, n: nat)
    requires InOrder(ops) && n < |ops|
    ensures n > 0 ==> ops[n - 1].now <= ops[n].now
  {
  }

  /** A nonce is refused exactly when an earlier call spent it and it has not lapsed. */
  lemma ReplayedExactly(batch: nat, ops: seq<Op>, i: nat)
    requires InOrder(ops) && i < |ops| && ops[i].Consume?
    ensures AnswerAt(batch, ops, i) == Replayed <==> Spent(batch, ops, i, ops[i].key, ops[i].now)
    ensures AnswerAt(batch, ops, i) == Accepted || AnswerAt(batch, ops, i) == Replayed
  {
    AnswersLikeUnswept(batch, ops, i);
    NonceHistory(batch, ops, i, ops[i].key, ops[i].now);
  }

  // ------------------------------------------------------------------ windows

  predicate Counts(op: Op, k: string) {
    op.Increment? && op.key == k
  }

  /** How many of the first n calls counted against k. */
  function CountOf(ops: seq<Op>, n: nat, k: string): nat
    requires n <= |ops|
  {
    if n == 0 then 0 else CountOf(ops, n - 1, k) + if Counts(ops[n - 1], k) then 1 else 0
  }

  /** Every call that counts against k names one end, and comes before it. */
  ghost predicate OneWindow(ops: seq<Op>, k: string, end: nat) {
    forall i :: 0 <= i < |ops| && Counts(ops[i], k) ==> ops[i].until == end && ops[i].now < end
  }

  lemma {:induction false} CounterHistory(ops: seq<Op>, n: nat, k: string, end: nat)
    requires n <= |ops| && OneWindow(ops, k, end)
    ensures var c := KeptAfter(ops[..n]).counters;
            if CountOf(ops, n, k) == 0 then k !in c else k in c && c[k] == Counter(CountOf(ops, n, k), end)
    decreases n
  {
    if n > 0 {
      CounterHistory(ops, n - 1, k, end);
      KeptStep(ops, n - 1);
      hide KeptAfter;
    } else {
      assert ops[..0] == [];
    }
  }

  /** A window's calls are counted exactly, one after another, despite any sweeping. */
  lemma CountedExactly(batch: nat, ops: seq<Op>, i: nat, end: nat)
    requires InOrder(ops) && i < |ops| && ops[i].Increment? && OneWindow(ops, ops[i].key, end)
    ensures AnswerAt(batch, ops, i) == Used(CountOf(ops, i, ops[i].key) + 1)
  {
    AnswersLikeUnswept(batch, ops, i);
    CounterHistory(ops, i, ops[i].key, end);
  }

  predicate Allowed(batch: nat, ops: seq<Op>, i: nat, limit: nat)
    requires i < |ops|
  {
    var a := AnswerAt(batch, ops, i);
    a.Used? && a.count <= limit
  }

  /** How many of the first n calls counted against k and were within the limit. */
  function AllowedOf(batch: nat, ops: seq<Op>, n: nat, k: string, limit: nat): nat
    requires n <= |ops|
  {
    if n == 0 then 0
    else
      AllowedOf(batch, ops, n - 1, k, limit)
      + if Counts(ops[n - 1], k) && Allowed(batch, ops, n - 1, limit) then 1 else 0
  }

  /** Of a window's calls the first `limit` are allowed and no other. */
  lemma {:induction false} AllowedExactly(batch: nat, ops: seq<Op>, n: nat, k: string, end: nat, limit: nat)
    requires InOrder(ops) && n <= |ops| && OneWindow(ops, k, end)
    ensures AllowedOf(batch, ops, n, k, limit) == if CountOf(ops, n, k) <= limit then CountOf(ops, n, k) else limit
    decreases n
  {
    if n > 0 {
      AllowedExactly(batch, ops, n - 1, k, end, limit);
      if Counts(ops[n - 1], k) { CountedExactly(batch, ops, n - 1, end); }
    }
  }
}
