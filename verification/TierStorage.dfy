/** The nonce set and the window counters: insertion-ordered maps, swept lazily, a batch of
    entries at every call. */
module TierStorages {
  import opened Numbers

  // ------------------------------------------------------------------ an ordered map

  /** A map in insertion order; setting a key that is there keeps its place. */
  type Slots<V> = seq<(string, V)>

  function Lookup<V>(s: Slots<V>, k: string): Option<V> {
    if s == [] then None else if s[0].0 == k then Some(s[0].1) else Lookup(s[1..], k)
  }

  function Put<V>(s: Slots<V>, k: string, v: V): Slots<V> {
    if s == [] then [(k, v)] else if s[0].0 == k then [(k, v)] + s[1..] else [s[0]] + Put(s[1..], k, v)
  }

  /** The first n entries gone over, and those whose time is up deleted. */
  function Swept<V>(s: Slots<V>, n: nat, until: V -> nat, now: nat): Slots<V> {
    if n == 0 || s == [] then s
    else if until(s[0].1) <= now then Swept(s[1..], n - 1, until, now)
    else [s[0]] + Swept(s[1..], n - 1, until, now)
  }

  ghost predicate Distinct<V>(s: Slots<V>) {
    forall i, j :: 0 <= i < j < |s| ==> s[i].0 != s[j].0
  }

  /** What a key still answers at a time: nothing once its entry is up. */
  function Live<V>(s: Slots<V>, k: string, until: V -> nat, now: nat): Option<V> {
    match Lookup(s, k)
    case None => None
    case Some(v) => if until(v) > now then Some(v) else None
  }

  lemma {:induction false} LookupHas<V>(s: Slots<V>, k: string)
    ensures Lookup(s, k).Some? <==> exists i :: 0 <= i < |s| && s[i].0 == k
    decreases |s|
  {
    if s != [] {
      LookupHas(s[1..], k);
      if exists i :: 0 <= i < |s| && s[i].0 == k {
        var i :| 0 <= i < |s| && s[i].0 == k;
        assert i > 0 ==> s[1..][i - 1].0 == k;
      }
      if s[0].0 != k && exists i :: 0 <= i < |s[1..]| && s[1..][i].0 == k {
        var i :| 0 <= i < |s[1..]| && s[1..][i].0 == k;
        assert s[i + 1].0 == k;
      }
    }
  }

  lemma {:induction false} LookupPut<V>(s: Slots<V>, k: string, v: V, j: string)
    ensures Lookup(Put(s, k, v), j) == if j == k then Some(v) else Lookup(s, j)
    decreases |s|
  {
    if s != [] && s[0].0 != k { LookupPut(s[1..], k, v, j); }
  }

  lemma {:induction false} PutKeys<V>(s: Slots<V>, k: string, v: V)
    requires Distinct(s)
    ensures Distinct(Put(s, k, v))
    ensures forall i :: 0 <= i < |Put(s, k, v)| ==> Put(s, k, v)[i].0 == k || (i < |s| && Put(s, k, v)[i].0 == s[i].0)
    decreases |s|
  {
    if s != [] && s[0].0 != k { PutKeys(s[1..], k, v); }
  }

  lemma {:induction false} SweptKeys<V>(s: Slots<V>, n: nat, until: V -> nat, now: nat)
    requires Distinct(s)
    ensures Distinct(Swept(s, n, until, now))
    ensures forall e :: e in Swept(s, n, until, now) ==> e in s
    decreases |s|
  {
    if n > 0 && s != [] {
      SweptKeys(s[1..], n - 1, until, now);
      var rest := Swept(s[1..], n - 1, until, now);
      forall i | 0 <= i < |rest| ensures rest[i].0 != s[0].0 {
        assert rest[i] in s[1..];
        var j :| 0 <= j < |s[1..]| && s[1..][j] == rest[i];
        assert s[j + 1] == rest[i];
      }
    }
  }

  /** The places in s, in order, of the entries of r. */
  ghost predicate Places<V(!new)>(s: Slots<V>, r: Slots<V>, at: seq<nat>) {
    && |at| == |r| && (forall k :: 0 <= k < |at| ==> at[k] < |s| && r[k] == s[at[k]])
    && (forall j, k :: 0 <= j < k < |at| ==> at[j] < at[k])
  }

  /** The places beyond the first n, and of the first n those of entries whose time is not up. */
  ghost predicate Stays<V(!new)>(s: Slots<V>, n: nat, until: V -> nat, now: nat, at: seq<nat>) {
    forall i :: i in at <==> 0 <= i < |s| && (i >= n || until(s[i].1) > now)
  }

  lemma PlacesAll<V(!new)>(s: Slots<V>, n: nat, until: V -> nat, now: nat) returns (at: seq<nat>)
    requires n == 0 || s == []
    ensures Places(s, s, at) && Stays(s, n, until, now, at)
  {
    at := seq(|s|, i requires 0 <= i < |s| => i);
    assert forall i :: 0 <= i < |s| ==> at[i] == i && i in at;
  }

  lemma PlacesOn<V(!new)>(s: Slots<V>, r: Slots<V>, at: seq<nat>, later: seq<nat>)
    requires s != [] && Places(s[1..], r, at)
    requires |later| == |at| && forall k :: 0 <= k < |at| ==> later[k] == at[k] + 1
    ensures Places(s, r, later) && Places(s, [s[0]] + r, [0] + later)
  {
    forall k | 0 <= k < |later| ensures later[k] < |s| && r[k] == s[later[k]] {
      assert at[k] < |s[1..]| && s[1..][at[k]] == s[later[k]];
    }
    var on, kept := [0] + later, [s[0]] + r;
    forall k | 0 <= k < |on| ensures on[k] < |s| && kept[k] == s[on[k]] && (k > 0 ==> on[k] == later[k - 1]) {
      if k > 0 { assert on[k] == later[k - 1] && kept[k] == r[k - 1]; }
    }
    forall j, k | 0 <= j < k < |on| ensures on[j] < on[k] {
      if j > 0 { assert on[j] == later[j - 1] && at[j - 1] < at[k - 1]; }
    }
  }

  lemma StaysOn<V(!new)>(s: Slots<V>, n: nat, until: V -> nat, now: nat, at: seq<nat>, later: seq<nat>)
    requires s != [] && n > 0 && Stays(s[1..], n - 1, until, now, at)
    requires forall i :: i in later <==> i >= 1 && i - 1 in at
    ensures Stays(s, n, until, now, if until(s[0].1) <= now then later else [0] + later)
  {
    forall i ensures i in later <==> 1 <= i < |s| && (i >= n || until(s[i].1) > now) {
      if 1 <= i < |s| { assert s[1..][i - 1] == s[i]; }
    }
    if until(s[0].1) > now {
      var on := [0] + later;
      forall i ensures i in on <==> i == 0 || i in later {}
    }
  }

  /** What a sweep leaves: nothing whose time is up stays among the first n entries, everything else
      stays, in its order. */
  lemma {:induction false} SweptExactly<V(!new)>(s: Slots<V>, n: nat, until: V -> nat, now: nat) returns (at: seq<nat>)
    ensures Places(s, Swept(s, n, until, now), at) && Stays(s, n, until, now, at)
    decreases |s|
  {
    hide Places, Stays;
    if n == 0 || s == [] {
      at := PlacesAll(s, n, until, now);
    } else {
      var rest := SweptExactly(s[1..], n - 1, until, now);
      var later := seq(|rest|, k requires 0 <= k < |rest| => rest[k] + 1);
      ShiftedIn(rest, later);
      PlacesOn(s, Swept(s[1..], n - 1, until, now), rest, later);
      StaysOn(s, n, until, now, rest, later);
      at := if until(s[0].1) <= now then later else [0] + later;
    }
  }

  lemma ShiftedIn(rest: seq<nat>, later: seq<nat>)
    requires |later| == |rest| && forall k :: 0 <= k < |rest| ==> later[k] == rest[k] + 1
    ensures forall i :: i in later <==> i >= 1 && i - 1 in rest
  {
    forall i | i in later ensures i >= 1 && i - 1 in rest {
      var k :| 0 <= k < |later| && later[k] == i;
      assert rest[k] == i - 1;
    }
    forall i: int | i >= 1 && i - 1 in rest ensures i in later {
      var k :| 0 <= k < |rest| && rest[k] == i - 1;
      assert later[k] == i;
    }
  }

  /** Sweeping, whatever the batch and the order of entries, never changes what a key answers
      from then on. */
  lemma {:induction false} SweptLive<V>(s: Slots<V>, n: nat, until: V -> nat, now: nat, k: string, later: nat)
    requires Distinct(s) && now <= later
    ensures Live(Swept(s, n, until, now), k, until, later) == Live(s, k, until, later)
    decreases |s|
  {
    if n > 0 && s != [] {
      SweptLive(s[1..], n - 1, until, now, k, later);
      if s[0].0 == k {
        LookupHas(s[1..], k);
        LookupHas(Swept(s[1..], n - 1, until, now), k);
        SweptKeys(s[1..], n - 1, until, now);
        assert Lookup(s[1..], k) == None;
      }
    }
  }

  // ------------------------------------------------------------------ the store

  datatype Counter = Counter(value: nat, until: nat)

  const NONCE_END: nat -> nat := (t: nat) => t
  const COUNTER_END: Counter -> nat := (c: Counter) => c.until

  datatype Store = Store(nonces: Slots<nat>, counters: Slots<Counter>)

  const EMPTY := Store([], [])

  /** A call at a clock reading: spend a nonce, or count a request. */
  datatype Op = Consume(key: string, until: nat, now: nat) | Increment(key: string, until: nat, now: nat)

  datatype Answer = Accepted | Replayed | Used(count: nat)

  function Sweep(s: Store, batch: nat, now: nat): Store {
    Store(Swept(s.nonces, batch, NONCE_END, now), Swept(s.counters, batch, COUNTER_END, now))
  }

  function ConsumeIn(s: Store, key: string, until: nat, now: nat): (Store, Answer) {
    if Live(s.nonces, key, NONCE_END, now).Some? then (s, Replayed) else (s.(nonces := Put(s.nonces, key, until)), Accepted)
  }

  function NextCount(c: Option<Counter>): nat {
    match c case Some(c) => c.value + 1 case None => 1
  }

  function IncrementIn(s: Store, key: string, until: nat, now: nat): (Store, Answer) {
    var next := NextCount(Live(s.counters, key, COUNTER_END, now));
    (s.(counters := Put(s.counters, key, Counter(next, until))), Used(next))
  }

  function Handle(s: Store, batch: nat, op: Op): (Store, Answer) {
    match op
    case Consume(key, until, now) => ConsumeIn(Sweep(s, batch, now), key, until, now)
    case Increment(key, until, now) => IncrementIn(Sweep(s, batch, now), key, until, now)
  }

  // ------------------------------------------------------------------ the same in place

  class InMemoryTierStorage {
    var nonces: Slots<nat>
    var counters: Slots<Counter>
    const sweepBatch: nat

    function State(): Store
      reads this
    {
      Store(nonces, counters)
    }

    constructor (batch: nat)
      ensures State() == EMPTY && sweepBatch == batch
    {
      nonces, counters, sweepBatch := [], [], batch;
    }

    method ConsumeNonce(key: string, expiresAt: nat, now: nat) returns (r: Answer)
      modifies this
      ensures (State(), r) == Handle(old(State()), sweepBatch, Consume(key, expiresAt, now))
    {
      SweepStep(now);
      var seenUntil: Option<nat> := Lookup(nonces, key);
      assert seenUntil.Some? ==> NONCE_END(seenUntil.value) == seenUntil.value;
      if seenUntil.Some? && seenUntil.value > now { return Replayed; }
      nonces := Put(nonces, key, expiresAt);
      r := Accepted;
    }

    method IncrementWindow(key: string, windowEndsAt: nat, now: nat) returns (r: Answer)
      modifies this
      ensures (State(), r) == Handle(old(State()), sweepBatch, Increment(key, windowEndsAt, now))
    {
      SweepStep(now);
      var existing := Lookup(counters, key);
      var next := if existing.Some? && existing.value.until > now then existing.value.value + 1 else 1;
      counters := Put(counters, key, Counter(next, windowEndsAt));
      r := Used(next);
    }

    method SweepStep(now: nat)
      modifies this
      ensures State() == Sweep(old(State()), sweepBatch, now)
    {
      SweepNonces(now);
      SweepCounters(now);
    }

    method SweepNonces(now: nat)
      modifies this
      ensures counters == old(counters) && nonces == Swept(old(nonces), sweepBatch, NONCE_END, now)
    {
      var kept, left, budget := [], nonces, sweepBatch;
      while left != [] && budget > 0
        invariant nonces == old(nonces) && counters == old(counters)
        invariant Swept(nonces, sweepBatch, NONCE_END, now) == kept + Swept(left, budget, NONCE_END, now)
        decreases |left|
      {
        if left[0].1 > now { kept := kept + [left[0]]; }
        left := left[1..];
        budget := budget - 1;
      }
      nonces := kept + left;
    }

    method SweepCounters(now: nat)
      modifies this
      ensures nonces == old(nonces) && counters == Swept(old(counters), sweepBatch, COUNTER_END, now)
    {
      var kept, left, budget := [], counters, sweepBatch;
      while left != [] && budget > 0
        invariant nonces == old(nonces) && counters == old(counters)
        invariant Swept(counters, sweepBatch, COUNTER_END, now) == kept + Swept(left, budget, COUNTER_END, now)
        decreases |left|
      {
        if left[0].1.until > now { kept := kept + [left[0]]; }
        left := left[1..];
        budget := budget - 1;
      }
      counters := kept + left;
    }
  }
}
