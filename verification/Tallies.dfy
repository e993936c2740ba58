/** Recomputation over stored rows: sums over a map, reference counts keyed by what a row
    says, and how both follow one row at a time. */
module Tallies {

  // ------------------------------------------------------------------ sums

  /** The sum of f over the values of m. */
  ghost function Sum<K, V>(m: map<K, V>, f: V -> int): int {
    if m.Keys == {} then 0
    else
      var k :| k in m.Keys;
      f(m[k]) + Sum(m - {k}, f)
  }

  lemma {:induction false} SumRemove<K, V>(m: map<K, V>, f: V -> int, k: K)
    requires k in m
    ensures Sum(m, f) == f(m[k]) + Sum(m - {k}, f)
    decreases |m|
  {
    var j :| j in m.Keys && Sum(m, f) == f(m[j]) + Sum(m - {j}, f);
    if j != k {
      SumRemove(m - {j}, f, k);
      SumRemove(m - {k}, f, j);
      assert m - {j} - {k} == m - {k} - {j};
    }
  }

  /** Writing one row moves the sum by what that row contributes. */
  lemma {:induction false} SumPut<K, V>(m: map<K, V>, f: V -> int, k: K, v: V)
    ensures Sum(m[k := v], f) == Sum(m, f) - (if k in m then f(m[k]) else 0) + f(v)
  {
    SumRemove(m[k := v], f, k);
    if k in m {
      SumRemove(m, f, k);
      assert m[k := v] - {k} == m - {k};
    } else {
      assert m[k := v] - {k} == m;
    }
  }

  lemma {:induction false} SumNonNegative<K, V>(m: map<K, V>, f: V -> int)
    requires forall k :: k in m ==> f(m[k]) >= 0
    ensures Sum(m, f) >= 0
    ensures forall k :: k in m ==> f(m[k]) <= Sum(m, f)
    decreases |m|
  {
    forall k | k in m ensures 0 <= f(m[k]) <= Sum(m, f) {
      SumNonNegative(m - {k}, f);
      SumRemove(m, f, k);
    }
  }

  /** A sum of zeros is zero. */
  lemma {:induction false} SumZero<K, V>(m: map<K, V>, f: V -> int)
    requires forall k :: k in m ==> f(m[k]) == 0
    ensures Sum(m, f) == 0
    decreases |m|
  {
    if m.Keys != {} {
      var k :| k in m.Keys && Sum(m, f) == f(m[k]) + Sum(m - {k}, f);
      SumZero(m - {k}, f);
    }
  }

  /** A sum of ones is the number of rows. */
  lemma {:induction false} SumOfOnes<K, V>(m: map<K, V>, f: V -> int)
    requires forall k :: k in m ==> f(m[k]) == 1
    ensures Sum(m, f) == |m|
    decreases |m|
  {
    if m.Keys != {} {
      var k :| k in m.Keys && Sum(m, f) == f(m[k]) + Sum(m - {k}, f);
      SumOfOnes(m - {k}, f);
      assert (m - {k}).Keys == m.Keys - {k} && |m| == |m.Keys| && |m - {k}| == |(m - {k}).Keys|;
    }
  }

  /** Maps that read the same under f, key by key, have the same sum. */
  lemma {:induction false} SumSame<K, V>(m: map<K, V>, n: map<K, V>, f: V -> int)
    requires m.Keys == n.Keys && forall k :: k in m ==> f(m[k]) == f(n[k])
    ensures Sum(m, f) == Sum(n, f)
  {
    SumAgree(m, n, f, f);
  }

  /** The same, over rows of two kinds. */
  lemma {:induction false} SumAgree<K, V, W>(m: map<K, V>, n: map<K, W>, f: V -> int, g: W -> int)
    requires m.Keys == n.Keys && forall k :: k in m ==> f(m[k]) == g(n[k])
    ensures Sum(m, f) == Sum(n, g)
    decreases |m|
  {
    if m.Keys != {} {
      var k :| k in m.Keys;
      SumRemove(m, f, k);
      SumRemove(n, g, k);
      SumAgree(m - {k}, n - {k}, f, g);
    }
  }

  /** Row by row f is g plus h, so in sum it is too. */
  lemma {:induction false} SumSplit<K, V>(m: map<K, V>, f: V -> int, g: V -> int, h: V -> int)
    requires forall k :: k in m ==> f(m[k]) == g(m[k]) + h(m[k])
    ensures Sum(m, f) == Sum(m, g) + Sum(m, h)
    decreases |m|
  {
    if m.Keys != {} {
      var k :| k in m.Keys;
      SumRemove(m, f, k);
      SumRemove(m, g, k);
      SumRemove(m, h, k);
      SumSplit(m - {k}, f, g, h);
    }
  }

  // ------------------------------------------------------------------ reference counts

  function Get<K>(c: map<K, nat>, k: K): nat {
    if k in c then c[k] else 0
  }

  /** One more reference to k; a first one creates the entry. */
  function Incr<K>(c: map<K, nat>, k: K): map<K, nat> {
    c[k := Get(c, k) + 1]
  }

  /** One reference to k fewer; the last one removes the entry, and an absent one is left. */
  function Decr<K>(c: map<K, nat>, k: K): map<K, nat> {
    if k !in c then c else if c[k] > 1 then c[k := c[k] - 1] else c - {k}
  }

  /** 1 for the rows whose key is k. */
  function Keyed<R(!new), K(==)>(key: R -> K, k: K): R -> int {
    r => if key(r) == k then 1 else 0
  }

  /** c counts, for every k, the rows whose key is k, and keeps no entry at zero. */
  ghost predicate Counts<P, R(!new), K(!new)>(c: map<K, nat>, rows: map<P, R>, key: R -> K) {
    && (forall k :: Get(c, k) == Sum(rows, Keyed(key, k)))
    && (forall k :: k in c ==> c[k] > 0)
  }

  lemma CountsAdd<P, R(!new), K(!new)>(c: map<K, nat>, rows: map<P, R>, key: R -> K, p: P, r: R)
    requires Counts(c, rows, key) && p !in rows
    ensures Counts(Incr(c, key(r)), rows[p := r], key)
  {
    forall k ensures Get(Incr(c, key(r)), k) == Sum(rows[p := r], Keyed(key, k)) { SumPut(rows, Keyed(key, k), p, r); }
  }

  /** A row whose key does not change leaves the counts alone. */
  lemma CountsKeep<P, R(!new), K(!new)>(c: map<K, nat>, rows: map<P, R>, key: R -> K, p: P, r: R)
    requires Counts(c, rows, key) && p in rows && key(rows[p]) == key(r)
    ensures Counts(c, rows[p := r], key)
  {
    forall k ensures Get(c, k) == Sum(rows[p := r], Keyed(key, k)) { SumPut(rows, Keyed(key, k), p, r); }
  }

  /** The count of a row's own key is at least one. */
  lemma CountsHas<P, R(!new), K(!new)>(c: map<K, nat>, rows: map<P, R>, key: R -> K, p: P)
    requires Counts(c, rows, key) && p in rows
    ensures key(rows[p]) in c
  {
    SumNonNegative(rows, Keyed(key, key(rows[p])));
    assert Keyed(key, key(rows[p]))(rows[p]) == 1;
  }

  /** A row that moves from one key to another takes one reference with it. */
  lemma CountsMove<P, R(!new), K(!new)>(c: map<K, nat>, rows: map<P, R>, key: R -> K, p: P, r: R)
    requires Counts(c, rows, key) && p in rows && key(rows[p]) != key(r)
    ensures Counts(Decr(Incr(c, key(r)), key(rows[p])), rows[p := r], key)
    ensures Decr(Incr(c, key(r)), key(rows[p])) == Incr(Decr(c, key(rows[p])), key(r))
  {
    var was, now := key(rows[p]), key(r);
    var c' := Decr(Incr(c, now), was);
    CountsHas(c, rows, key, p);
    forall k ensures Get(c', k) == Sum(rows[p := r], Keyed(key, k)) { SumPut(rows, Keyed(key, k), p, r); }
    assert c' == Incr(Decr(c, was), now);
  }

  // ------------------------------------------------------------------ how many keys

  lemma MapGrows<K, V>(m: map<K, V>, k: K, v: V)
    ensures |m[k := v]| == |m| + if k in m then 0 else 1
  {
    assert m[k := v].Keys == m.Keys + {k};
    assert |m[k := v]| == |m[k := v].Keys| && |m| == |m.Keys|;
  }

  /** The keys of c in group x. */
  ghost function Group<K, G(!new)>(c: map<K, nat>, group: K -> G, x: G): set<K> {
    set k | k in c && group(k) == x
  }

  lemma GroupIncr<K, G(!new)>(c: map<K, nat>, group: K -> G, k: K, x: G)
    ensures |Group(Incr(c, k), group, x)| == |Group(c, group, x)| + if k !in c && group(k) == x then 1 else 0
  {
    if k !in c && group(k) == x {
      assert Group(Incr(c, k), group, x) == Group(c, group, x) + {k};
    } else {
      assert Group(Incr(c, k), group, x) == Group(c, group, x);
    }
  }

  lemma GroupDecr<K, G(!new)>(c: map<K, nat>, group: K -> G, k: K, x: G)
    ensures |Group(Decr(c, k), group, x)| ==
            |Group(c, group, x)| - if k in c && k !in Decr(c, k) && group(k) == x then 1 else 0
  {
    if k in c && k !in Decr(c, k) && group(k) == x {
      assert Group(Decr(c, k), group, x) == Group(c, group, x) - {k};
    } else {
      assert Group(Decr(c, k), group, x) == Group(c, group, x);
    }
  }

  // ------------------------------------------------------------------ counting rows

  ghost function RowsWith<P, R(!new), K(!new)>(rows: map<P, R>, key: R -> K, k: K): set<P> {
    set p | p in rows && key(rows[p]) == k
  }

  lemma RowsWithout<P, R(!new), K(!new)>(rows: map<P, R>, key: R -> K, k: K, p: P)
    requires p in rows
    ensures |RowsWith(rows, key, k)| == |RowsWith(rows - {p}, key, k)| + if key(rows[p]) == k then 1 else 0
  {
    var left := rows - {p};
    if key(rows[p]) == k {
      assert RowsWith(rows, key, k) == RowsWith(left, key, k) + {p};
    } else {
      assert RowsWith(rows, key, k) == RowsWith(left, key, k);
    }
  }

  /** Counting rows by their key is the size of a set. */
  lemma {:induction false} CountIsSize<P, R(!new), K(!new)>(rows: map<P, R>, key: R -> K, k: K)
    ensures Sum(rows, Keyed(key, k)) == |RowsWith(rows, key, k)|
    decreases |rows|
  {
    if rows.Keys == {} {
      assert RowsWith(rows, key, k) == {};
    } else {
      var p :| p in rows.Keys;
      SumRemove(rows, Keyed(key, k), p);
      CountIsSize(rows - {p}, key, k);
      RowsWithout(rows, key, k, p);
    }
  }

  /** A set keeps its size under a function that tells its elements apart. */
  lemma {:induction false} ImageSize<K, L>(s: set<K>, f: K -> L, image: set<L>)
    requires forall j, k :: j in s && k in s && f(j) == f(k) ==> j == k
    requires image == set k | k in s :: f(k)
    ensures |image| == |s|
  {
    if s != {} {
      var k :| k in s;
      assert image - {f(k)} == set j | j in s - {k} :: f(j);
      ImageSize(s - {k}, f, image - {f(k)});
    }
  }
}
