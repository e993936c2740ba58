/** The stable sort both readers of the chain rely on: by a key, equals in the order they came. */
module Sorting {

  /** x behind the last element of s with no greater key. */
  function Insert<T>(s: seq<T>, x: T, key: T -> int): seq<T> {
    if s == [] || key(s[|s| - 1]) <= key(x) then s + [x] else Insert(s[..|s| - 1], x, key) + [s[|s| - 1]]
  }

  function Sorted<T>(s: seq<T>, key: T -> int): seq<T> {
    if s == [] then [] else Insert(Sorted(s[..|s| - 1], key), s[|s| - 1], key)
  }

  ghost predicate InOrder<T>(s: seq<T>, key: T -> int) {
    forall i, j :: 0 <= i < j < |s| ==> key(s[i]) <= key(s[j])
  }

  /** The elements with key k, in the order they stand in. */
  function Of<T>(s: seq<T>, key: T -> int, k: int): seq<T> {
    if s == [] then []
    else if key(s[|s| - 1]) == k then Of(s[..|s| - 1], key, k) + [s[|s| - 1]]
    else Of(s[..|s| - 1], key, k)
  }

  lemma {:induction false} InsertPermutes<T>(s: seq<T>, x: T, key: T -> int)
    ensures multiset(Insert(s, x, key)) == multiset(s) + multiset{x}
    decreases |s|
  {
    if s != [] && key(s[|s| - 1]) > key(x) {
      InsertPermutes(s[..|s| - 1], x, key);
      assert s == s[..|s| - 1] + [s[|s| - 1]];
    }
  }

  lemma {:induction false} InsertOrders<T>(s: seq<T>, x: T, key: T -> int)
    requires InOrder(s, key)
    ensures InOrder(Insert(s, x, key), key)
    decreases |s|
  {
    if s != [] && key(s[|s| - 1]) > key(x) {
      var front, last := s[..|s| - 1], s[|s| - 1];
      InsertOrders(front, x, key);
      var t := Insert(front, x, key);
      InsertPermutes(front, x, key);
      forall i | 0 <= i < |t| ensures key(t[i]) <= key(last) {
        assert t[i] in multiset(t);
        assert t[i] in multiset(front) + multiset{x};
      }
    }
  }

  lemma OfPush<T>(s: seq<T>, x: T, key: T -> int, k: int)
    ensures Of(s + [x], key, k) == if key(x) == k then Of(s, key, k) + [x] else Of(s, key, k)
  {
    assert (s + [x])[..|s|] == s;
  }

  lemma {:induction false} InsertStable<T>(s: seq<T>, x: T, key: T -> int, k: int)
    ensures Of(Insert(s, x, key), key, k) == if key(x) == k then Of(s, key, k) + [x] else Of(s, key, k)
    decreases |s|
  {
    if s == [] || key(s[|s| - 1]) <= key(x) {
      OfPush(s, x, key, k);
    } else {
      InsertStable(s[..|s| - 1], x, key, k);
      OfPush(Insert(s[..|s| - 1], x, key), s[|s| - 1], key, k);
    }
  }

  /** Sorting orders the elements by key and keeps every one of them. */
  lemma {:induction false} SortedInOrder<T>(s: seq<T>, key: T -> int)
    ensures InOrder(Sorted(s, key), key) && multiset(Sorted(s, key)) == multiset(s)
    decreases |s|
  {
    if s != [] {
      hide InOrder;
      var front, last := s[..|s| - 1], s[|s| - 1];
      SortedInOrder(front, key);
      InsertOrders(Sorted(front, key), last, key);
      InsertPermutes(Sorted(front, key), last, key);
      assert s == front + [last];
    } else {
      InOrderNone<T>(key);
    }
  }

  lemma InOrderNone<T>(key: T -> int)
    ensures InOrder([], key)
  {
  }

  /** Elements of one key stay in the order they came. */
  lemma {:induction false} SortedStable<T>(s: seq<T>, key: T -> int, k: int)
    ensures Of(Sorted(s, key), key, k) == Of(s, key, k)
    decreases |s|
  {
    if s != [] {
      SortedStable(s[..|s| - 1], key, k);
      InsertStable(Sorted(s[..|s| - 1], key), s[|s| - 1], key, k);
    }
  }
}
