/** The two decisions that lean on the store: is this proof human-backed, and is this request
    within its allowance. */
module Admission {
  import opened Numbers
  import opened Text
  import opened TierStorages
  import opened TierRuns

  // ------------------------------------------------------------------ keys

  function NonceKey(chainId: nat, wallet: string, nonce: string): string {
    "agentkit:nonce:" + Decimal(chainId) + ":" + Lower(wallet) + ":" + nonce
  }

  function RateLimitKey(subject: string, windowStart: nat): string {
    "agentkit:rate:" + subject + ":" + Decimal(windowStart)
  }

  lemma DecimalsDiffer(m: nat, n: nat)
    requires Decimal(m) == Decimal(n)
    ensures m == n
  {
    DecimalReads(m);
    DecimalReads(n);
  }

  /** Before a first colon and after it, two equal strings are equal. */
  lemma CutFirst(s: string, t: string, s': string, t': string)
    requires ':' !in s && ':' !in s' && s + ":" + t == s' + ":" + t'
    ensures s == s' && t == t'
  {
    SplitNone(s, ':');
    SplitNone(s', ':');
    SplitAt(s, ':', t);
    SplitAt(s', ':', t');
    assert ([s] + Split(t, ':'))[0] == ([s'] + Split(t', ':'))[0];
    assert (s + ":" + t)[|s| + 1..] == t && (s' + ":" + t')[|s'| + 1..] == t';
  }

  /** Before a last colon and after it, two equal strings are equal. */
  lemma CutLast(s: string, t: string, s': string, t': string)
    requires ':' !in t && ':' !in t' && s + ":" + t == s' + ":" + t'
    ensures s == s' && t == t'
  {
    SplitNone(t, ':');
    SplitNone(t', ':');
    SplitAt(s, ':', t);
    SplitAt(s', ':', t');
    assert (Split(s, ':') + [t])[|Split(s, ':')|] == t && (Split(s', ':') + [t'])[|Split(s', ':')|] == t';
    assert (s + ":" + t)[..|s|] == s && (s' + ":" + t')[..|s'|] == s';
  }

  /** Nonces of different wallets or chains never share a key. */
  lemma NonceKeysDiffer(c: nat, w: string, n: string, c': nat, w': string, n': string)
    requires ':' !in Lower(w) && ':' !in Lower(w')
    ensures NonceKey(c, w, n) == NonceKey(c', w', n') <==> c == c' && Lower(w) == Lower(w') && n == n'
  {
    if NonceKey(c, w, n) == NonceKey(c', w', n') {
      var rest, rest' := Lower(w) + ":" + n, Lower(w') + ":" + n';
      NonceKeyRest(c, w, n);
      NonceKeyRest(c', w', n');
      DecimalFree(c, ':');
      DecimalFree(c', ':');
      CutFirst(Decimal(c), rest, Decimal(c'), rest');
      DecimalsDiffer(c, c');
      CutFirst(Lower(w), n, Lower(w'), n');
    }
  }

  lemma NonceKeyRest(c: nat, w: string, n: string)
    ensures |NonceKey(c, w, n)| >= 15 && NonceKey(c, w, n)[15..] == Decimal(c) + ":" + (Lower(w) + ":" + n)
  {
    assert NonceKey(c, w, n) == "agentkit:nonce:" + (Decimal(c) + ":" + (Lower(w) + ":" + n));
  }

  /** Windows of different subjects or starts never share a counter. */
  lemma RateKeysDiffer(s: string, t: nat, s': string, t': nat)
    ensures RateLimitKey(s, t) == RateLimitKey(s', t') <==> s == s' && t == t'
  {
    if RateLimitKey(s, t) == RateLimitKey(s', t') {
      var p := "agentkit:rate:";
      DecimalFree(t, ':');
      DecimalFree(t', ':');
      CutLast(p + s, Decimal(t), p + s', Decimal(t'));
      assert (p + s)[|p|..] == s && (p + s')[|p|..] == s';
      DecimalsDiffer(t, t');
    }
  }

  // ------------------------------------------------------------------ the allowance

  function WindowStart(now: nat, window: nat): nat
    requires window > 0
  {
    now / window * window
  }

  datatype Decision = Decision(allowed: bool, limit: nat, used: nat, remaining: nat, windowStart: nat, resetAt: nat,
                               retryAfterSeconds: nat, degraded: bool)

  function Decide(used: nat, limit: nat, window: nat, now: nat): Decision
    requires window > 0
  {
    var start := WindowStart(now, window);
    var wait := (start + window - now + 999) / 1000;
    Decision(used <= limit, limit, used, if limit > used then limit - used else 0, start, start + window,
             if used <= limit then 0 else if wait > 1 then wait else 1, false)
  }

  /** The decision without a counter: let through, uncounted and marked degraded. */
  function FailOpen(limit: nat, window: nat, now: nat): Decision
    requires window > 0
  {
    var start := WindowStart(now, window);
    Decision(true, limit, 0, limit, start, start + window, 0, true)
  }

  /** The call on the store that counts a request of a subject. */
  function CallOf(subject: string, window: nat, now: nat): Op
    requires window > 0
  {
    Increment(RateLimitKey(subject, WindowStart(now, window)), WindowStart(now, window) + window, now)
  }

  /** `reached` says whether the store answers at all; one that does not is left as it was. */
  method EnforceRateLimit(storage: InMemoryTierStorage, reached: bool, subject: string, limit: nat, window: nat, now: nat)
    returns (d: Decision)
    requires window > 0
    modifies storage
    ensures reached ==>
              var (after, answer) := Handle(old(storage.State()), storage.sweepBatch, CallOf(subject, window, now));
              storage.State() == after && answer.Used? && d == Decide(answer.count, limit, window, now)
    ensures !reached ==> storage.State() == old(storage.State()) && d == FailOpen(limit, window, now)
  {
    var start := WindowStart(now, window);
    if !reached { return Decision(true, limit, 0, limit, start, start + window, 0, true); }
    var r := storage.IncrementWindow(RateLimitKey(subject, start), start + window, now);
    d := Decide(r.count, limit, window, now);
  }

  /** A refused request is told to wait at least a second, and long enough to find the next window
      open; no wait is asked for while one is allowed. */
  lemma RetryFindsNextWindow(used: nat, limit: nat, window: nat, now: nat)
    requires window > 0
    ensures var d := Decide(used, limit, window, now);
            && (d.allowed <==> d.retryAfterSeconds == 0)
            && (!d.allowed ==> WindowStart(now + 1000 * d.retryAfterSeconds, window) >= d.resetAt)
            && (!d.allowed && d.retryAfterSeconds > 1 ==> now + 1000 * (d.retryAfterSeconds - 1) < d.resetAt)
  {
    var d := Decide(used, limit, window, now);
    WindowHolds(now, window);
    if !d.allowed {
      var later := now + 1000 * d.retryAfterSeconds;
      FloorMono(d.resetAt, later, window);
      MulNext(now / window, window);
      FloorShift(0, now / window + 1, window);
      MulMono(d.resetAt / window, later / window, window);
    }
  }

  /** The window a decision names holds the moment it was made, starts at a multiple of its length and
      ends where the next one starts. */
  ghost predicate InWindow(d: Decision, window: nat, now: nat)
    requires window > 0
  {
    d.windowStart <= now < d.resetAt && d.resetAt == d.windowStart + window && d.windowStart % window == 0
  }

  /** What is used and what remains come to the limit for as long as requests are allowed; nothing
      remains once they are not. When the store cannot be reached the request is let through, told
      the whole limit and that nothing was counted. */
  lemma RemainderIsExact(used: nat, limit: nat, window: nat, now: nat)
    requires window > 0
    ensures var d := Decide(used, limit, window, now);
            && (if d.allowed then d.used + d.remaining == d.limit else d.used > d.limit && d.remaining == 0)
            && d.used == used && d.limit == limit && !d.degraded && InWindow(d, window, now)
    ensures var d := FailOpen(limit, window, now);
            && d.allowed && d.degraded && d.used == 0 && d.remaining == d.limit == limit && d.retryAfterSeconds == 0
            && InWindow(d, window, now)
  {
    WindowHolds(now, window);
    WholeMultiple(now / window, window);
  }

  lemma WholeMultiple(q: nat, k: nat)
    requires k > 0
    ensures q * k % k == 0
  {
    FloorShift(0, q, k);
    FloorBounds(q * k, k);
    ModIsRest(q * k, k, q);
  }

  lemma ModIsRest(a: nat, k: nat, q: nat)
    requires k > 0 && a / k == q && a == q * k
    ensures a % k == 0
  {
  }

  lemma WindowHolds(now: nat, window: nat)
    requires window > 0
    ensures WindowStart(now, window) <= now < WindowStart(now, window) + window
  {
  }

  /** Whatever counts against one of the subject's windows is a request of the subject under
      this window length. */
  ghost predicate OnlyCalls(ops: seq<Op>, subject: string, window: nat)
    requires window > 0
  {
    forall i, start: nat :: 0 <= i < |ops| && Counts(ops[i], RateLimitKey(subject, start)) ==>
      ops[i] == CallOf(subject, window, ops[i].now)
  }

  lemma OneWindowEach(ops: seq<Op>, subject: string, window: nat, start: nat)
    requires window > 0 && OnlyCalls(ops, subject, window)
    ensures OneWindow(ops, RateLimitKey(subject, start), start + window)
    ensures forall i :: 0 <= i < |ops| && Counts(ops[i], RateLimitKey(subject, start)) ==> WindowStart(ops[i].now, window) == start
  {
    forall i | 0 <= i < |ops| && Counts(ops[i], RateLimitKey(subject, start))
      ensures WindowStart(ops[i].now, window) == start && ops[i].until == start + window && ops[i].now < start + window
    {
      RateKeysDiffer(subject, start, subject, WindowStart(ops[i].now, window));
      WindowHolds(ops[i].now, window);
    }
  }

  /** A request is told exactly how many its window has seen, itself included, so of each window
      the first `limit` requests are allowed and no other. */
  lemma WindowCountsExactly(batch: nat, ops: seq<Op>, subject: string, window: nat, i: nat, limit: nat)
    requires window > 0 && InOrder(ops) && OnlyCalls(ops, subject, window) && i < |ops|
    requires ops[i] == CallOf(subject, window, ops[i].now)
    ensures AnswerAt(batch, ops, i) == Used(CountOf(ops, i, ops[i].key) + 1)
    ensures Decide(AnswerAt(batch, ops, i).count, limit, window, ops[i].now).allowed <==> CountOf(ops, i, ops[i].key) < limit
  {
    var start := WindowStart(ops[i].now, window);
    OneWindowEach(ops, subject, window, start);
    CountedExactly(batch, ops, i, start + window);
  }

  /** So the first `limit` requests of a window are told that one less remains each time, and those
      after them that nothing does. */
  lemma RemainingCountsDown(batch: nat, ops: seq<Op>, subject: string, window: nat, i: nat, limit: nat)
    requires window > 0 && InOrder(ops) && OnlyCalls(ops, subject, window) && i < |ops|
    requires ops[i] == CallOf(subject, window, ops[i].now)
    ensures AnswerAt(batch, ops, i).Used?
    ensures var d, seen := Decide(AnswerAt(batch, ops, i).count, limit, window, ops[i].now), CountOf(ops, i, ops[i].key);
            d.remaining == if seen < limit then limit - seen - 1 else 0
  {
    WindowCountsExactly(batch, ops, subject, window, i, limit);
    RemainderIsExact(AnswerAt(batch, ops, i).count, limit, window, ops[i].now);
  }

  /** The requests of the subject among the first n that came in [from, from + window) and were
      allowed. */
  function AllowedWithin(batch: nat, ops: seq<Op>, n: nat, subject: string, window: nat, limit: nat, from: nat): nat
    requires window > 0 && n <= |ops|
  {
    if n == 0 then 0
    else
      AllowedWithin(batch, ops, n - 1, subject, window, limit, from)
      + if ops[n - 1] == CallOf(subject, window, ops[n - 1].now) && from <= ops[n - 1].now < from + window
           && Allowed(batch, ops, n - 1, limit) then 1 else 0
  }

  /** Times less than a window apart lie in one window or in two in a row. */
  lemma TwoWindows(from: nat, now: nat, window: nat)
    requires window > 0 && from <= now < from + window
    ensures WindowStart(now, window) == WindowStart(from, window) || WindowStart(now, window) == WindowStart(from, window) + window
  {
    var a, b := from / window, now / window;
    FloorMono(from, now, window);
    FloorShift(from, 1, window);
    FloorMono(now, 1 * window + from, window);
    MulNext(a, window);
    assert b == a || b == a + 1;
  }

  lemma MulNext(a: int, k: int)
    ensures (a + 1) * k == a * k + k
  {
  }

  /** Within any stretch as long as a window at most twice the limit is allowed. */
  lemma AtMostTwiceTheLimit(batch: nat, ops: seq<Op>, n: nat, subject: string, window: nat, limit: nat, from: nat)
    requires window > 0 && InOrder(ops) && OnlyCalls(ops, subject, window) && n <= |ops|
    ensures AllowedWithin(batch, ops, n, subject, window, limit, from) <= 2 * limit
  {
    var first := WindowStart(from, window);
    OneWindowEach(ops, subject, window, first);
    OneWindowEach(ops, subject, window, first + window);
    AllowedExactly(batch, ops, n, RateLimitKey(subject, first), first + window, limit);
    AllowedExactly(batch, ops, n, RateLimitKey(subject, first + window), first + window + window, limit);
    InTwoWindows(batch, ops, n, subject, window, limit, from);
  }

  lemma {:induction false} InTwoWindows(batch: nat, ops: seq<Op>, n: nat, subject: string, window: nat, limit: nat, from: nat)
    requires window > 0 && n <= |ops|
    ensures var first := WindowStart(from, window);
            AllowedWithin(batch, ops, n, subject, window, limit, from) <=
            AllowedOf(batch, ops, n, RateLimitKey(subject, first), limit)
            + AllowedOf(batch, ops, n, RateLimitKey(subject, first + window), limit)
    decreases n
  {
    hide AnswerAt, RateLimitKey, WindowStart;
    if n > 0 {
      InTwoWindows(batch, ops, n - 1, subject, window, limit, from);
      if ops[n - 1] == CallOf(subject, window, ops[n - 1].now) && from <= ops[n - 1].now < from + window {
        TwoWindows(from, ops[n - 1].now, window);
      }
    }
  }
}
