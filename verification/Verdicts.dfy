/** What each verdict means, told from the message, the answers about it and the clock: which checks
    a proof has to pass, which failure is named when it fails, and what has to have happened to its
    nonce. */
module Verdicts {
  import opened Numbers
  import opened Text
  import opened TierStorages
  import opened TierRuns
  import opened Admission
  import opened Verifier

  // ------------------------------------------------------------------ the checks

  /** The message is of the one version, for this server, on a chain it takes, and fits the request. */
  ghost predicate Addressed(cfg: Config, c: Claims, uriOk: bool) {
    c.version == "1" && Lower(c.domain) == cfg.domain && c.chainId.Some? && c.chainId.value in cfg.chains && uriOk
  }

  /** Every time in the message can be read. */
  ghost predicate Timed(c: Claims) {
    && c.issuedAt.Some? && c.expiration.Some? && c.expiration.value.Some?
    && (c.notBefore.Some? ==> c.notBefore.value.Some?)
  }

  /** The message is in force: issued before it expires and for no longer than allowed, not ahead of
      the clock by more than the skew, not too old, not expired. */
  ghost predicate InForce(cfg: Config, c: Claims, now: nat)
    requires Timed(c)
  {
    var issued, expires, skew := c.issuedAt.value, c.expiration.value.value, 1000 * cfg.skewSeconds;
    && issued < expires <= issued + 1000 * cfg.maxLifetimeSeconds
    && issued <= now + skew && (c.notBefore.Some? ==> c.notBefore.value.value <= now + skew)
    && now <= issued + 1000 * cfg.maxAgeSeconds + skew
    && now < expires
  }

  /** The wallet that signed is the one the message names, and is a person's, registered and not revoked. */
  ghost predicate Identified(c: Claims, signer: Option<string>, record: Option<Record>) {
    && signer == Some(Lower(c.address))
    && record.Some? && record.value.registered && record.value.humanId.Some? && !record.value.revoked
  }

  /** Everything but the nonce. */
  ghost predicate Complete(cfg: Config, c: Claims, p: Presented, now: nat)
    requires p.Proof?
  {
    && Addressed(cfg, c, p.uriOk) && Timed(c) && InForce(cfg, c, now) && Identified(c, p.signer, p.record) && p.storeUp
  }

  /** One check: whether it holds, and what a proof is refused with when it does not. */
  datatype Check = Check(holds: bool, otherwise: Failure)

  function Readable(t: Option<Option<int>>): bool {
    t.Some? && t.value.Some?
  }

  /** The checks in their order. A check that reads a time says nothing of one that cannot be read. */
  function Checks(cfg: Config, c: Claims, p: Presented, now: nat): seq<Check>
    requires p.Proof?
  {
    var issued := if c.issuedAt.Some? then c.issuedAt.value else 0;
    var expires := if Readable(c.expiration) then c.expiration.value.value else 0;
    var opens := if Readable(c.notBefore) then c.notBefore.value.value else 0;
    var skew := 1000 * cfg.skewSeconds;
    [ Check(c.version == "1", UnsupportedVersion),
      Check(Lower(c.domain) == cfg.domain, DomainMismatch),
      Check(c.chainId.Some?, ProofMalformed),
      Check(c.chainId.Some? && c.chainId.value in cfg.chains, ChainUnsupported),
      Check(p.uriOk, UriMismatch),
      Check(c.issuedAt.Some?, ProofMalformed),
      Check(c.expiration.Some?, ProofMalformed),
      Check(Readable(c.expiration), ProofMalformed),
      Check(c.notBefore.None? || Readable(c.notBefore), ProofMalformed),
      Check(issued < expires, ProofMalformed),
      Check(expires <= issued + 1000 * cfg.maxLifetimeSeconds, LifetimeTooLong),
      Check(issued <= now + skew, NotYetValid),
      Check(c.notBefore.None? || opens <= now + skew, NotYetValid),
      Check(now <= issued + 1000 * cfg.maxAgeSeconds + skew, Stale),
      Check(now < expires, Expired),
      Check(p.signer.Some?, SignatureMalformed),
      Check(p.signer == Some(Lower(c.address)), SignatureMismatch),
      Check(p.record.Some?, BookUnavailable),
      Check(p.record.Some? && p.record.value.registered && p.record.value.humanId.Some?, Unregistered),
      Check(p.record.Some? && !p.record.value.revoked, RevokedRecord),
      Check(p.storeUp, StoreUnavailable) ]
  }

  ghost predicate AllHold(checks: seq<Check>) {
    forall k :: 0 <= k < |checks| ==> checks[k].holds
  }

  /** Check k is the first that does not hold. */
  ghost predicate FirstToFail(checks: seq<Check>, k: nat) {
    k < |checks| && !checks[k].holds && forall j :: 0 <= j < k ==> checks[j].holds
  }

  lemma HoldIsComplete(cfg: Config, c: Claims, p: Presented, now: nat)
    requires p.Proof?
    ensures AllHold(Checks(cfg, c, p, now)) <==> Complete(cfg, c, p, now)
  {
    hide Lower;
    var checks := Checks(cfg, c, p, now);
    if AllHold(checks) {
      assert checks[0].holds && checks[1].holds && checks[2].holds && checks[3].holds && checks[4].holds;
      assert checks[5].holds && checks[6].holds && checks[7].holds && checks[8].holds && checks[9].holds;
      assert checks[10].holds && checks[11].holds && checks[12].holds && checks[13].holds && checks[14].holds;
      assert checks[15].holds && checks[16].holds && checks[17].holds && checks[18].holds && checks[19].holds;
      assert checks[20].holds;
    }
  }

  /** A message is refused before its nonce is looked at exactly when a check fails, for the first
      that does. */
  lemma RefusedForFirst(cfg: Config, read: Reader, p: Presented, now: nat, c: Claims, k: nat)
    requires p.Proof? && read(p.message) == Some(c) && FirstToFail(Checks(cfg, c, p, now), k)
    ensures Refusal(cfg, read, p, now) == Some(Checks(cfg, c, p, now)[k].otherwise)
  {
    hide Lower;
    var checks := Checks(cfg, c, p, now);
    assert k > 0 ==> checks[0].holds;
    assert k > 1 ==> checks[1].holds;
    assert k > 2 ==> checks[2].holds;
    assert k > 3 ==> checks[3].holds;
    assert k > 4 ==> checks[4].holds;
    assert k > 5 ==> checks[5].holds;
    assert k > 6 ==> checks[6].holds;
    assert k > 7 ==> checks[7].holds;
    assert k > 8 ==> checks[8].holds;
    assert k > 9 ==> checks[9].holds;
    assert k > 10 ==> checks[10].holds;
    assert k > 11 ==> checks[11].holds;
    assert k > 12 ==> checks[12].holds;
    assert k > 13 ==> checks[13].holds;
    assert k > 14 ==> checks[14].holds;
    assert k > 15 ==> checks[15].holds;
    assert k > 16 ==> checks[16].holds;
    assert k > 17 ==> checks[17].holds;
    assert k > 18 ==> checks[18].holds;
    assert k > 19 ==> checks[19].holds;
  }

  lemma CompletePasses(cfg: Config, read: Reader, p: Presented, now: nat, c: Claims)
    requires p.Proof? && read(p.message) == Some(c) && Complete(cfg, c, p, now)
    ensures Refusal(cfg, read, p, now) == None
    ensures Granted(cfg, read, p, now)
            == HumanBacked(Lower(c.address), c.chainId.value, p.record.value.humanId.value, c.expiration.value.value)
  {
    hide Lower;
  }

  lemma {:induction false} SomeFails(checks: seq<Check>, n: nat) returns (k: nat)
    requires n <= |checks| && exists j :: 0 <= j < n && !checks[j].holds
    ensures FirstToFail(checks, k)
  {
    if j :| 0 <= j < n - 1 && !checks[j].holds { k := SomeFails(checks, n - 1); } else { k := n - 1; }
  }

  /** What a complete proof spends: its chain, wallet and nonce, until it expires. */
  function Spends(c: Claims, now: nat): Op
    requires Timed(c) && c.chainId.Some? && c.expiration.value.value >= 0
  {
    Consume(NonceKey(c.chainId.value, Lower(c.address), c.nonce), c.expiration.value.value, now)
  }

  /** A proof that fails a check is refused for the first it fails and leaves the store alone. */
  lemma FailsForFirst(cfg: Config, read: Reader, s: Store, batch: nat, p: Presented, now: nat, k: nat)
    requires p.Proof? && read(p.message).Some? && FirstToFail(Checks(cfg, read(p.message).value, p, now), k)
    ensures Verify(cfg, read, s, batch, p, now) == (s, Anonymous(Checks(cfg, read(p.message).value, p, now)[k].otherwise))
  {
    RefusedForFirst(cfg, read, p, now, read(p.message).value, k);
  }

  /** Nothing presented, and nothing that can be read, is refused for what it is. */
  lemma UnreadIsRefused(cfg: Config, read: Reader, s: Store, batch: nat, p: Presented, now: nat)
    requires p.Proof? ==> read(p.message).None?
    ensures Verify(cfg, read, s, batch, p, now) == (s, Anonymous(if p.NoProof? then NoProofPresented else ProofMalformed))
  {
  }

  /** A proof that passes them all asks the store for its nonce, and is graded by the answer. */
  lemma CompleteIsGraded(cfg: Config, read: Reader, s: Store, batch: nat, p: Presented, now: nat)
    requires p.Proof? && read(p.message).Some? && Complete(cfg, read(p.message).value, p, now)
    ensures var c := read(p.message).value;
            var (after, answer) := Handle(s, batch, Spends(c, now));
            Verify(cfg, read, s, batch, p, now) ==
            (after, if answer == Replayed then Anonymous(NonceReplayed)
                    else HumanBacked(Lower(c.address), c.chainId.value, p.record.value.humanId.value,
                        c.expiration.value.value))
  {
    hide Lower, Handle;
    CompletePasses(cfg, read, p, now, read(p.message).value);
  }

  /** The checks are all there is before the nonce. */
  lemma PassesIff(cfg: Config, read: Reader, p: Presented, now: nat)
    ensures Refusal(cfg, read, p, now) == None <==>
            p.Proof? && read(p.message).Some? && Complete(cfg, read(p.message).value, p, now)
  {
    hide Refusal, Checks, Complete;
    if p.Proof? && read(p.message).Some? {
      var c := read(p.message).value;
      HoldIsComplete(cfg, c, p, now);
      if Complete(cfg, c, p, now) {
        CompletePasses(cfg, read, p, now, c);
      } else {
        var k := SomeFails(Checks(cfg, c, p, now), |Checks(cfg, c, p, now)|);
        RefusedForFirst(cfg, read, p, now, c, k);
      }
    } else {
      UnreadIsStopped(cfg, read, p, now);
    }
  }

  lemma UnreadIsStopped(cfg: Config, read: Reader, p: Presented, now: nat)
    requires p.Proof? ==> read(p.message).None?
    ensures Refusal(cfg, read, p, now).Some?
  {
  }

  // ------------------------------------------------------------------ over a run

  /** Visit j of the run spent the nonce under this key, and it lasts beyond t: a proof graded
      human-backed that has not expired by then, or another caller's accepted one. */
  ghost predicate SpentAt(cfg: Config, read: Reader, batch: nat, vs: seq<Visit>, j: nat, key: string, t: nat)
    requires j < |vs|
  {
    match vs[j]
    case Present(p, now) =>
      var v := VerdictAt(cfg, read, batch, vs, j);
      v.HumanBacked? && v.expiresAt > t && p.Proof? && read(p.message).Some?
      && key == NonceKey(v.chainId, v.wallet, read(p.message).value.nonce)
    case Other(op) =>
      op.Consume? && op.key == key && op.until > t && Handle(StoreAt(cfg, read, batch, vs, j), batch, op).1 == Accepted
  }

  /** One of the first n visits spent the nonce under this key, and it lasts beyond t. */
  ghost predicate SpentBefore(cfg: Config, read: Reader, batch: nat, vs: seq<Visit>, n: nat, key: string, t: nat)
    requires n <= |vs|
  {
    exists j: nat :: j < n && SpentAt(cfg, read, batch, vs, j, key, t)
  }

  /** A refused proof makes no call and spends nothing. */
  lemma RefusedSpendsNothing(cfg: Config, read: Reader, batch: nat, vs: seq<Visit>, n: nat, key: string, t: nat)
    requires n < |vs| && CallsOf(cfg, read, vs[n]) == []
    ensures Calls(cfg, read, vs, n + 1) == Calls(cfg, read, vs, n) && !SpentAt(cfg, read, batch, vs, n, key, t)
  {
    hide Refusal, OpOf, Granted, StoreAt;
  }

  /** A call of another kind answers from its place in the run's calls. */
  lemma OtherIs(cfg: Config, read: Reader, batch: nat, vs: seq<Visit>, n: nat)
    requires n < |vs| && vs[n].Other?
    ensures var ops, at := Calls(cfg, read, vs, |vs|), |Calls(cfg, read, vs, n)|;
            && Calls(cfg, read, vs, n + 1) == Calls(cfg, read, vs, n) + [vs[n].op]
            && at < |ops| && ops[at] == vs[n].op
            && AnswerAt(batch, ops, at) == Handle(StoreAt(cfg, read, batch, vs, n), batch, vs[n].op).1
  {
    hide Handle, StoreAt, After, Refusal, OpOf;
    CallsPrefix(cfg, read, vs, n + 1, |vs|);
    StoreFollows(cfg, read, batch, vs, n);
    var ops, at := Calls(cfg, read, vs, |vs|), |Calls(cfg, read, vs, n)|;
    assert ops[..at] == Calls(cfg, read, vs, n);
  }

  /** What a proof that passes spends, in the terms of its verdict. */
  lemma GrantedSpends(cfg: Config, read: Reader, p: Presented, now: nat)
    requires Refusal(cfg, read, p, now) == None
    ensures p.Proof? && read(p.message).Some?
    ensures var c, op := read(p.message).value, OpOf(cfg, read, p, now);
            var v := Granted(cfg, read, p, now);
            v.HumanBacked? && op == Consume(NonceKey(v.chainId, v.wallet, c.nonce), v.expiresAt, now)
  {
    PassingSpends(cfg, read, p, now);
    LowerTwice(read(p.message).value.address);
  }

  lemma {:induction false} LowerTwice(s: string)
    ensures Lower(Lower(s)) == Lower(s)
  {
    if s != "" {
      LowerTwice(s[1..]);
      assert Lower(s)[1..] == Lower(s[1..]);
    }
  }

  /** A visit that makes a call spends the nonce exactly when its call does. */
  lemma CallSpends(cfg: Config, read: Reader, batch: nat, vs: seq<Visit>, n: nat, key: string, t: nat)
    requires Timely(vs) && n < |vs| && CallsOf(cfg, read, vs[n]) != []
    ensures var ops, at := Calls(cfg, read, vs, |vs|), |Calls(cfg, read, vs, n)|;
            && |Calls(cfg, read, vs, n + 1)| == at + 1
            && (SpentBeyond(batch, ops, at, key, t) <==> SpentAt(cfg, read, batch, vs, n, key, t))
  {
    hide Refusal, OpOf, Handle, StoreAt, After, AnswerAt, Granted, Lower, NonceKey;
    if vs[n].Other? {
      OtherIs(cfg, read, batch, vs, n);
    } else {
      CallsStep(cfg, read, vs, n);
      VerdictIs(cfg, read, batch, vs, n, |vs|);
      GrantedSpends(cfg, read, vs[n].p, vs[n].now);
      CallsTimed(cfg, read, vs, |vs|);
      ReplayedExactly(batch, Calls(cfg, read, vs, |vs|), |Calls(cfg, read, vs, n)|);
    }
  }

  lemma {:induction false} SpentByVisits(cfg: Config, read: Reader, batch: nat, vs: seq<Visit>, n: nat, key: string, t: nat)
    requires Timely(vs) && n <= |vs|
    ensures Spent(batch, Calls(cfg, read, vs, |vs|), |Calls(cfg, read, vs, n)|, key, t)
            <==> SpentBefore(cfg, read, batch, vs, n, key, t)
    decreases n
  {
    hide CallsOf, SpentAt, SpentBeyond, Calls;
    if n > 0 {
      SpentByVisits(cfg, read, batch, vs, n - 1, key, t);
      if CallsOf(cfg, read, vs[n - 1]) == [] {
        RefusedSpendsNothing(cfg, read, batch, vs, n - 1, key, t);
      } else {
        CallSpends(cfg, read, batch, vs, n - 1, key, t);
        SpentStep(batch, Calls(cfg, read, vs, |vs|), |Calls(cfg, read, vs, n - 1)|, key, t, t);
      }
      assert SpentBefore(cfg, read, batch, vs, n, key, t) <==>
             SpentBefore(cfg, read, batch, vs, n - 1, key, t) || SpentAt(cfg, read, batch, vs, n - 1, key, t);
    } else {
      NoCalls(cfg, read, vs);
    }
  }

  lemma NoCalls(cfg: Config, read: Reader, vs: seq<Visit>)
    ensures Calls(cfg, read, vs, 0) == []
  {
  }

  /** In any run a proof is graded human-backed if and only if it can be read, passes every check at
      that moment, and no earlier visit spent its nonce for longer than until now. */
  lemma HumanBackedIff(cfg: Config, read: Reader, batch: nat, vs: seq<Visit>, i: nat)
    requires Timely(vs) && i < |vs| && vs[i].Present?
    ensures VerdictAt(cfg, read, batch, vs, i).HumanBacked? <==>
            && vs[i].p.Proof? && read(vs[i].p.message).Some?
            && var c := read(vs[i].p.message).value;
               && Complete(cfg, c, vs[i].p, vs[i].now)
               && !SpentBefore(cfg, read, batch, vs, i, NonceKey(c.chainId.value, Lower(c.address), c.nonce), vs[i].now)
  {
    hide Refusal, Complete, Lower, VerdictAt, Spent, SpentBefore;
    var p, now := vs[i].p, vs[i].now;
    PassesIff(cfg, read, p, now);
    HumanBackedExactly(cfg, read, batch, vs, i);
    if Refusal(cfg, read, p, now) == None {
      var op := OpOf(cfg, read, p, now);
      SpentByVisits(cfg, read, batch, vs, i, op.key, now);
    }
  }
}
