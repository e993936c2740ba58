/** Grading a proof: the checks in their order, the nonce spent last, one reading of the clock
    for each request. Signature recovery, the registry and the date reader answer as they will. */
module Verifier {
  import opened Numbers
  import opened Text
  import opened TierStorages
  import opened TierRuns
  import opened Admission

  /** What a message says once read; a time that cannot be read is None. */
  datatype Claims = Claims(version: string, domain: string, chainId: Option<nat>, issuedAt: Option<int>,
                           expiration: Option<Option<int>>, notBefore: Option<Option<int>>, address: string, nonce: string)

  datatype Record = Record(registered: bool, humanId: Option<string>, revoked: bool)

  /** A proof as presented, with what the world outside answers about it: whether its URI fits
      the request, who signed it, what the registry holds, whether the nonce store can be reached. */
  datatype Presented =
    | NoProof
    | BadEnvelope
    | Proof(message: string, uriOk: bool, signer: Option<string>, record: Option<Record>, storeUp: bool)

  datatype Failure =
    | NoProofPresented | ProofMalformed | UnsupportedVersion | DomainMismatch | ChainUnsupported | UriMismatch
    | LifetimeTooLong | NotYetValid | Stale | Expired | SignatureMalformed | SignatureMismatch
    | BookUnavailable | Unregistered | RevokedRecord | StoreUnavailable | NonceReplayed

  datatype Verdict = Anonymous(reason: Failure) | HumanBacked(wallet: string, chainId: nat, humanId: string, expiresAt: int)

  datatype Config = Config(domain: string, chains: seq<nat>, maxLifetimeSeconds: nat, maxAgeSeconds: nat, skewSeconds: nat)

  /** The message read, or None when it is no EIP-4361 message. */
  type Reader = string -> Option<Claims>

  /** What is wrong with the claims by themselves. */
  function ClaimsFailure(cfg: Config, c: Claims, uriOk: bool): Option<Failure> {
    if c.version != "1" then Some(UnsupportedVersion)
    else if Lower(c.domain) != cfg.domain then Some(DomainMismatch)
    else if c.chainId.None? then Some(ProofMalformed)
    else if c.chainId.value !in cfg.chains then Some(ChainUnsupported)
    else if !uriOk then Some(UriMismatch)
    else if c.issuedAt.None? || c.expiration.None? || c.expiration.value.None? then Some(ProofMalformed)
    else if c.notBefore.Some? && c.notBefore.value.None? then Some(ProofMalformed)
    else if c.expiration.value.value <= c.issuedAt.value then Some(ProofMalformed)
    else None
  }

  /** What is wrong with the claims at this time. */
  function TimeFailure(cfg: Config, c: Claims, now: nat): Option<Failure>
    requires ClaimsFailure(cfg, c, true) == None
  {
    var issued, expires, skew := c.issuedAt.value, c.expiration.value.value, cfg.skewSeconds * 1000;
    if expires - issued > cfg.maxLifetimeSeconds * 1000 then Some(LifetimeTooLong)
    else if issued > now + skew then Some(NotYetValid)
    else if c.notBefore.Some? && c.notBefore.value.value > now + skew then Some(NotYetValid)
    else if now - issued > cfg.maxAgeSeconds * 1000 + skew then Some(Stale)
    else if expires <= now then Some(Expired)
    else None
  }

  /** What is wrong with the signer or the registration. */
  function IdentityFailure(c: Claims, signer: Option<string>, record: Option<Record>): Option<Failure> {
    if signer.None? then Some(SignatureMalformed)
    else if signer.value != Lower(c.address) then Some(SignatureMismatch)
    else if record.None? then Some(BookUnavailable)
    else if !record.value.registered || record.value.humanId.None? then Some(Unregistered)
    else if record.value.revoked then Some(RevokedRecord)
    else None
  }

  /** Everything checked before the nonce, in order; None when the nonce is all that is left. */
  function Refusal(cfg: Config, read: Reader, p: Presented, now: nat): Option<Failure> {
    match p
    case NoProof => Some(NoProofPresented)
    case BadEnvelope => Some(ProofMalformed)
    case Proof(message, uriOk, signer, record, storeUp) =>
      match read(message)
      case None => Some(ProofMalformed)
      case Some(c) =>
        match ClaimsFailure(cfg, c, uriOk)
        case Some(f) => Some(f)
        case None =>
          match TimeFailure(cfg, c, now)
          case Some(f) => Some(f)
          case None =>
            match IdentityFailure(c, signer, record)
            case Some(f) => Some(f)
            case None => if storeUp then None else Some(StoreUnavailable)
  }

  /** A message's nonce and how long it has to be remembered. */
  function Spending(c: Claims, now: nat): Op
    requires c.chainId.Some? && c.expiration.Some? && c.expiration.value.Some? && c.expiration.value.value >= 0
  {
    Consume(NonceKey(c.chainId.value, Lower(c.address), c.nonce), c.expiration.value.value, now)
  }

  /** What a proof that passes every other check spends. */
  lemma PassingSpends(cfg: Config, read: Reader, p: Presented, now: nat)
    requires Refusal(cfg, read, p, now) == None
    ensures p.Proof? && read(p.message).Some?
            && var c := read(p.message).value;
               c.chainId.Some? && c.expiration.Some? && c.expiration.value.Some? && c.expiration.value.value > now
               && p.signer == Some(Lower(c.address)) && p.record.Some? && p.record.value.humanId.Some?
  {
  }

  function OpOf(cfg: Config, read: Reader, p: Presented, now: nat): Op
    requires Refusal(cfg, read, p, now) == None
  {
    PassingSpends(cfg, read, p, now);
    Spending(read(p.message).value, now)
  }

  function Granted(cfg: Config, read: Reader, p: Presented, now: nat): Verdict
    requires Refusal(cfg, read, p, now) == None
  {
    PassingSpends(cfg, read, p, now);
    var c := read(p.message).value;
    HumanBacked(Lower(c.address), c.chainId.value, p.record.value.humanId.value, c.expiration.value.value)
  }

  /** The whole verification, as one step on the store. */
  function Verify(cfg: Config, read: Reader, s: Store, batch: nat, p: Presented, now: nat): (Store, Verdict) {
    match Refusal(cfg, read, p, now)
    case Some(f) => (s, Anonymous(f))
    case None =>
      var (after, answer) := Handle(s, batch, OpOf(cfg, read, p, now));
      (after, if answer == Replayed then Anonymous(NonceReplayed) else Granted(cfg, read, p, now))
  }

  method VerifyNormalized(cfg: Config, read: Reader, storage: InMemoryTierStorage, p: Presented, now: nat)
    returns (v: Verdict)
    modifies storage
    ensures (storage.State(), v) == Verify(cfg, read, old(storage.State()), storage.sweepBatch, p, now)
  {
    var refusal := Refusal(cfg, read, p, now);
    if refusal.Some? { return Anonymous(refusal.value); }
    var op := OpOf(cfg, read, p, now);
    var answer := storage.ConsumeNonce(op.key, op.until, op.now);
    if answer == Replayed { return Anonymous(NonceReplayed); }
    v := Granted(cfg, read, p, now);
  }

  // ------------------------------------------------------------------ runs

  /** A proof presented, or any other call on the same store. */
  datatype Visit = Present(p: Presented, now: nat) | Other(op: Op)

  function VisitTime(v: Visit): nat {
    match v case Present(_, now) => now case Other(op) => op.now
  }

  ghost predicate Timely(vs: seq<Visit>) {
    forall i, j :: 0 <= i <= j < |vs| ==> VisitTime(vs[i]) <= VisitTime(vs[j])
  }

  /** The calls a visit makes on the store: none when a check before the nonce fails. */
  function CallsOf(cfg: Config, read: Reader, v: Visit): seq<Op> {
    match v
    case Other(op) => [op]
    case Present(p, now) => if Refusal(cfg, read, p, now) == None then [OpOf(cfg, read, p, now)] else []
  }

  function Calls(cfg: Config, read: Reader, vs: seq<Visit>, n: nat): seq<Op>
    requires n <= |vs|
  {
    if n == 0 then [] else Calls(cfg, read, vs, n - 1) + CallsOf(cfg, read, vs[n - 1])
  }

  function VisitStep(cfg: Config, read: Reader, s: Store, batch: nat, v: Visit): Store {
    match v
    case Other(op) => Handle(s, batch, op).0
    case Present(p, now) => Verify(cfg, read, s, batch, p, now).0
  }

  function StoreAt(cfg: Config, read: Reader, batch: nat, vs: seq<Visit>, n: nat): Store
    requires n <= |vs|
  {
    if n == 0 then EMPTY else VisitStep(cfg, read, StoreAt(cfg, read, batch, vs, n - 1), batch, vs[n - 1])
  }

  /** The verdict on the proof presented at visit i of a run. */
  function VerdictAt(cfg: Config, read: Reader, batch: nat, vs: seq<Visit>, i: nat): Verdict
    requires i < |vs| && vs[i].Present?
  {
    Verify(cfg, read, StoreAt(cfg, read, batch, vs, i), batch, vs[i].p, vs[i].now).1
  }

  lemma AfterPush(batch: nat, ops: seq<Op>, op: Op)
    ensures After(batch, ops + [op]) == Handle(After(batch, ops), batch, op).0
  {
    assert (ops + [op])[..|ops|] == ops;
  }

  lemma AfterNone(batch: nat)
    ensures After(batch, []) == EMPTY
  {
  }

  /** One visit does to the store what its calls do. */
  lemma VisitCalls(cfg: Config, read: Reader, batch: nat, ops: seq<Op>, v: Visit)
    ensures VisitStep(cfg, read, After(batch, ops), batch, v) == After(batch, ops + CallsOf(cfg, read, v))
  {
    hide Refusal, OpOf, Handle, Granted, After;
    var more := CallsOf(cfg, read, v);
    if more == [] { assert ops + more == ops; } else { AfterPush(batch, ops, more[0]); }
  }

  lemma {:induction false} StoreFollows(cfg: Config, read: Reader, batch: nat, vs: seq<Visit>, n: nat)
    requires n <= |vs|
    ensures StoreAt(cfg, read, batch, vs, n) == After(batch, Calls(cfg, read, vs, n))
    decreases n
  {
    hide VisitStep, CallsOf, After;
    if n == 0 {
      AfterNone(batch);
    } else {
      StoreFollows(cfg, read, batch, vs, n - 1);
      VisitCalls(cfg, read, batch, Calls(cfg, read, vs, n - 1), vs[n - 1]);
    }
  }

  lemma {:induction false} CallsPrefix(cfg: Config, read: Reader, vs: seq<Visit>, i: nat, n: nat)
    requires i <= n <= |vs|
    ensures Calls(cfg, read, vs, i) <= Calls(cfg, read, vs, n)
    decreases n
  {
    if i < n { CallsPrefix(cfg, read, vs, i, n - 1); }
  }

  lemma {:induction false} CallsTimed(cfg: Config, read: Reader, vs: seq<Visit>, n: nat)
    requires n <= |vs| && Timely(vs)
    ensures InOrder(Calls(cfg, read, vs, n))
    ensures forall op :: op in Calls(cfg, read, vs, n) ==> n > 0 && op.now <= VisitTime(vs[n - 1])
    decreases n
  {
    if n > 0 { CallsTimed(cfg, read, vs, n - 1); }
  }

  lemma CallsStep(cfg: Config, read: Reader, vs: seq<Visit>, i: nat)
    requires i < |vs| && vs[i].Present? && Refusal(cfg, read, vs[i].p, vs[i].now) == None
    ensures Calls(cfg, read, vs, i + 1) == Calls(cfg, read, vs, i) + [OpOf(cfg, read, vs[i].p, vs[i].now)]
  {
    hide Refusal, OpOf;
  }

  /** A proof that passes every other check gets its verdict from its place in the run's calls. */
  lemma VerdictIs(cfg: Config, read: Reader, batch: nat, vs: seq<Visit>, i: nat, n: nat)
    requires i < n <= |vs| && vs[i].Present? && Refusal(cfg, read, vs[i].p, vs[i].now) == None
    ensures var ops, at := Calls(cfg, read, vs, n), |Calls(cfg, read, vs, i)|;
            && at < |ops| && ops[at] == OpOf(cfg, read, vs[i].p, vs[i].now)
            && (VerdictAt(cfg, read, batch, vs, i).HumanBacked? <==> AnswerAt(batch, ops, at) != Replayed)
  {
    hide Refusal, OpOf, Handle, StoreAt, After, Calls;
    CallsPrefix(cfg, read, vs, i + 1, n);
    CallsStep(cfg, read, vs, i);
    StoreFollows(cfg, read, batch, vs, i);
    var ops, at := Calls(cfg, read, vs, n), |Calls(cfg, read, vs, i)|;
    assert ops[..at] == Calls(cfg, read, vs, i);
  }

  /** A proof is human-backed exactly when every other check passes and its nonce is not spent
      beyond this moment; a proof that fails any check spends nothing. */
  lemma HumanBackedExactly(cfg: Config, read: Reader, batch: nat, vs: seq<Visit>, i: nat)
    requires Timely(vs) && i < |vs| && vs[i].Present?
    ensures VerdictAt(cfg, read, batch, vs, i).HumanBacked? <==>
            Refusal(cfg, read, vs[i].p, vs[i].now) == None
            && var op := OpOf(cfg, read, vs[i].p, vs[i].now);
               !Spent(batch, Calls(cfg, read, vs, |vs|), |Calls(cfg, read, vs, i)|, op.key, op.now)
    ensures Refusal(cfg, read, vs[i].p, vs[i].now) != None ==>
            StoreAt(cfg, read, batch, vs, i + 1) == StoreAt(cfg, read, batch, vs, i)
  {
    if Refusal(cfg, read, vs[i].p, vs[i].now) == None {
      VerdictIs(cfg, read, batch, vs, i, |vs|);
      CallsTimed(cfg, read, vs, |vs|);
      ReplayedExactly(batch, Calls(cfg, read, vs, |vs|), |Calls(cfg, read, vs, i)|);
    }
  }

  /** One signed message is human-backed at most once over any run, however often it is sent,
      whatever else the store is asked and whatever batches it sweeps in. */
  lemma ProofUsedOnce(cfg: Config, read: Reader, batch: nat, vs: seq<Visit>, i: nat, j: nat)
    requires Timely(vs) && i < j < |vs| && vs[i].Present? && vs[j].Present?
    requires vs[i].p.Proof? && vs[j].p.Proof? && vs[i].p.message == vs[j].p.message
    requires VerdictAt(cfg, read, batch, vs, i).HumanBacked?
    ensures !VerdictAt(cfg, read, batch, vs, j).HumanBacked?
  {
    if Refusal(cfg, read, vs[j].p, vs[j].now) == None {
      var n := |vs|;
      var ops, a, b := Calls(cfg, read, vs, n), |Calls(cfg, read, vs, i)|, |Calls(cfg, read, vs, j)|;
      VerdictIs(cfg, read, batch, vs, i, n);
      VerdictIs(cfg, read, batch, vs, j, n);
      VerdictIs(cfg, read, batch, vs, i, j);
      CallsTimed(cfg, read, vs, n);
      PassingSpends(cfg, read, vs[j].p, vs[j].now);
      ReplayedExactly(batch, ops, a);
      ReplayedExactly(batch, ops, b);
      assert SpentBeyond(batch, ops, a, ops[b].key, ops[b].now);
    }
  }
}
