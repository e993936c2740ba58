/** What every stored feedback entry and validation says about the events that came before, told from
    the events alone. */
module RegistryHistory {
  import opened Numbers
  import opened Registries
  import opened RegistryRuns

  // ------------------------------------------------------------------ a run, event by event

  /** The registries after the first n events. */
  function At(es: seq<Event>, n: nat): Index
    requires n <= |es|
  {
    RunFrom(EMPTY, es[..n])
  }

  lemma {:induction false} RunOn(x: Index, es: seq<Event>, e: Event)
    ensures RunFrom(x, es + [e]) == Handle(RunFrom(x, es), e)
    ensures CanRun(x, es + [e]) <==> CanRun(x, es) && CanHappen(RunFrom(x, es), e)
    decreases |es|
  {
    hide Handle, CanHappen;
    if es == [] {
      assert ([] + [e])[1..] == [];
    } else {
      RunOn(Handle(x, es[0]), es[1..], e);
      assert (es + [e])[1..] == es[1..] + [e];
    }
  }

  lemma {:induction false} PrefixRuns(es: seq<Event>, n: nat)
    requires CanRun(EMPTY, es) && n <= |es|
    ensures CanRun(EMPTY, es[..n])
    decreases |es| - n
  {
    hide CanRun, Handle, CanHappen;
    if n == |es| {
      assert es[..n] == es;
    } else {
      PrefixRuns(es, n + 1);
      RunOn(EMPTY, es[..n], es[n]);
      assert es[..n + 1] == es[..n] + [es[n]];
    }
  }

  lemma Step(es: seq<Event>, n: nat)
    requires CanRun(EMPTY, es) && n < |es|
    ensures CanHappen(At(es, n), es[n]) && At(es, n + 1) == Handle(At(es, n), es[n])
  {
    hide CanRun, Handle, CanHappen;
    PrefixRuns(es, n + 1);
    RunOn(EMPTY, es[..n], es[n]);
    assert es[..n + 1] == es[..n] + [es[n]];
  }

  // ------------------------------------------------------------------ feedback

  predicate Gives(e: Event, id: FeedbackId) {
    e.NewFeedback? && (e.a, e.c, e.index) == id
  }

  predicate TakesBack(e: Event, id: FeedbackId) {
    e.FeedbackRevoked? && (e.a, e.c, e.index) == id
  }

  predicate Answers(e: Event, id: FeedbackId) {
    e.ResponseAppended? && (e.a, e.c, e.index) == id
  }

  ghost predicate TakenBackAfter(es: seq<Event>, k: nat, n: nat, id: FeedbackId)
    requires n <= |es|
  {
    exists j :: k < j < n && TakesBack(es[j], id)
  }

  function AnsweredAfter(es: seq<Event>, k: nat, n: nat, id: FeedbackId): nat
    requires n <= |es|
    decreases n
  {
    if n <= k + 1 then 0 else AnsweredAfter(es, k, n - 1, id) + if Answers(es[n - 1], id) then 1 else 0
  }

  function Tens(n: nat): nat {
    if n == 0 then 1 else Tens(n - 1) * 10
  }

  /** score, in units of 10^-18, is the value with that many decimals; more than eighteen are read as
      eighteen, and fewer than none as none. */
  ghost predicate Scores18(score: int, value: int, decimals: int) {
    if decimals < 0 then score == value * 1_000_000_000_000_000_000
    else if decimals > 18 then score == value
    else score * Tens(decimals) == value * 1_000_000_000_000_000_000
  }

  lemma {:induction false} TensIs(n: nat)
    ensures Tens(n) == Pow10(n)
  {
    if n > 0 { TensIs(n - 1); }
  }

  lemma Eighteen()
    ensures Pow10(18) == 1_000_000_000_000_000_000
  {
    assert Pow10(3) == 1000;
    Pow10Adds(3, 3);
    Pow10Adds(6, 6);
    Pow10Adds(12, 6);
  }

  lemma ScaledScores(value: int, decimals: int)
    ensures Scores18(ScaleValue(value, decimals), value, decimals)
  {
    hide Pow10;
    Eighteen();
    if 0 <= decimals <= 18 {
      TensIs(decimals);
      Pow10Adds(18 - decimals, decimals);
      MulAssoc(value, Pow10(18 - decimals), Pow10(decimals));
    } else if decimals > 18 {
      NoTens();
    }
  }

  lemma NoTens()
    ensures Pow10(0) == 1
  {
  }

  /** f is what the first n events made of the entry given at event k. */
  ghost predicate EntryTells(es: seq<Event>, k: nat, n: nat, f: Feedback)
    requires k < n <= |es| && es[k].NewFeedback?
  {
    var e := es[k];
    var id := (e.a, e.c, e.index);
    && f.agent == e.a && f.client == e.c && Scores18(f.score, e.value, e.decimals)
    && (f.revoked <==> TakenBackAfter(es, k, n, id))
    && f.responses == AnsweredAfter(es, k, n, id)
  }

  lemma EntryOnce(es: seq<Event>, k: nat, n: nat, id: FeedbackId)
    requires k < n < |es|
    ensures TakenBackAfter(es, k, n + 1, id) <==> TakenBackAfter(es, k, n, id) || TakesBack(es[n], id)
  {
    hide TakesBack;
  }

  lemma EntryStep(x: Index, e: Event, id: FeedbackId)
    requires id in x.feedbacks && CanHappen(x, e)
    ensures var f, y := x.feedbacks[id], Handle(x, e);
            && id in y.feedbacks
            && y.feedbacks[id] == f.(revoked := f.revoked || TakesBack(e, id),
                 responses := f.responses + if Answers(e, id) then 1 else 0)
  {
    hide ScaleValue, Average, Pair;
  }

  lemma EntryGiven(x: Index, e: Event)
    requires e.NewFeedback?
    ensures var y, id := Handle(x, e), (e.a, e.c, e.index);
            id in y.feedbacks && y.feedbacks[id] == Feedback(e.a, e.c, ScaleValue(e.value, e.decimals), false, 0)
  {
    hide ScaleValue, Average;
  }

  /** After any run an entry is what the events made of it: of the agent and client it names, scored
      with eighteen decimals, revoked if and only if it was revoked since, and with every response to
      it since counted. */
  lemma {:induction false} FeedbackTells(es: seq<Event>, k: nat, n: nat)
    requires CanRun(EMPTY, es) && k < n <= |es| && es[k].NewFeedback?
    ensures var id, x := (es[k].a, es[k].c, es[k].index), At(es, n);
            id in x.feedbacks && EntryTells(es, k, n, x.feedbacks[id])
    decreases n
  {
    hide At, Handle, CanHappen, CanRun, ScaleValue, Scores18, TakenBackAfter;
    var id := (es[k].a, es[k].c, es[k].index);
    if n == k + 1 {
      Step(es, k);
      EntryGiven(At(es, k), es[k]);
      ScaledScores(es[k].value, es[k].decimals);
      NoneTaken(es, k, id);
    } else {
      FeedbackTells(es, k, n - 1);
      Step(es, n - 1);
      EntryStep(At(es, n - 1), es[n - 1], id);
      EntryOnce(es, k, n - 1, id);
    }
  }

  lemma NoneTaken(es: seq<Event>, k: nat, id: FeedbackId)
    requires k < |es|
    ensures !TakenBackAfter(es, k, k + 1, id)
  {
  }

  /** An entry is there if and only if it was given. */
  lemma {:induction false} FeedbackThereIff(es: seq<Event>, n: nat, id: FeedbackId)
    requires CanRun(EMPTY, es) && n <= |es|
    ensures id in At(es, n).feedbacks <==> exists k :: 0 <= k < n && Gives(es[k], id)
    decreases n
  {
    hide At, Handle, CanHappen, CanRun, Gives;
    if n == 0 {
      NothingAtFirst(es);
    } else {
      FeedbackThereIff(es, n - 1, id);
      Step(es, n - 1);
      FeedbackKeys(At(es, n - 1), es[n - 1], id);
    }
  }

  lemma NothingAtFirst(es: seq<Event>)
    ensures At(es, 0) == EMPTY
  {
  }

  lemma FeedbackKeys(x: Index, e: Event, id: FeedbackId)
    ensures id in Handle(x, e).feedbacks <==> id in x.feedbacks || Gives(e, id)
  {
    hide ScaleValue, Average;
  }

  // ------------------------------------------------------------------ validations

  predicate Requests(e: Event, hash: string) {
    e.ValidationRequest? && e.hash == hash
  }

  predicate Responds(e: Event, hash: string) {
    e.ValidationResponse? && e.hash == hash
  }

  /** The last response to a request since event k. */
  function LastResponse(es: seq<Event>, k: nat, n: nat, hash: string): Option<nat>
    requires n <= |es|
    decreases n
  {
    if n <= k + 1 then None
    else if Responds(es[n - 1], hash) then Some(es[n - 1].answer)
    else LastResponse(es, k, n - 1, hash)
  }

  lemma ValidationStep(x: Index, e: Event, hash: string)
    requires hash in x.validations && CanHappen(x, e)
    ensures var v, y := x.validations[hash], Handle(x, e);
            && hash in y.validations
            && y.validations[hash] == v.(response := if Responds(e, hash) then Some(e.answer) else v.response)
  {
    hide ScaleValue, Average, Pair;
  }

  lemma ValidationAsked(x: Index, e: Event)
    requires e.ValidationRequest?
    ensures e.hash in Handle(x, e).validations && Handle(x, e).validations[e.hash] == Validation(e.a, e.v, None)
  {
    hide Average;
  }

  lemma ValidationKeys(x: Index, e: Event, hash: string)
    ensures hash in Handle(x, e).validations <==> hash in x.validations || Requests(e, hash)
  {
    hide ScaleValue, Average;
  }

  /** After any run a validation is of the agent and validator its request named, and says what was
      last answered since. */
  lemma {:induction false} ValidationTells(es: seq<Event>, k: nat, n: nat)
    requires CanRun(EMPTY, es) && k < n <= |es| && es[k].ValidationRequest?
    ensures var x, e := At(es, n), es[k];
            e.hash in x.validations && x.validations[e.hash] == Validation(e.a, e.v, LastResponse(es, k, n, e.hash))
    decreases n
  {
    hide At, Handle, CanHappen, CanRun;
    if n == k + 1 {
      Step(es, k);
      ValidationAsked(At(es, k), es[k]);
    } else {
      ValidationTells(es, k, n - 1);
      Step(es, n - 1);
      ValidationStep(At(es, n - 1), es[n - 1], es[k].hash);
    }
  }

  /** A validation is there if and only if it was requested. */
  lemma {:induction false} ValidationThereIff(es: seq<Event>, n: nat, hash: string)
    requires CanRun(EMPTY, es) && n <= |es|
    ensures hash in At(es, n).validations <==> exists k :: 0 <= k < n && Requests(es[k], hash)
    decreases n
  {
    hide At, Handle, CanHappen, CanRun, Requests;
    if n == 0 {
      NothingAtFirst(es);
    } else {
      ValidationThereIff(es, n - 1, hash);
      Step(es, n - 1);
      ValidationKeys(At(es, n - 1), es[n - 1], hash);
    }
  }

  // ------------------------------------------------------------------ who is listed

  /** The event is about the agent; of responses to validations only one to a known request. */
  predicate Names(x: Index, e: Event, a: nat) {
    e.a == a && (e.ValidationResponse? ==> e.hash in x.validations)
  }

  lemma AgentKeys(x: Index, e: Event, a: nat)
    ensures a in Handle(x, e).agents <==> a in x.agents || Names(x, e, a)
  {
    hide ScaleValue, Average;
  }

  /** An agent is listed if and only if some event was about it. */
  lemma {:induction false} AgentThereIff(es: seq<Event>, n: nat, a: nat)
    requires CanRun(EMPTY, es) && n <= |es|
    ensures a in At(es, n).agents <==> exists k :: 0 <= k < n && Names(At(es, k), es[k], a)
    decreases n
  {
    hide At, Handle, CanHappen, CanRun, Names;
    if n == 0 {
      NothingAtFirst(es);
    } else {
      AgentThereIff(es, n - 1, a);
      Step(es, n - 1);
      AgentKeys(At(es, n - 1), es[n - 1], a);
    }
  }
}
