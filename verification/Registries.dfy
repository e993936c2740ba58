/** The ERC-8004 registries' index: feedback and validation rows, and the counts and sums kept
    beside them for each agent, client, validator and the registry as a whole. Scores are exact,
    in units of 10^-18; averages are exact quotients. */
module Registries {
  import opened Numbers

  type Addr = string
  type FeedbackId = (nat, Addr, nat)

  const MAX_VALUE_DECIMALS := 18

  datatype Feedback = Feedback(agent: nat, client: Addr, score: int, revoked: bool, responses: nat)

  /** response is None while the request is outstanding. */
  datatype Validation = Validation(agent: nat, validator: Addr, response: Option<nat>)

  datatype Scores = Scores(given: int, active: int, revoked: int, sum: int, average: real)

  datatype Answers = Answers(requested: int, responded: int, sum: int, average: real)

  const NO_SCORES := Scores(0, 0, 0, 0, 0.0)
  const NO_ANSWERS := Answers(0, 0, 0, 0.0)

  datatype Agent = Agent(scores: Scores, answers: Answers)

  const NEW_AGENT := Agent(NO_SCORES, NO_ANSWERS)

  datatype Client = Client(given: int, active: int, revoked: int, agentsRated: int)

  const NEW_CLIENT := Client(0, 0, 0, 0)

  datatype Index = Index(agents: map<nat, Agent>, clients: map<Addr, Client>, validators: map<Addr, Answers>,
                         feedbacks: map<FeedbackId, Feedback>, validations: map<string, Validation>,
                         scores: Scores, answers: Answers, appended: int,
                         agentCount: int, clientCount: int, validatorCount: int)

  const EMPTY := Index(map[], map[], map[], map[], map[], NO_SCORES, NO_ANSWERS, 0, 0, 0, 0)

  // ------------------------------------------------------------------ arithmetic

  function Pow10(n: nat): nat {
    if n == 0 then 1 else 10 * Pow10(n - 1)
  }

  function Clamped(decimals: int): nat {
    if decimals < 0 then 0 else if decimals > MAX_VALUE_DECIMALS then MAX_VALUE_DECIMALS else decimals
  }

  /** value / 10^decimals, in units of 10^-18. */
  function ScaleValue(value: int, decimals: int): int {
    value * Pow10(MAX_VALUE_DECIMALS - Clamped(decimals))
  }

  /** The divisor, one multiplication at a time. */
  method Exponent(decimals: nat) returns (result: nat)
    ensures result == Pow10(decimals)
  {
    result := 1;
    for n := 0 to decimals
      invariant result == Pow10(n)
    {
      result := result * 10;
    }
  }

  lemma {:induction false} Pow10Adds(m: nat, n: nat)
    ensures Pow10(m + n) == Pow10(m) * Pow10(n)
    decreases m
  {
    if m > 0 {
      Pow10Adds(m - 1, n);
      assert Pow10(m + n) == 10 * (Pow10(m - 1) * Pow10(n));
    }
  }

  lemma {:induction false} Pow10Grows(m: nat, n: nat)
    requires m < n
    ensures 0 < Pow10(m) < Pow10(n)
    decreases n
  {
    if m + 1 < n {
      Pow10Grows(m, n - 1);
    } else if m > 0 {
      Pow10Grows(m - 1, m);
    }
  }

  lemma Pow10Same(m: nat, n: nat)
    ensures Pow10(m) == Pow10(n) <==> m == n
  {
    if m < n { Pow10Grows(m, n); }
    if m > n { Pow10Grows(n, m); }
  }

  lemma ScaledBy(value: int, decimals: int, k: nat)
    ensures ScaleValue(value * Pow10(k), decimals) == value * Pow10(k + MAX_VALUE_DECIMALS - Clamped(decimals))
  {
    Pow10Adds(k, MAX_VALUE_DECIMALS - Clamped(decimals));
    MulAssoc(value, Pow10(k), Pow10(MAX_VALUE_DECIMALS - Clamped(decimals)));
  }

  /** One score posted with k more decimals is stored as one score exactly when both fit the eighteen
      kept, or there is nothing to tell apart: past eighteen, and below none, decimals are cut
      off and the scores come apart. */
  lemma ScaleIsUniform(value: int, decimals: int, k: nat)
    ensures ScaleValue(value * Pow10(k), decimals + k) == ScaleValue(value, decimals) <==>
            value == 0 || k == 0 || (0 <= decimals && decimals + k <= MAX_VALUE_DECIMALS)
  {
    hide Pow10;
    var left, right := k + MAX_VALUE_DECIMALS - Clamped(decimals + k), MAX_VALUE_DECIMALS - Clamped(decimals);
    ScaledBy(value, decimals + k, k);
    Pow10Same(left, right);
    MulSame(value, Pow10(left), Pow10(right));
  }

  lemma MulSame(value: int, a: int, b: int)
    ensures value * a == value * b <==> value == 0 || a == b
  {
    if value > 0 && a != b { MulApart(value, a, b); }
    if value < 0 && a != b { MulApart(-value, a, b); }
  }

  lemma MulApart(value: int, a: int, b: int)
    requires value > 0 && a != b
    ensures value * a != value * b && (-value) * a != (-value) * b
  {
    if a < b { MulMono(a + 1, b, value); } else { MulMono(b + 1, a, value); }
  }

  lemma MulAssoc(a: int, b: int, c: int)
    ensures a * b * c == a * (b * c)
  {
  }

  function Average(sum: int, count: int): real {
    if count == 0 then 0.0 else sum as real / count as real
  }

  // ------------------------------------------------------------------ one more, one fewer

  function ScoreAdded(s: Scores, score: int): Scores {
    Scores(s.given + 1, s.active + 1, s.revoked, s.sum + score, Average(s.sum + score, s.active + 1))
  }

  function ScoreRevoked(s: Scores, score: int): Scores {
    Scores(s.given, s.active - 1, s.revoked + 1, s.sum - score, Average(s.sum - score, s.active - 1))
  }

  function RequestAdded(a: Answers): Answers {
    a.(requested := a.requested + 1)
  }

  /** Answers after one more: a first adds to the count, a later one only corrects the sum. */
  function ResponseAdded(a: Answers, was: Option<nat>, value: nat): Answers {
    match was
    case None => a.(responded := a.responded + 1, sum := a.sum + value, average := Average(a.sum + value, a.responded + 1))
    case Some(prior) => a.(sum := a.sum - prior + value, average := Average(a.sum - prior + value, a.responded))
  }

  // ------------------------------------------------------------------ entities

  function AgentOf(x: Index, a: nat): Agent {
    if a in x.agents then x.agents[a] else NEW_AGENT
  }

  function ClientOf(x: Index, c: Addr): Client {
    if c in x.clients then x.clients[c] else NEW_CLIENT
  }

  function ValidatorOf(x: Index, v: Addr): Answers {
    if v in x.validators then x.validators[v] else NO_ANSWERS
  }

  function WithAgent(x: Index, a: nat): (y: Index)
    ensures a in y.agents && y == x.(agents := y.agents, agentCount := y.agentCount)
  {
    if a in x.agents then x else x.(agents := x.agents[a := NEW_AGENT], agentCount := x.agentCount + 1)
  }

  function WithClient(x: Index, c: Addr): (y: Index)
    ensures c in y.clients && y == x.(clients := y.clients, clientCount := y.clientCount)
  {
    if c in x.clients then x else x.(clients := x.clients[c := NEW_CLIENT], clientCount := x.clientCount + 1)
  }

  /** Meeting a client reads and changes nothing but the clients. */
  lemma ClientApart(x: Index, y: Index, c: Addr)
    requires y.clients == x.clients && y.clientCount == x.clientCount
    ensures WithClient(y, c) == y.(clients := WithClient(x, c).clients, clientCount := WithClient(x, c).clientCount)
  {
  }

  function WithValidator(x: Index, v: Addr): (y: Index)
    ensures v in y.validators && y == x.(validators := y.validators, validatorCount := y.validatorCount)
  {
    if v in x.validators then x else x.(validators := x.validators[v := NO_ANSWERS], validatorCount := x.validatorCount + 1)
  }

  // ------------------------------------------------------------------ handlers

  /** A new entry, its agent and client at hand; index 1 is the client's first for the agent. */
  function Given(y: Index, a: nat, c: Addr, index: nat, score: int): Index
    requires a in y.agents && c in y.clients
  {
    var agent, client := y.agents[a], y.clients[c];
    y.(feedbacks := y.feedbacks[(a, c, index) := Feedback(a, c, score, false, 0)],
       clients := y.clients[c := client.(agentsRated := client.agentsRated + (if index == 1 then 1 else 0),
                                         given := client.given + 1, active := client.active + 1)],
       agents := y.agents[a := agent.(scores := ScoreAdded(agent.scores, score))],
       scores := ScoreAdded(y.scores, score))
  }

  function HandleNewFeedback(x: Index, a: nat, c: Addr, index: nat, value: int, decimals: int): Index {
    Given(WithClient(WithAgent(x, a), c), a, c, index, ScaleValue(value, decimals))
  }

  /** Revocation flips a flag and takes the stored score back out. */
  function TakenBack(y: Index, a: nat, c: Addr, id: FeedbackId): Index
    requires a in y.agents && id in y.feedbacks
  {
    var z, f := WithClient(y, c), y.feedbacks[id];
    var agent, client := z.agents[a], z.clients[c];
    z.(feedbacks := z.feedbacks[id := f.(revoked := true)],
       agents := z.agents[a := agent.(scores := ScoreRevoked(agent.scores, f.score))],
       clients := z.clients[c := client.(active := client.active - 1, revoked := client.revoked + 1)],
       scores := ScoreRevoked(z.scores, f.score))
  }

  /** A revocation of an entry never seen, or revoked before, changes nothing. */
  function HandleFeedbackRevoked(x: Index, a: nat, c: Addr, index: nat): Index {
    var y, id := WithAgent(x, a), (a, c, index);
    if id !in y.feedbacks || y.feedbacks[id].revoked then y else TakenBack(y, a, c, id)
  }

  /** A response to an entry, kept as a row of its own. */
  datatype Response = Response(to: FeedbackId, responder: Addr)

  /** The response rows in chain order, after one to this entry; one to an entry never seen is dropped. */
  function Responses(rows: seq<Response>, x: Index, a: nat, c: Addr, index: nat, responder: Addr): seq<Response> {
    if (a, c, index) in x.feedbacks then rows + [Response((a, c, index), responder)] else rows
  }

  /** The revocation of an entry that is there and still active. */
  predicate Revokes(x: Index, a: nat, c: Addr, index: nat) {
    (a, c, index) in x.feedbacks && !x.feedbacks[(a, c, index)].revoked
  }

  /** The first answer to a request that is there. */
  predicate FirstResponse(x: Index, hash: string) {
    hash in x.validations && x.validations[hash].response.None?
  }

  function HandleResponseAppended(x: Index, a: nat, c: Addr, index: nat): Index {
    var y, id := WithAgent(x, a), (a, c, index);
    if id !in y.feedbacks then y
    else
      y.(feedbacks := y.feedbacks[id := y.feedbacks[id].(responses := y.feedbacks[id].responses + 1)],
         appended := y.appended + 1)
  }

  function HandleValidationRequest(x: Index, a: nat, v: Addr, hash: string): Index {
    var y := WithValidator(WithAgent(x, a), v);
    y.(validations := y.validations[hash := Validation(a, v, None)],
       validators := y.validators[v := RequestAdded(y.validators[v])],
       agents := y.agents[a := y.agents[a].(answers := RequestAdded(y.agents[a].answers))],
       answers := RequestAdded(y.answers))
  }

  /** An answer, its agent and validator at hand. */
  function Answered(y: Index, a: nat, v: Addr, was: Option<nat>, value: nat): Index
    requires a in y.agents && v in y.validators
  {
    y.(validators := y.validators[v := ResponseAdded(y.validators[v], was, value)],
       agents := y.agents[a := y.agents[a].(answers := ResponseAdded(y.agents[a].answers, was, value))],
       answers := ResponseAdded(y.answers, was, value))
  }

  /** A response to a request never seen is dropped. */
  function HandleValidationResponse(x: Index, a: nat, v: Addr, hash: string, value: nat): Index {
    if hash !in x.validations then x
    else
      var was := x.validations[hash];
      var y := WithAgent(WithValidator(x.(validations := x.validations[hash := was.(response := Some(value))]), v), a);
      Answered(y, a, v, was.response, value)
  }

  // ------------------------------------------------------------------ day rows

  /** What one day counted, and how many agents there were when it was last touched. */
  datatype Day = Day(registered: int, given: int, revoked: int, requested: int, responded: int, totalAgents: int)

  type Days = map<nat, Day>

  datatype Count = RegisteredCount | GivenCount | RevokedCount | RequestedCount | RespondedCount

  const NEW_DAY := Day(0, 0, 0, 0, 0, 0)
  const SECONDS_PER_DAY := 86_400

  /** The start of the day a time falls in. */
  function DayOf(time: nat): nat {
    time / SECONDS_PER_DAY * SECONDS_PER_DAY
  }

  function DayAt(days: Days, start: nat): Day {
    if start in days then days[start] else NEW_DAY
  }

  function OneMore(d: Day, c: Count): Day {
    match c
    case RegisteredCount => d.(registered := d.registered + 1)
    case GivenCount => d.(given := d.given + 1)
    case RevokedCount => d.(revoked := d.revoked + 1)
    case RequestedCount => d.(requested := d.requested + 1)
    case RespondedCount => d.(responded := d.responded + 1)
  }

  function Counted(days: Days, c: Count, agents: int, time: nat): Days {
    days[DayOf(time) := OneMore(DayAt(days, DayOf(time)), c).(totalAgents := agents)]
  }

  // ------------------------------------------------------------------ the same in place

  class RegistryIndex {
    var agents: map<nat, Agent>
    var clients: map<Addr, Client>
    var validators: map<Addr, Answers>
    var feedbacks: map<FeedbackId, Feedback>
    var validations: map<string, Validation>
    var scores: Scores
    var answers: Answers
    var appended: int
    var agentCount: int
    var clientCount: int
    var validatorCount: int
    var days: Days
    var responses: seq<Response>

    function State(): Index
      reads this
    {
      Index(agents, clients, validators, feedbacks, validations, scores, answers, appended,
            agentCount, clientCount, validatorCount)
    }

    constructor ()
      ensures State() == EMPTY && days == map[] && responses == []
    {
      days, responses := map[], [];
      agents, clients, validators, feedbacks, validations := map[], map[], map[], map[], map[];
      scores, answers, appended := NO_SCORES, NO_ANSWERS, 0;
      agentCount, clientCount, validatorCount := 0, 0, 0;
    }

    /** One more of something on the day of `time`. */
    method CountDay(c: Count, time: nat)
      modifies `days
      ensures days == Counted(old(days), c, agentCount, time)
    {
      var start := DayOf(time);
      var day := if start in days then days[start] else NEW_DAY;
      days := days[start := OneMore(day, c).(totalAgents := agentCount)];
    }

    method GetOrCreateAgent(a: nat)
      modifies `agents, `agentCount
      ensures State() == WithAgent(old(State()), a)
    {
      if a in agents { return; }
      agents := agents[a := NEW_AGENT];
      agentCount := agentCount + 1;
    }

    method GetOrCreateClient(c: Addr)
      modifies `clients, `clientCount
      ensures State() == WithClient(old(State()), c)
    {
      if c in clients { return; }
      clients := clients[c := NEW_CLIENT];
      clientCount := clientCount + 1;
    }

    method GetOrCreateValidator(v: Addr)
      modifies `validators, `validatorCount
      ensures State() == WithValidator(old(State()), v)
    {
      if v in validators { return; }
      validators := validators[v := NO_ANSWERS];
      validatorCount := validatorCount + 1;
    }

    method OnRegistered(a: nat, time: nat)
      modifies this
      ensures responses == old(responses)
      ensures State() == WithAgent(old(State()), a)
      ensures days == Counted(old(days), RegisteredCount, agentCount, time)
    {
      GetOrCreateAgent(a);
      CountDay(RegisteredCount, time);
    }

    method OnNewFeedback(a: nat, c: Addr, index: nat, value: int, decimals: int, time: nat)
      modifies this
      ensures responses == old(responses)
      ensures State() == HandleNewFeedback(old(State()), a, c, index, value, decimals)
      ensures days == Counted(old(days), GivenCount, agentCount, time)
    {
      hide WithAgent, WithClient, Given, ScaleValue, Counted;
      GetOrCreateAgent(a);
      GetOrCreateClient(c);
      Give(a, c, index, ScaleValue(value, decimals));
      CountDay(GivenCount, time);
    }

    method Give(a: nat, c: Addr, index: nat, score: int)
      requires a in agents && c in clients
      modifies `feedbacks, `clients, `agents, `scores
      ensures State() == Given(old(State()), a, c, index, score)
    {
      hide ScoreAdded;
      feedbacks := feedbacks[(a, c, index) := Feedback(a, c, score, false, 0)];
      var client := clients[c];
      if index == 1 { client := client.(agentsRated := client.agentsRated + 1); }
      clients := clients[c := client.(given := client.given + 1, active := client.active + 1)];
      agents := agents[a := agents[a].(scores := ScoreAdded(agents[a].scores, score))];
      scores := ScoreAdded(scores, score);
    }

    method OnFeedbackRevoked(a: nat, c: Addr, index: nat, time: nat)
      modifies this
      ensures responses == old(responses)
      ensures State() == HandleFeedbackRevoked(old(State()), a, c, index)
      ensures days == if Revokes(old(State()), a, c, index) then Counted(old(days), RevokedCount, agentCount, time)
                      else old(days)
    {
      hide WithAgent, TakenBack, Counted;
      GetOrCreateAgent(a);
      var id := (a, c, index);
      if id !in feedbacks || feedbacks[id].revoked { return; }
      TakeBack(a, c, id);
      CountDay(RevokedCount, time);
    }

    method TakeBack(a: nat, c: Addr, id: FeedbackId)
      requires a in agents && id in feedbacks
      modifies `feedbacks, `agents, `clients, `clientCount, `scores
      ensures State() == TakenBack(old(State()), a, c, id)
    {
      hide WithClient, ScoreRevoked;
      ghost var w := State();
      var f := feedbacks[id];
      feedbacks := feedbacks[id := f.(revoked := true)];
      agents := agents[a := agents[a].(scores := ScoreRevoked(agents[a].scores, f.score))];
      ClientApart(w, State(), c);
      GetOrCreateClient(c);
      clients := clients[c := clients[c].(active := clients[c].active - 1, revoked := clients[c].revoked + 1)];
      scores := ScoreRevoked(scores, f.score);
    }

    method OnResponseAppended(a: nat, c: Addr, index: nat, responder: Addr)
      modifies this
      ensures State() == HandleResponseAppended(old(State()), a, c, index) && days == old(days)
      ensures responses == Responses(old(responses), old(State()), a, c, index, responder)
    {
      GetOrCreateAgent(a);
      var id := (a, c, index);
      if id !in feedbacks { return; }
      feedbacks := feedbacks[id := feedbacks[id].(responses := feedbacks[id].responses + 1)];
      responses := responses + [Response(id, responder)];
      appended := appended + 1;
    }

    method OnValidationRequest(a: nat, v: Addr, hash: string, time: nat)
      modifies this
      ensures responses == old(responses)
      ensures State() == HandleValidationRequest(old(State()), a, v, hash)
      ensures days == Counted(old(days), RequestedCount, agentCount, time)
    {
      hide WithAgent, WithValidator, Counted;
      GetOrCreateAgent(a);
      GetOrCreateValidator(v);
      validations := validations[hash := Validation(a, v, None)];
      validators := validators[v := RequestAdded(validators[v])];
      agents := agents[a := agents[a].(answers := RequestAdded(agents[a].answers))];
      answers := RequestAdded(answers);
      CountDay(RequestedCount, time);
    }

    method OnValidationResponse(a: nat, v: Addr, hash: string, value: nat, time: nat)
      modifies this
      ensures responses == old(responses)
      ensures State() == HandleValidationResponse(old(State()), a, v, hash, value)
      ensures days == if FirstResponse(old(State()), hash) then Counted(old(days), RespondedCount, agentCount, time)
                      else old(days)
    {
      hide Answered, WithAgent, WithValidator, Counted;
      if hash !in validations { return; }
      var was := validations[hash].response;
      validations := validations[hash := validations[hash].(response := Some(value))];
      GetOrCreateValidator(v);
      GetOrCreateAgent(a);
      Answer(a, v, was, value);
      if was.None? { CountDay(RespondedCount, time); }
    }

    method Answer(a: nat, v: Addr, was: Option<nat>, value: nat)
      requires a in agents && v in validators
      modifies `validators, `agents, `answers
      ensures State() == Answered(old(State()), a, v, was, value)
    {
      hide ResponseAdded;
      validators := validators[v := ResponseAdded(validators[v], was, value)];
      agents := agents[a := agents[a].(answers := ResponseAdded(agents[a].answers, was, value))];
      answers := ResponseAdded(answers, was, value);
    }
  }
}
