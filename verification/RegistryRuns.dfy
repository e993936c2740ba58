/** Whole runs of the registries: every count, sum and average is the recomputation over the
    stored rows, and the registry's totals are the sums over its agents. */
module RegistryRuns {
  import opened Numbers
  import opened Tallies
  import opened Registries

  type Feedbacks = map<FeedbackId, Feedback>
  type Validations = map<string, Validation>

  // ------------------------------------------------------------------ recomputation

  /** Which rows an aggregate is about. */
  datatype Scope = Everyone | OfAgent(a: nat) | OfParty(who: Addr)

  predicate Rates(f: Feedback, s: Scope) {
    match s case Everyone => true case OfAgent(a) => f.agent == a case OfParty(c) => f.client == c
  }

  predicate Asks(v: Validation, s: Scope) {
    match s case Everyone => true case OfAgent(a) => v.agent == a case OfParty(w) => v.validator == w
  }

  function GivenIn(s: Scope): Feedback -> int {
    (f: Feedback) => if Rates(f, s) then 1 else 0
  }

  function ActiveIn(s: Scope): Feedback -> int {
    (f: Feedback) => if Rates(f, s) && !f.revoked then 1 else 0
  }

  function RevokedIn(s: Scope): Feedback -> int {
    (f: Feedback) => if Rates(f, s) && f.revoked then 1 else 0
  }

  function ScoreIn(s: Scope): Feedback -> int {
    (f: Feedback) => if Rates(f, s) && !f.revoked then f.score else 0
  }

  function RequestedIn(s: Scope): Validation -> int {
    (v: Validation) => if Asks(v, s) then 1 else 0
  }

  function RespondedIn(s: Scope): Validation -> int {
    (v: Validation) => if Asks(v, s) && v.response.Some? then 1 else 0
  }

  function ResponseIn(s: Scope): Validation -> int {
    (v: Validation) => if Asks(v, s) && v.response.Some? then v.response.value else 0
  }

  const RESPONSES: Feedback -> int := (f: Feedback) => f.responses

  /** Counts by flag, the sum of the scores not revoked, and their mean. */
  ghost predicate ScoresAgree(x: Scores, rows: Feedbacks, s: Scope) {
    && x.given == Sum(rows, GivenIn(s)) && x.active == Sum(rows, ActiveIn(s)) && x.revoked == Sum(rows, RevokedIn(s))
    && x.sum == Sum(rows, ScoreIn(s)) && x.average == Average(x.sum, x.active)
  }

  /** Requests, those answered, the sum of each request's latest answer, and their mean. */
  ghost predicate AnswersAgree(x: Answers, rows: Validations, s: Scope) {
    && x.requested == Sum(rows, RequestedIn(s)) && x.responded == Sum(rows, RespondedIn(s))
    && x.sum == Sum(rows, ResponseIn(s)) && x.average == Average(x.sum, x.responded)
  }

  /** The agents a client has rated. */
  ghost function RatedBy(rows: Feedbacks, c: Addr): set<nat> {
    set id | id in rows && id.1 == c :: id.0
  }

  ghost predicate ClientAgrees(x: Client, rows: Feedbacks, c: Addr) {
    && x.given == Sum(rows, GivenIn(OfParty(c))) && x.active == Sum(rows, ActiveIn(OfParty(c)))
    && x.revoked == Sum(rows, RevokedIn(OfParty(c))) && x.agentsRated == |RatedBy(rows, c)|
  }

  ghost predicate FeedbackAgrees(x: Index) {
    && (forall a :: ScoresAgree(AgentOf(x, a).scores, x.feedbacks, OfAgent(a)))
    && (forall c :: ClientAgrees(ClientOf(x, c), x.feedbacks, c))
    && ScoresAgree(x.scores, x.feedbacks, Everyone)
    && x.appended == Sum(x.feedbacks, RESPONSES)
  }

  ghost predicate ValidationAgrees(x: Index) {
    && (forall a :: AnswersAgree(AgentOf(x, a).answers, x.validations, OfAgent(a)))
    && (forall v :: AnswersAgree(ValidatorOf(x, v), x.validations, OfParty(v)))
    && AnswersAgree(x.answers, x.validations, Everyone)
  }

  /** Rows are stored under their own keys, and everyone they name is listed and counted. */
  ghost predicate Listed(x: Index) {
    && (forall id :: id in x.feedbacks ==> FeedbackListed(x, id))
    && (forall h :: h in x.validations ==> ValidationListed(x, h))
    && x.agentCount == |x.agents| && x.clientCount == |x.clients| && x.validatorCount == |x.validators|
  }

  ghost predicate FeedbackListed(x: Index, id: FeedbackId) {
    id in x.feedbacks && x.feedbacks[id].agent == id.0 && x.feedbacks[id].client == id.1
    && id.0 in x.agents && id.1 in x.clients && id.2 >= 1
  }

  ghost predicate ValidationListed(x: Index, h: string) {
    h in x.validations && x.validations[h].agent in x.agents && x.validations[h].validator in x.validators
  }

  const GIVEN: Agent -> int := (a: Agent) => a.scores.given
  const ACTIVE: Agent -> int := (a: Agent) => a.scores.active
  const REVOKED: Agent -> int := (a: Agent) => a.scores.revoked
  const SCORE: Agent -> int := (a: Agent) => a.scores.sum
  const REQUESTED: Agent -> int := (a: Agent) => a.answers.requested
  const RESPONDED: Agent -> int := (a: Agent) => a.answers.responded
  const RESPONSE: Agent -> int := (a: Agent) => a.answers.sum

  /** The registry's totals are the sums over its agents. */
  ghost predicate SumsOverAgents(x: Index) {
    && x.scores.given == Sum(x.agents, GIVEN) && x.scores.active == Sum(x.agents, ACTIVE)
    && x.scores.revoked == Sum(x.agents, REVOKED) && x.scores.sum == Sum(x.agents, SCORE)
    && x.answers.requested == Sum(x.agents, REQUESTED) && x.answers.responded == Sum(x.agents, RESPONDED)
    && x.answers.sum == Sum(x.agents, RESPONSE)
  }

  ghost predicate Agrees(x: Index) {
    FeedbackAgrees(x) && ValidationAgrees(x) && Listed(x) && SumsOverAgents(x)
  }

  // ------------------------------------------------------------------ how recomputation follows one row

  lemma {:induction false} FeedbackSums(rows: Feedbacks, id: FeedbackId, f: Feedback, s: Scope)
    ensures var rs, there := rows[id := f], id in rows;
            && Sum(rs, GivenIn(s)) == Sum(rows, GivenIn(s)) - (if there then GivenIn(s)(rows[id]) else 0) + GivenIn(s)(f)
            && Sum(rs, ActiveIn(s)) == Sum(rows, ActiveIn(s)) - (if there then ActiveIn(s)(rows[id]) else 0) + ActiveIn(s)(f)
            && Sum(rs, RevokedIn(s)) == Sum(rows, RevokedIn(s)) - (if there then RevokedIn(s)(rows[id]) else 0) + RevokedIn(s)(f)
            && Sum(rs, ScoreIn(s)) == Sum(rows, ScoreIn(s)) - (if there then ScoreIn(s)(rows[id]) else 0) + ScoreIn(s)(f)
  {
    SumPut(rows, GivenIn(s), id, f);
    SumPut(rows, ActiveIn(s), id, f);
    SumPut(rows, RevokedIn(s), id, f);
    SumPut(rows, ScoreIn(s), id, f);
  }

  lemma {:induction false} ValidationSums(rows: Validations, h: string, v: Validation, s: Scope)
    ensures var rs, there := rows[h := v], h in rows;
            && Sum(rs, RequestedIn(s)) == Sum(rows, RequestedIn(s)) - (if there then RequestedIn(s)(rows[h]) else 0) + RequestedIn(s)(v)
            && Sum(rs, RespondedIn(s)) == Sum(rows, RespondedIn(s)) - (if there then RespondedIn(s)(rows[h]) else 0) + RespondedIn(s)(v)
            && Sum(rs, ResponseIn(s)) == Sum(rows, ResponseIn(s)) - (if there then ResponseIn(s)(rows[h]) else 0) + ResponseIn(s)(v)
  {
    SumPut(rows, RequestedIn(s), h, v);
    SumPut(rows, RespondedIn(s), h, v);
    SumPut(rows, ResponseIn(s), h, v);
  }

  lemma AddedScores(x: Scores, rows: Feedbacks, id: FeedbackId, f: Feedback, s: Scope)
    requires ScoresAgree(x, rows, s) && id !in rows && !f.revoked
    ensures ScoresAgree(if Rates(f, s) then ScoreAdded(x, f.score) else x, rows[id := f], s)
  {
    FeedbackSums(rows, id, f, s);
  }

  lemma RevokedScores(x: Scores, rows: Feedbacks, id: FeedbackId, s: Scope)
    requires ScoresAgree(x, rows, s) && id in rows && !rows[id].revoked
    ensures ScoresAgree(if Rates(rows[id], s) then ScoreRevoked(x, rows[id].score) else x,
                        rows[id := rows[id].(revoked := true)], s)
  {
    FeedbackSums(rows, id, rows[id].(revoked := true), s);
  }

  lemma RequestedAnswers(x: Answers, rows: Validations, h: string, v: Validation, s: Scope)
    requires AnswersAgree(x, rows, s) && h !in rows && v.response.None?
    ensures AnswersAgree(if Asks(v, s) then RequestAdded(x) else x, rows[h := v], s)
  {
    ValidationSums(rows, h, v, s);
  }

  lemma RespondedAnswers(x: Answers, rows: Validations, h: string, value: nat, s: Scope)
    requires AnswersAgree(x, rows, s) && h in rows
    ensures AnswersAgree(if Asks(rows[h], s) then ResponseAdded(x, rows[h].response, value) else x,
                         rows[h := rows[h].(response := Some(value))], s)
  {
    ValidationSums(rows, h, rows[h].(response := Some(value)), s);
  }

  lemma RatedAdds(rows: Feedbacks, id: FeedbackId, f: Feedback, c: Addr)
    ensures RatedBy(rows[id := f], c) == if c == id.1 then RatedBy(rows, c) + {id.0} else RatedBy(rows, c)
  {
    var rs := rows[id := f];
    forall a ensures a in RatedBy(rs, c) <==> a in RatedBy(rows, c) || (c == id.1 && a == id.0) {
      if c == id.1 && a == id.0 { assert id in rs; }
      if j :| j in rows && j.1 == c && j.0 == a { assert j in rs; }
    }
  }

  /** A client's first entry for an agent is the moment it has rated one more. */
  lemma RatedGrows(rows: Feedbacks, id: FeedbackId, f: Feedback, c: Addr)
    ensures var before := exists j :: j in rows && j.0 == id.0 && j.1 == id.1;
            |RatedBy(rows[id := f], c)| == |RatedBy(rows, c)| + if c == id.1 && !before then 1 else 0
  {
    RatedAdds(rows, id, f, c);
    if c == id.1 {
      assert id.0 in RatedBy(rows, c) <==> exists j :: j in rows && j.0 == id.0 && j.1 == id.1;
      hide RatedBy;
      assert id.0 in RatedBy(rows, c) ==> RatedBy(rows, c) + {id.0} == RatedBy(rows, c);
    }
  }

  // ------------------------------------------------------------------ entities coming in

  lemma {:induction false} AgentSums(agents: map<nat, Agent>, a: nat, g: Agent)
    ensures var e, was := agents[a := g], if a in agents then agents[a] else NEW_AGENT;
            && Sum(e, GIVEN) == Sum(agents, GIVEN) - was.scores.given + g.scores.given
            && Sum(e, ACTIVE) == Sum(agents, ACTIVE) - was.scores.active + g.scores.active
            && Sum(e, REVOKED) == Sum(agents, REVOKED) - was.scores.revoked + g.scores.revoked
            && Sum(e, SCORE) == Sum(agents, SCORE) - was.scores.sum + g.scores.sum
            && Sum(e, REQUESTED) == Sum(agents, REQUESTED) - was.answers.requested + g.answers.requested
            && Sum(e, RESPONDED) == Sum(agents, RESPONDED) - was.answers.responded + g.answers.responded
            && Sum(e, RESPONSE) == Sum(agents, RESPONSE) - was.answers.sum + g.answers.sum
  {
    SumPut(agents, GIVEN, a, g);
    SumPut(agents, ACTIVE, a, g);
    SumPut(agents, REVOKED, a, g);
    SumPut(agents, SCORE, a, g);
    SumPut(agents, REQUESTED, a, g);
    SumPut(agents, RESPONDED, a, g);
    SumPut(agents, RESPONSE, a, g);
  }

  /** Entities that read the same, and rows that are the same, agree the same. */
  lemma SameFeedback(x: Index, y: Index)
    requires FeedbackAgrees(x) && y.feedbacks == x.feedbacks && y.scores == x.scores && y.appended == x.appended
    requires forall a :: AgentOf(y, a).scores == AgentOf(x, a).scores
    requires forall c :: ClientOf(y, c) == ClientOf(x, c)
    ensures FeedbackAgrees(y)
  {
    forall a ensures ScoresAgree(AgentOf(y, a).scores, y.feedbacks, OfAgent(a)) {
      assert ScoresAgree(AgentOf(x, a).scores, x.feedbacks, OfAgent(a));
    }
    forall c ensures ClientAgrees(ClientOf(y, c), y.feedbacks, c) { assert ClientAgrees(ClientOf(x, c), x.feedbacks, c); }
  }

  lemma SameValidation(x: Index, y: Index)
    requires ValidationAgrees(x) && y.validations == x.validations && y.answers == x.answers
    requires forall a :: AgentOf(y, a).answers == AgentOf(x, a).answers
    requires forall v :: ValidatorOf(y, v) == ValidatorOf(x, v)
    ensures ValidationAgrees(y)
  {
    forall a ensures AnswersAgree(AgentOf(y, a).answers, y.validations, OfAgent(a)) {
      assert AnswersAgree(AgentOf(x, a).answers, x.validations, OfAgent(a));
    }
    forall v ensures AnswersAgree(ValidatorOf(y, v), y.validations, OfParty(v)) {
      assert AnswersAgree(ValidatorOf(x, v), x.validations, OfParty(v));
    }
  }

  /** Rows that are the same are listed as long as no entity goes. */
  lemma StillListed(x: Index, y: Index)
    requires Listed(x) && y.feedbacks == x.feedbacks && y.validations == x.validations
    requires x.agents.Keys <= y.agents.Keys && x.clients.Keys <= y.clients.Keys && x.validators.Keys <= y.validators.Keys
    requires y.agentCount - x.agentCount == |y.agents| - |x.agents|
    requires y.clientCount - x.clientCount == |y.clients| - |x.clients|
    requires y.validatorCount - x.validatorCount == |y.validators| - |x.validators|
    ensures Listed(y)
  {
    forall id | id in y.feedbacks ensures FeedbackListed(y, id) { assert FeedbackListed(x, id); }
    forall h | h in y.validations ensures ValidationListed(y, h) { assert ValidationListed(x, h); }
  }

  lemma NewAgentSums(x: Index, a: nat)
    requires SumsOverAgents(x)
    ensures SumsOverAgents(WithAgent(x, a))
  {
    if a !in x.agents { AgentSums(x.agents, a, NEW_AGENT); }
  }

  lemma SameSums(x: Index, y: Index)
    requires SumsOverAgents(x) && y.agents == x.agents && y.scores == x.scores && y.answers == x.answers
    ensures SumsOverAgents(y)
  {
    hide Sum;
  }

  lemma AgentReads(x: Index, a: nat)
    ensures forall b :: AgentOf(WithAgent(x, a), b) == AgentOf(x, b)
    ensures forall c :: ClientOf(WithAgent(x, a), c) == ClientOf(x, c)
    ensures forall v :: ValidatorOf(WithAgent(x, a), v) == ValidatorOf(x, v)
  {
  }

  lemma RowListed(x: Index, id: FeedbackId)
    requires Agrees(x) && id in x.feedbacks
    ensures FeedbackListed(x, id)
  {
    hide FeedbackAgrees, ValidationAgrees, SumsOverAgents;
  }

  lemma AgentKeeps(x: Index, a: nat)
    requires Agrees(x)
    ensures Agrees(WithAgent(x, a)) && a in WithAgent(x, a).agents
  {
    hide FeedbackAgrees, ValidationAgrees, SumsOverAgents, Listed, AgentOf, ClientOf, ValidatorOf;
    AgentReads(x, a);
    SameFeedback(x, WithAgent(x, a));
    SameValidation(x, WithAgent(x, a));
    NewAgentSums(x, a);
    MapGrows(x.agents, a, NEW_AGENT);
    StillListed(x, WithAgent(x, a));
  }

  lemma ClientKeeps(x: Index, c: Addr)
    requires Agrees(x)
    ensures Agrees(WithClient(x, c)) && c in WithClient(x, c).clients
  {
    hide FeedbackAgrees, ValidationAgrees, SumsOverAgents, Listed;
    SameFeedback(x, WithClient(x, c));
    SameValidation(x, WithClient(x, c));
    SameSums(x, WithClient(x, c));
    MapGrows(x.clients, c, NEW_CLIENT);
    StillListed(x, WithClient(x, c));
  }

  lemma ValidatorKeeps(x: Index, v: Addr)
    requires Agrees(x)
    ensures Agrees(WithValidator(x, v)) && v in WithValidator(x, v).validators
  {
    hide FeedbackAgrees, ValidationAgrees, SumsOverAgents, Listed;
    SameFeedback(x, WithValidator(x, v));
    SameValidation(x, WithValidator(x, v));
    SameSums(x, WithValidator(x, v));
    MapGrows(x.validators, v, NO_ANSWERS);
    StillListed(x, WithValidator(x, v));
  }

  // ------------------------------------------------------------------ feedback

  /** The entries a client has given an agent. */
  ghost function Pair(x: Index, a: nat, c: Addr): set<FeedbackId> {
    set id | id in x.feedbacks && id.0 == a && id.1 == c
  }

  lemma AddedClient(x: Index, w: Client, id: FeedbackId, f: Feedback, c: Addr)
    requires ClientAgrees(w, x.feedbacks, c) && id !in x.feedbacks && f == Feedback(id.0, id.1, f.score, false, 0)
    ensures ClientAgrees(if c != id.1 then w else
                           Client(w.given + 1, w.active + 1, w.revoked, w.agentsRated + if Pair(x, id.0, id.1) == {} then 1 else 0),
                         x.feedbacks[id := f], c)
  {
    FeedbackSums(x.feedbacks, id, f, OfParty(c));
    RatedGrows(x.feedbacks, id, f, c);
    PairEmpty(x, id);
  }

  /** What a new entry changes of feedback, entity by entity. */
  lemma AddedFeedback(x: Index, y: Index, id: FeedbackId, f: Feedback)
    requires FeedbackAgrees(x) && id !in x.feedbacks && f == Feedback(id.0, id.1, f.score, false, 0)
    requires y.feedbacks == x.feedbacks[id := f] && y.appended == x.appended && y.scores == ScoreAdded(x.scores, f.score)
    requires forall a :: AgentOf(y, a).scores == if a == id.0 then ScoreAdded(AgentOf(x, a).scores, f.score) else AgentOf(x, a).scores
    requires forall c :: ClientOf(y, c) == if c != id.1 then ClientOf(x, c) else
               var w := ClientOf(x, c);
               Client(w.given + 1, w.active + 1, w.revoked, w.agentsRated + if Pair(x, id.0, id.1) == {} then 1 else 0)
    ensures FeedbackAgrees(y)
  {
    hide RatedBy, Sum, Pair;
    forall a ensures ScoresAgree(AgentOf(y, a).scores, y.feedbacks, OfAgent(a)) {
      assert ScoresAgree(AgentOf(x, a).scores, x.feedbacks, OfAgent(a));
      AddedScores(AgentOf(x, a).scores, x.feedbacks, id, f, OfAgent(a));
    }
    forall c ensures ClientAgrees(ClientOf(y, c), y.feedbacks, c) {
      assert ClientAgrees(ClientOf(x, c), x.feedbacks, c);
      AddedClient(x, ClientOf(x, c), id, f, c);
    }
    AddedScores(x.scores, x.feedbacks, id, f, Everyone);
    SumPut(x.feedbacks, RESPONSES, id, f);
  }

  lemma PairEmpty(x: Index, id: FeedbackId)
    ensures Pair(x, id.0, id.1) != {} <==> exists j :: j in x.feedbacks && j.0 == id.0 && j.1 == id.1
  {
    if j :| j in x.feedbacks && j.0 == id.0 && j.1 == id.1 { assert j in Pair(x, id.0, id.1); }
  }

  lemma RatedSame(rows: Feedbacks, id: FeedbackId, f: Feedback, c: Addr)
    requires id in rows
    ensures RatedBy(rows[id := f], c) == RatedBy(rows, c)
  {
    assert rows[id := f].Keys == rows.Keys;
  }

  lemma RevokedClient(w: Client, rows: Feedbacks, id: FeedbackId, c: Addr)
    requires ClientAgrees(w, rows, c) && id in rows && !rows[id].revoked && rows[id].client == id.1
    ensures ClientAgrees(if c == id.1 then w.(active := w.active - 1, revoked := w.revoked + 1) else w,
                         rows[id := rows[id].(revoked := true)], c)
  {
    FeedbackSums(rows, id, rows[id].(revoked := true), OfParty(c));
    RatedSame(rows, id, rows[id].(revoked := true), c);
  }

  lemma RevokedFeedback(x: Index, y: Index, id: FeedbackId)
    requires FeedbackAgrees(x) && id in x.feedbacks && !x.feedbacks[id].revoked && FeedbackListed(x, id)
    requires var f := x.feedbacks[id];
             && y.feedbacks == x.feedbacks[id := f.(revoked := true)] && y.appended == x.appended
             && y.scores == ScoreRevoked(x.scores, f.score)
             && (forall a :: AgentOf(y, a).scores ==
                   if a == id.0 then ScoreRevoked(AgentOf(x, a).scores, f.score) else AgentOf(x, a).scores)
    requires forall c :: ClientOf(y, c) == if c != id.1 then ClientOf(x, c) else
               var w := ClientOf(x, c); w.(active := w.active - 1, revoked := w.revoked + 1)
    ensures FeedbackAgrees(y)
  {
    hide RatedBy, Sum;
    var f := x.feedbacks[id];
    forall a ensures ScoresAgree(AgentOf(y, a).scores, y.feedbacks, OfAgent(a)) {
      assert ScoresAgree(AgentOf(x, a).scores, x.feedbacks, OfAgent(a));
      RevokedScores(AgentOf(x, a).scores, x.feedbacks, id, OfAgent(a));
    }
    forall c ensures ClientAgrees(ClientOf(y, c), y.feedbacks, c) {
      assert ClientAgrees(ClientOf(x, c), x.feedbacks, c);
      RevokedClient(ClientOf(x, c), x.feedbacks, id, c);
    }
    RevokedScores(x.scores, x.feedbacks, id, Everyone);
    SumPut(x.feedbacks, RESPONSES, id, f.(revoked := true));
  }

  lemma AppendedFeedback(x: Index, id: FeedbackId)
    requires FeedbackAgrees(x) && id in x.feedbacks
    ensures var f := x.feedbacks[id];
            FeedbackAgrees(x.(feedbacks := x.feedbacks[id := f.(responses := f.responses + 1)], appended := x.appended + 1))
  {
    hide RatedBy, Sum;
    var f := x.feedbacks[id].(responses := x.feedbacks[id].responses + 1);
    var y := x.(feedbacks := x.feedbacks[id := f], appended := x.appended + 1);
    forall a ensures ScoresAgree(AgentOf(y, a).scores, y.feedbacks, OfAgent(a)) {
      assert ScoresAgree(AgentOf(x, a).scores, x.feedbacks, OfAgent(a));
      FeedbackSums(x.feedbacks, id, f, OfAgent(a));
    }
    forall c ensures ClientAgrees(ClientOf(y, c), y.feedbacks, c) {
      assert ClientAgrees(ClientOf(x, c), x.feedbacks, c);
      FeedbackSums(x.feedbacks, id, f, OfParty(c));
      RatedSame(x.feedbacks, id, f, c);
    }
    FeedbackSums(x.feedbacks, id, f, Everyone);
    SumPut(x.feedbacks, RESPONSES, id, f);
  }

  // ------------------------------------------------------------------ validation

  lemma RequestedValidation(x: Index, y: Index, h: string, v: Validation)
    requires ValidationAgrees(x) && h !in x.validations && v.response.None?
    requires y.validations == x.validations[h := v] && y.answers == RequestAdded(x.answers)
    requires forall a :: AgentOf(y, a).answers == if a == v.agent then RequestAdded(AgentOf(x, a).answers) else AgentOf(x, a).answers
    requires forall w :: ValidatorOf(y, w) == if w == v.validator then RequestAdded(ValidatorOf(x, w)) else ValidatorOf(x, w)
    ensures ValidationAgrees(y)
  {
    hide Sum;
    forall a ensures AnswersAgree(AgentOf(y, a).answers, y.validations, OfAgent(a)) {
      assert AnswersAgree(AgentOf(x, a).answers, x.validations, OfAgent(a));
      RequestedAnswers(AgentOf(x, a).answers, x.validations, h, v, OfAgent(a));
    }
    forall w ensures AnswersAgree(ValidatorOf(y, w), y.validations, OfParty(w)) {
      assert AnswersAgree(ValidatorOf(x, w), x.validations, OfParty(w));
      RequestedAnswers(ValidatorOf(x, w), x.validations, h, v, OfParty(w));
    }
    RequestedAnswers(x.answers, x.validations, h, v, Everyone);
  }

  lemma RespondedValidation(x: Index, y: Index, h: string, value: nat)
    requires ValidationAgrees(x) && h in x.validations
    requires var v := x.validations[h];
             && y.validations == x.validations[h := v.(response := Some(value))]
             && y.answers == ResponseAdded(x.answers, v.response, value)
             && (forall a :: AgentOf(y, a).answers ==
                   if a == v.agent then ResponseAdded(AgentOf(x, a).answers, v.response, value) else AgentOf(x, a).answers)
             && (forall w :: ValidatorOf(y, w) ==
                   if w == v.validator then ResponseAdded(ValidatorOf(x, w), v.response, value) else ValidatorOf(x, w))
    ensures ValidationAgrees(y)
  {
    hide Sum, ResponseAdded;
    forall a ensures AnswersAgree(AgentOf(y, a).answers, y.validations, OfAgent(a)) {
      assert AnswersAgree(AgentOf(x, a).answers, x.validations, OfAgent(a));
      RespondedAnswers(AgentOf(x, a).answers, x.validations, h, value, OfAgent(a));
    }
    forall w ensures AnswersAgree(ValidatorOf(y, w), y.validations, OfParty(w)) {
      assert AnswersAgree(ValidatorOf(x, w), x.validations, OfParty(w));
      RespondedAnswers(ValidatorOf(x, w), x.validations, h, value, OfParty(w));
    }
    RespondedAnswers(x.answers, x.validations, h, value, Everyone);
  }

  // ------------------------------------------------------------------ events

  datatype Event =
    | Registered(a: nat)
    | NewFeedback(a: nat, c: Addr, index: nat, value: int, decimals: int)
    | FeedbackRevoked(a: nat, c: Addr, index: nat)
    | ResponseAppended(a: nat, c: Addr, index: nat, responder: Addr)
    | ValidationRequest(a: nat, v: Addr, hash: string)
    | ValidationResponse(a: nat, v: Addr, hash: string, answer: nat)

  function Handle(x: Index, e: Event): Index {
    match e
    case Registered(a) => WithAgent(x, a)
    case NewFeedback(a, c, index, value, decimals) => HandleNewFeedback(x, a, c, index, value, decimals)
    case FeedbackRevoked(a, c, index) => HandleFeedbackRevoked(x, a, c, index)
    case ResponseAppended(a, c, index, _) => HandleResponseAppended(x, a, c, index)
    case ValidationRequest(a, v, hash) => HandleValidationRequest(x, a, v, hash)
    case ValidationResponse(a, v, hash, answer) => HandleValidationResponse(x, a, v, hash, answer)
  }

  /** What the registries guarantee: an entry's index is fresh, and 1 exactly for the first of its
      pair; a request's hash is fresh; an answer names its request's agent and validator. */
  ghost predicate CanHappen(x: Index, e: Event) {
    match e
    case NewFeedback(a, c, index, _, _) =>
      (a, c, index) !in x.feedbacks && index >= 1 && (index == 1 <==> Pair(x, a, c) == {})
    case ValidationRequest(_, _, hash) => hash !in x.validations
    case ValidationResponse(a, v, hash, _) =>
      hash in x.validations ==> x.validations[hash].agent == a && x.validations[hash].validator == v
    case _ => true
  }

  function RunFrom(x: Index, es: seq<Event>): Index
    decreases |es|
  {
    if es == [] then x else RunFrom(Handle(x, es[0]), es[1..])
  }

  ghost predicate CanRun(x: Index, es: seq<Event>)
    decreases |es|
  {
    es == [] || (CanHappen(x, es[0]) && CanRun(Handle(x, es[0]), es[1..]))
  }

  // ------------------------------------------------------------------ every event keeps agreement

  /** The registry's totals move as the one agent's do. */
  lemma SumsFollow(x: Index, y: Index, a: nat)
    requires SumsOverAgents(x) && a in x.agents && a in y.agents && y.agents == x.agents[a := y.agents[a]]
    requires var was, now := x.agents[a], y.agents[a];
             && y.scores.given - x.scores.given == now.scores.given - was.scores.given
             && y.scores.active - x.scores.active == now.scores.active - was.scores.active
             && y.scores.revoked - x.scores.revoked == now.scores.revoked - was.scores.revoked
             && y.scores.sum - x.scores.sum == now.scores.sum - was.scores.sum
             && y.answers.requested - x.answers.requested == now.answers.requested - was.answers.requested
             && y.answers.responded - x.answers.responded == now.answers.responded - was.answers.responded
             && y.answers.sum - x.answers.sum == now.answers.sum - was.answers.sum
    ensures SumsOverAgents(y)
  {
    AgentSums(x.agents, a, y.agents[a]);
  }

  lemma NewFeedbackKeeps(x: Index, a: nat, c: Addr, index: nat, value: int, decimals: int)
    requires Agrees(x) && CanHappen(x, NewFeedback(a, c, index, value, decimals))
    ensures Agrees(HandleNewFeedback(x, a, c, index, value, decimals))
  {
    hide FeedbackAgrees, ValidationAgrees, SumsOverAgents, Listed, ScaleValue, Pair, Average, WithAgent, WithClient;
    var y, z, id := WithClient(WithAgent(x, a), c), HandleNewFeedback(x, a, c, index, value, decimals), (a, c, index);
    AgentKeeps(x, a);
    ClientKeeps(WithAgent(x, a), c);
    PairSame(x, y, a, c);
    AddedFeedback(y, z, id, Feedback(a, c, ScaleValue(value, decimals), false, 0));
    SameValidation(y, z);
    SumsFollow(y, z, a);
    ListedFeedback(y, z, id);
  }

  lemma PairSame(x: Index, y: Index, a: nat, c: Addr)
    requires y.feedbacks == x.feedbacks
    ensures Pair(y, a, c) == Pair(x, a, c)
  {
  }

  lemma ListedFeedback(x: Index, y: Index, id: FeedbackId)
    requires Listed(x) && id in y.feedbacks && id.0 in x.agents && id.1 in x.clients && id.2 >= 1
    requires y.feedbacks == x.feedbacks[id := y.feedbacks[id]] && y.feedbacks[id].agent == id.0 && y.feedbacks[id].client == id.1
    requires y.validations == x.validations && y.validators == x.validators
    requires y.agents.Keys == x.agents.Keys && y.clients.Keys == x.clients.Keys
    requires y.agentCount == x.agentCount && y.clientCount == x.clientCount && y.validatorCount == x.validatorCount
    ensures Listed(y)
  {
    forall j | j in y.feedbacks ensures FeedbackListed(y, j) { if j != id { assert FeedbackListed(x, j); } }
    forall h | h in y.validations ensures ValidationListed(y, h) { assert ValidationListed(x, h); }
    SameSizes(x, y);
  }

  lemma SameSizes(x: Index, y: Index)
    requires y.agents.Keys == x.agents.Keys && y.clients.Keys == x.clients.Keys && y.validators.Keys == x.validators.Keys
    ensures |y.agents| == |x.agents| && |y.clients| == |x.clients| && |y.validators| == |x.validators|
  {
    assert |y.agents| == |y.agents.Keys| && |x.agents| == |x.agents.Keys|;
    assert |y.clients| == |y.clients.Keys| && |x.clients| == |x.clients.Keys|;
    assert |y.validators| == |y.validators.Keys| && |x.validators| == |x.validators.Keys|;
  }

  lemma ListedValidation(x: Index, y: Index, hash: string)
    requires Listed(x) && hash in y.validations
    requires y.validations[hash].agent in x.agents && y.validations[hash].validator in x.validators
    requires y.feedbacks == x.feedbacks && y.validations == x.validations[hash := y.validations[hash]]
    requires y.agents.Keys == x.agents.Keys && y.clients.Keys == x.clients.Keys && y.validators.Keys == x.validators.Keys
    requires y.agentCount == x.agentCount && y.clientCount == x.clientCount && y.validatorCount == x.validatorCount
    ensures Listed(y)
  {
    forall j | j in y.feedbacks ensures FeedbackListed(y, j) { assert FeedbackListed(x, j); }
    forall h | h in y.validations ensures ValidationListed(y, h) { if h != hash { assert ValidationListed(x, h); } }
    SameSizes(x, y);
  }

  lemma RevokedKeeps(x: Index, a: nat, c: Addr, index: nat)
    requires Agrees(x)
    ensures Agrees(HandleFeedbackRevoked(x, a, c, index))
  {
    hide FeedbackAgrees, ValidationAgrees, SumsOverAgents, Listed, Average, WithAgent, WithClient, WithValidator;
    var w, id := WithAgent(x, a), (a, c, index);
    AgentKeeps(x, a);
    if id in w.feedbacks && !w.feedbacks[id].revoked {
      var y, z := WithClient(w, c), HandleFeedbackRevoked(x, a, c, index);
      ClientKeeps(w, c);
      RowListed(y, id);
      RevokedFeedback(y, z, id);
      SameValidation(y, z);
      SumsFollow(y, z, a);
      ListedFeedback(y, z, id);
    }
  }

  lemma AppendedKeeps(x: Index, a: nat, c: Addr, index: nat)
    requires Agrees(x)
    ensures Agrees(HandleResponseAppended(x, a, c, index))
  {
    hide FeedbackAgrees, ValidationAgrees, SumsOverAgents, Listed, Average, WithAgent, WithClient, WithValidator;
    var y, z, id := WithAgent(x, a), HandleResponseAppended(x, a, c, index), (a, c, index);
    AgentKeeps(x, a);
    if id in y.feedbacks {
      RowListed(y, id);
      AppendedFeedback(y, id);
      SameValidation(y, z);
      assert y.agents[a := z.agents[a]] == y.agents;
      SumsFollow(y, z, a);
      ListedFeedback(y, z, id);
    }
  }

  lemma RequestKeeps(x: Index, a: nat, v: Addr, hash: string)
    requires Agrees(x) && hash !in x.validations
    ensures Agrees(HandleValidationRequest(x, a, v, hash))
  {
    hide FeedbackAgrees, ValidationAgrees, SumsOverAgents, Listed, Average, WithAgent, WithClient, WithValidator;
    var y, z := WithValidator(WithAgent(x, a), v), HandleValidationRequest(x, a, v, hash);
    AgentKeeps(x, a);
    ValidatorKeeps(WithAgent(x, a), v);
    RequestedValidation(y, z, hash, Validation(a, v, None));
    SameFeedback(y, z);
    SumsFollow(y, z, a);
    ListedValidation(y, z, hash);
  }

  lemma EntitiesFirst(x: Index, a: nat, v: Addr, vs: Validations)
    ensures WithAgent(WithValidator(x.(validations := vs), v), a) == WithAgent(WithValidator(x, v), a).(validations := vs)
  {
  }

  lemma ResponseKeeps(x: Index, a: nat, v: Addr, hash: string, value: nat)
    requires Agrees(x) && hash in x.validations && x.validations[hash].agent == a && x.validations[hash].validator == v
    ensures Agrees(HandleValidationResponse(x, a, v, hash, value))
  {
    hide FeedbackAgrees, ValidationAgrees, SumsOverAgents, Listed, Average, WithAgent, WithClient, WithValidator;
    var y, z := WithAgent(WithValidator(x, v), a), HandleValidationResponse(x, a, v, hash, value);
    EntitiesFirst(x, a, v, x.validations[hash := x.validations[hash].(response := Some(value))]);
    ValidatorKeeps(x, v);
    AgentKeeps(WithValidator(x, v), a);
    RespondedValidation(y, z, hash, value);
    SameFeedback(y, z);
    SumsFollow(y, z, a);
    ListedValidation(y, z, hash);
  }

  lemma EventKeeps(x: Index, e: Event)
    requires Agrees(x) && CanHappen(x, e)
    ensures Agrees(Handle(x, e))
  {
    hide Agrees;
    match e
    case Registered(a) => AgentKeeps(x, a);
    case NewFeedback(a, c, index, value, decimals) => NewFeedbackKeeps(x, a, c, index, value, decimals);
    case FeedbackRevoked(a, c, index) => RevokedKeeps(x, a, c, index);
    case ResponseAppended(a, c, index, _) => AppendedKeeps(x, a, c, index);
    case ValidationRequest(a, v, hash) => RequestKeeps(x, a, v, hash);
    case ValidationResponse(a, v, hash, answer) =>
      if hash in x.validations { ResponseKeeps(x, a, v, hash, answer); }
  }

  lemma EmptyAgrees()
    ensures Agrees(EMPTY)
  {
    assert forall c: Addr :: RatedBy(EMPTY.feedbacks, c) == {};
  }

  lemma {:induction false} RunKeeps(x: Index, es: seq<Event>)
    requires Agrees(x) && CanRun(x, es)
    ensures Agrees(RunFrom(x, es))
    decreases |es|
  {
    hide Agrees, CanHappen, Handle;
    if es != [] {
      EventKeeps(x, es[0]);
      RunKeeps(Handle(x, es[0]), es[1..]);
    }
  }

  /** After any run the registries allow, every stored aggregate is what its rows make it: for each
      agent, client and validator and for the registry as a whole. */
  lemma {:induction false} AggregatesAreExact(es: seq<Event>, a: nat, c: Addr, v: Addr)
    requires CanRun(EMPTY, es)
    ensures var x := RunFrom(EMPTY, es);
            && ScoresAgree(AgentOf(x, a).scores, x.feedbacks, OfAgent(a))
            && AnswersAgree(AgentOf(x, a).answers, x.validations, OfAgent(a))
            && ClientAgrees(ClientOf(x, c), x.feedbacks, c)
            && AnswersAgree(ValidatorOf(x, v), x.validations, OfParty(v))
            && ScoresAgree(x.scores, x.feedbacks, Everyone) && AnswersAgree(x.answers, x.validations, Everyone)
            && x.appended == Sum(x.feedbacks, RESPONSES)
            && x.agentCount == |x.agents| && x.clientCount == |x.clients| && x.validatorCount == |x.validators|
  {
    hide SumsOverAgents, ScoresAgree, AnswersAgree, ClientAgrees, Sum;
    EmptyAgrees();
    RunKeeps(EMPTY, es);
  }

  /** A mean gives back the sum it was taken of; of no rows it is zero. */
  ghost predicate Mean(average: real, sum: int, count: int) {
    if count == 0 then average == 0.0 else average * count as real == sum as real
  }

  lemma AverageIsMean(sum: int, count: int)
    ensures Mean(Average(sum, count), sum, count)
  {
  }

  /** After any run the means are exact: of the scores not revoked, and of each request's latest
      answer, for every agent and validator and for the registry as a whole. */
  lemma MeansAreExact(es: seq<Event>, a: nat, v: Addr)
    requires CanRun(EMPTY, es)
    ensures var x := RunFrom(EMPTY, es);
            && Mean(AgentOf(x, a).scores.average, Sum(x.feedbacks, ScoreIn(OfAgent(a))), Sum(x.feedbacks, ActiveIn(OfAgent(a))))
            && Mean(AgentOf(x, a).answers.average, Sum(x.validations, ResponseIn(OfAgent(a))), Sum(x.validations, RespondedIn(OfAgent(a))))
            && Mean(ValidatorOf(x, v).average, Sum(x.validations, ResponseIn(OfParty(v))), Sum(x.validations, RespondedIn(OfParty(v))))
            && Mean(x.scores.average, Sum(x.feedbacks, ScoreIn(Everyone)), Sum(x.feedbacks, ActiveIn(Everyone)))
            && Mean(x.answers.average, Sum(x.validations, ResponseIn(Everyone)), Sum(x.validations, RespondedIn(Everyone)))
  {
    hide Sum, Mean, Average, RunFrom, CanRun, ClientAgrees;
    var x := RunFrom(EMPTY, es);
    AggregatesAreExact(es, a, "", v);
    AverageIsMean(AgentOf(x, a).scores.sum, AgentOf(x, a).scores.active);
    AverageIsMean(AgentOf(x, a).answers.sum, AgentOf(x, a).answers.responded);
    AverageIsMean(ValidatorOf(x, v).sum, ValidatorOf(x, v).responded);
    AverageIsMean(x.scores.sum, x.scores.active);
    AverageIsMean(x.answers.sum, x.answers.responded);
  }

  /** Every entry is active or revoked. */
  lemma ScoresSplit(x: Scores, rows: Feedbacks, s: Scope)
    requires ScoresAgree(x, rows, s)
    ensures x.given == x.active + x.revoked && (s == Everyone ==> x.given == |rows|)
  {
    SumSplit(rows, GivenIn(s), ActiveIn(s), RevokedIn(s));
    if s == Everyone { SumOfOnes(rows, GivenIn(s)); }
  }

  lemma AnswersBound(x: Answers, rows: Validations)
    requires AnswersAgree(x, rows, Everyone)
    ensures 0 <= x.responded <= x.requested == |rows|
  {
    var waiting := (v: Validation) => if v.response.Some? then 0 else 1;
    SumOfOnes(rows, RequestedIn(Everyone));
    SumSplit(rows, RequestedIn(Everyone), RespondedIn(Everyone), waiting);
    SumNonNegative(rows, RespondedIn(Everyone));
    SumNonNegative(rows, waiting);
  }

  /** And the registry's own totals are the sums of its agents', every entry being active or
      revoked. */
  lemma TotalsSplit(es: seq<Event>, a: nat)
    requires CanRun(EMPTY, es)
    ensures var x := RunFrom(EMPTY, es);
            && SumsOverAgents(x)
            && x.scores.given == x.scores.active + x.scores.revoked == |x.feedbacks|
            && AgentOf(x, a).scores.given == AgentOf(x, a).scores.active + AgentOf(x, a).scores.revoked
            && 0 <= x.answers.responded <= x.answers.requested == |x.validations|
  {
    hide ScoresAgree, AnswersAgree, ClientAgrees, Sum, SumsOverAgents;
    var x := RunFrom(EMPTY, es);
    EmptyAgrees();
    RunKeeps(EMPTY, es);
    ScoresSplit(x.scores, x.feedbacks, Everyone);
    ScoresSplit(AgentOf(x, a).scores, x.feedbacks, OfAgent(a));
    AnswersBound(x.answers, x.validations);
  }
}
