/** Responses to feedback over whole runs: one row each, and every count of them its number. */
module RegistryResponses {
  import opened Registries
  import opened RegistryRuns

  function ResponsesHandle(rows: seq<Response>, x: Index, e: Event): seq<Response> {
    match e
    case ResponseAppended(a, c, index, responder) => Responses(rows, x, a, c, index, responder)
    case _ => rows
  }

  function ResponsesFrom(rows: seq<Response>, x: Index, es: seq<Event>): seq<Response>
    decreases |es|
  {
    if es == [] then rows else ResponsesFrom(ResponsesHandle(rows, x, es[0]), Handle(x, es[0]), es[1..])
  }

  /** The rows that answer one entry. */
  function Answers(rows: seq<Response>, id: FeedbackId): nat {
    if rows == [] then 0 else Answers(rows[..|rows| - 1], id) + if rows[|rows| - 1].to == id then 1 else 0
  }

  function ResponsesOf(x: Index, id: FeedbackId): int {
    if id in x.feedbacks then x.feedbacks[id].responses else 0
  }

  /** The registry's count is the number of rows, and each entry's the number that answer it. */
  ghost predicate ResponsesAgree(rows: seq<Response>, x: Index) {
    |rows| == x.appended && forall id :: Answers(rows, id) == ResponsesOf(x, id)
  }

  lemma AnswersPush(rows: seq<Response>, r: Response, id: FeedbackId)
    ensures Answers(rows + [r], id) == Answers(rows, id) + if r.to == id then 1 else 0
  {
    assert (rows + [r])[..|rows|] == rows;
  }

  /** What an event does to the counts of responses. */
  lemma CountsMove(x: Index, e: Event, id: FeedbackId)
    requires CanHappen(x, e)
    ensures var more := if e.ResponseAppended? && (e.a, e.c, e.index) in x.feedbacks then 1 else 0;
            && Handle(x, e).appended == x.appended + more
            && ResponsesOf(Handle(x, e), id) == ResponsesOf(x, id) + if more == 1 && id == (e.a, e.c, e.index) then 1 else 0
  {
    hide Average, ScaleValue, Pair;
  }

  lemma EventKeepsResponses(rows: seq<Response>, x: Index, e: Event)
    requires ResponsesAgree(rows, x) && CanHappen(x, e)
    ensures ResponsesAgree(ResponsesHandle(rows, x, e), Handle(x, e))
  {
    hide Handle, CanHappen, ResponsesOf;
    CountsMove(x, e, (0, "", 0));
    forall id ensures Answers(ResponsesHandle(rows, x, e), id) == ResponsesOf(Handle(x, e), id) {
      CountsMove(x, e, id);
      if e.ResponseAppended? { AnswersPush(rows, Response((e.a, e.c, e.index), e.responder), id); }
    }
  }

  lemma {:induction false} RunKeepsResponses(rows: seq<Response>, x: Index, es: seq<Event>)
    requires ResponsesAgree(rows, x) && CanRun(x, es)
    ensures ResponsesAgree(ResponsesFrom(rows, x, es), RunFrom(x, es))
    decreases |es|
  {
    hide ResponsesAgree, ResponsesHandle, CanHappen, Handle;
    if es != [] {
      EventKeepsResponses(rows, x, es[0]);
      RunKeepsResponses(ResponsesHandle(rows, x, es[0]), Handle(x, es[0]), es[1..]);
    }
  }

  /** After any run the registries allow, the registry has counted every response row, and each
      entry the rows that answer it. */
  lemma ResponsesAreCounted(es: seq<Event>)
    requires CanRun(EMPTY, es)
    ensures ResponsesAgree(ResponsesFrom([], EMPTY, es), RunFrom(EMPTY, es))
  {
    RunKeepsResponses([], EMPTY, es);
  }
}
