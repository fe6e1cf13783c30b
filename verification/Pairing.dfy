/**
 * Answers of the backend carry no id. Each goes to the task of the server that has waited longest;
 * this module shows that this is always the task that sent the request, and that it waits for an
 * answer of that kind.
 */
module Pairing {
  import opened Bytes
  import opened JobModel
  import opened Backend

  /** What a request, an answer and a waiting task have in common: the job, and whether it is a submission. */
  datatype Tag = Tag(job: JobId, submits: bool)

  function WaiterTag(w: Waiter): Tag { Tag(w.job, w.Submitter?) }

  function RequestTag(q: Request): Tag { Tag(q.job, q.NewTasksReq?) }

  predicate IsAnswer(e: Event) { e.CancelResponse? || e.TasksAccepted? || e.Refused? }

  function AnswerTag(e: Event): Tag
    requires IsAnswer(e)
  {
    Tag(e.job, e.TasksAccepted?)
  }

  function WaiterTags(ws: seq<Waiter>): seq<Tag>
  {
    if ws == [] then [] else [WaiterTag(ws[0])] + WaiterTags(ws[1..])
  }

  function RequestTags(qs: seq<Request>): seq<Tag>
  {
    if qs == [] then [] else [RequestTag(qs[0])] + RequestTags(qs[1..])
  }

  /** The answers under way, in order. */
  function AnswerTags(es: seq<Event>): seq<Tag>
  {
    if es == [] then [] else (if IsAnswer(es[0]) then [AnswerTag(es[0])] else []) + AnswerTags(es[1..])
  }

  /** Those who wait are, in order, those whose answers are under way and then those whose requests are. */
  predicate Queued(waiting: seq<Waiter>, queue: seq<Event>, requests: seq<Request>)
  {
    WaiterTags(waiting) == AnswerTags(queue) + RequestTags(requests)
  }

  /** Every woken task has the answer to its own request. */
  predicate Matched(delivered: seq<Event>, woken: seq<Waiter>)
  {
    && |woken| == |delivered|
    && forall k :: 0 <= k < |woken| ==> delivered[k].CancelResponse? && woken[k].job == delivered[k].job && !woken[k].Submitter?
  }

  ghost predicate PairInv(s: Sys) { Queued(s.waiting, s.fromTako, s.toTako) && Matched(s.delivered, s.woken) }

  lemma {:induction false} WaiterSnoc(ws: seq<Waiter>, w: Waiter)
    ensures WaiterTags(ws + [w]) == WaiterTags(ws) + [WaiterTag(w)]
  {
    if ws == [] {
      assert ws + [w] == [w] && [w][1..] == [];
    } else {
      WaiterSnoc(ws[1..], w);
      assert (ws + [w])[1..] == ws[1..] + [w];
    }
  }

  lemma {:induction false} RequestSnoc(qs: seq<Request>, q: Request)
    ensures RequestTags(qs + [q]) == RequestTags(qs) + [RequestTag(q)]
  {
    if qs == [] {
      assert qs + [q] == [q] && [q][1..] == [];
    } else {
      RequestSnoc(qs[1..], q);
      assert (qs + [q])[1..] == qs[1..] + [q];
    }
  }

  lemma {:induction false} AnswerSnoc(es: seq<Event>, e: Event)
    ensures AnswerTags(es + [e]) == AnswerTags(es) + if IsAnswer(e) then [AnswerTag(e)] else []
  {
    hide IsAnswer, AnswerTag, AnswerTags;
    var last := if IsAnswer(e) then [AnswerTag(e)] else [];
    FirstAnswer(es + [e]);
    if es == [] {
      assert es + [e] == [e] && [e][1..] == [];
      NoAnswers();
      assert last + [] == [] + last;
    } else {
      AnswerSnoc(es[1..], e);
      FirstAnswer(es);
      assert (es + [e])[1..] == es[1..] + [e] && (es + [e])[0] == es[0];
      var first, rest := if IsAnswer(es[0]) then [AnswerTag(es[0])] else [], AnswerTags(es[1..]);
      assert first + (rest + last) == first + rest + last;
    }
  }

  /** A request is sent and its sender begins to wait. */
  lemma SendQueues(waiting: seq<Waiter>, queue: seq<Event>, requests: seq<Request>, w: Waiter, q: Request)
    requires Queued(waiting, queue, requests) && WaiterTag(w) == RequestTag(q)
    ensures Queued(waiting + [w], queue, requests + [q])
  {
    hide WaiterTags, RequestTags, AnswerTags;
    WaiterSnoc(waiting, w);
    RequestSnoc(requests, q);
  }

  /** The backend reports something that is no answer, or answers the first request. */
  lemma EmitQueues(waiting: seq<Waiter>, queue: seq<Event>, requests: seq<Request>, e: Event)
    requires Queued(waiting, queue, requests)
    ensures !IsAnswer(e) ==> Queued(waiting, queue + [e], requests)
    ensures requests != [] && IsAnswer(e) && AnswerTag(e) == RequestTag(requests[0]) ==>
              Queued(waiting, queue + [e], requests[1..])
  {
    hide WaiterTags, AnswerTags;
    AnswerSnoc(queue, e);
  }

  /** The server reads a message: an answer finds its own sender first in the queue. */
  lemma ReadQueues(waiting: seq<Waiter>, queue: seq<Event>, requests: seq<Request>)
    requires Queued(waiting, queue, requests) && queue != []
    ensures !IsAnswer(queue[0]) ==> Queued(waiting, queue[1..], requests)
    ensures IsAnswer(queue[0]) ==>
              waiting != [] && WaiterTag(waiting[0]) == AnswerTag(queue[0]) && Queued(waiting[1..], queue[1..], requests)
  {
    hide WaiterTags, AnswerTags, RequestTags;
    FirstAnswer(queue);
    if IsAnswer(queue[0]) {
      FirstWaiter(waiting);
      SameHead(WaiterTag(waiting[0]), WaiterTags(waiting[1..]), AnswerTag(queue[0]), AnswerTags(queue[1..]), RequestTags(requests));
    } else {
      assert [] + AnswerTags(queue[1..]) == AnswerTags(queue[1..]);
    }
  }

  lemma NoAnswers()
    ensures AnswerTags([]) == []
  {
  }

  lemma FirstAnswer(queue: seq<Event>)
    requires queue != []
    ensures AnswerTags(queue) == (if IsAnswer(queue[0]) then [AnswerTag(queue[0])] else []) + AnswerTags(queue[1..])
  {
  }

  lemma FirstWaiter(waiting: seq<Waiter>)
    requires WaiterTags(waiting) != []
    ensures waiting != [] && WaiterTags(waiting) == [WaiterTag(waiting[0])] + WaiterTags(waiting[1..])
  {
  }

  lemma SameHead(a: Tag, as': seq<Tag>, b: Tag, bs: seq<Tag>, cs: seq<Tag>)
    requires [a] + as' == [b] + bs + cs
    ensures a == b && as' == bs + cs
  {
    assert ([a] + as')[0] == ([b] + bs + cs)[0];
    assert ([a] + as')[1..] == as';
    assert ([b] + bs + cs)[1..] == bs + cs;
  }

  lemma WakeMatches(delivered: seq<Event>, woken: seq<Waiter>, k: nat)
    requires Matched(delivered, woken) && k < |delivered|
    ensures Matched(RemoveAt(delivered, k), RemoveAt(woken, k))
  {
  }
}
