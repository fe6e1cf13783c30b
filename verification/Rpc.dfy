/**
 * Pairing of requests and answers. Any number of tasks of the server send requests to the backend;
 * each leaves a one-shot sender in a queue. Answers carry no id: the reader of the backend's
 * messages gives each answer to the first sender of the queue, while broadcasts are interleaved.
 */
module Rpc {
  import opened Bytes

  type Requester = nat

  /** A message from the backend. `to` is the request it answers; the reader does not look at it. */
  datatype Message<Resp> = Broadcast | Answer(to: Requester, resp: Resp)

  datatype State<Req, Resp> = State(
    sent: seq<Requester>,
    toBackend: seq<(Requester, Req)>,
    waiting: seq<Requester>,
    fromBackend: seq<Message<Resp>>,
    received: map<Requester, Message<Resp>>)

  datatype Action<Req, Resp> =
    | Send(r: Requester, req: Req)
    | AnswerFirst(resp: Resp)
    | BackendBroadcast
    | ReadMessage

  function Start<Req, Resp>(): State<Req, Resp> { State([], [], [], [], map[]) }

  /** Requesters are distinct one-shot channels; the backend answers requests once and in order. */
  predicate Enabled<Req, Resp>(s: State<Req, Resp>, a: Action<Req, Resp>)
  {
    match a
    case Send(r, _) => r !in s.sent
    case AnswerFirst(_) => s.toBackend != []
    case BackendBroadcast => true
    case ReadMessage => s.fromBackend != []
  }

  /** None when an answer arrives and no sender is waiting. */
  function Next<Req, Resp>(s: State<Req, Resp>, a: Action<Req, Resp>): Option<State<Req, Resp>>
    requires Enabled(s, a)
  {
    match a
    case Send(r, req) =>
      Some(s.(sent := s.sent + [r], waiting := s.waiting + [r], toBackend := s.toBackend + [(r, req)]))
    case AnswerFirst(resp) =>
      Some(s.(toBackend := s.toBackend[1..], fromBackend := s.fromBackend + [Answer(s.toBackend[0].0, resp)]))
    case BackendBroadcast => Some(s.(fromBackend := s.fromBackend + [Broadcast]))
    case ReadMessage =>
      var m, s1 := s.fromBackend[0], s.(fromBackend := s.fromBackend[1..]);
      if m.Broadcast? then Some(s1)
      else if s.waiting == [] then None
      else Some(s1.(waiting := s.waiting[1..], received := s.received[s.waiting[0] := m]))
  }

  datatype RunResult<Req, Resp> = Impossible | Panicked | At(s: State<Req, Resp>)

  function Exec<Req, Resp>(run: seq<Action<Req, Resp>>): RunResult<Req, Resp>
  {
    if run == [] then At(Start())
    else
      var before := Exec(run[..|run| - 1]);
      if !before.At? then before
      else if !Enabled(before.s, run[|run| - 1]) then Impossible
      else
        var r := Next(before.s, run[|run| - 1]);
        if r.None? then Panicked else At(r.value)
  }

  // ---- The invariant -------------------------------------------------------------------------

  /** The requests the answers under way belong to, in order. */
  function Answered<Resp>(ms: seq<Message<Resp>>): seq<Requester>
  {
    if ms == [] then []
    else (if ms[0].Answer? then [ms[0].to] else []) + Answered(ms[1..])
  }

  function Asking<Req>(qs: seq<(Requester, Req)>): (r: seq<Requester>)
    ensures |r| == |qs|
  {
    if qs == [] then [] else [qs[0].0] + Asking(qs[1..])
  }

  /**
   * The waiting senders are, in order, those whose answers are under way followed by those whose
   * requests are; together with those that have received their own answer they are all that ever sent.
   */
  ghost predicate Inv<Req(!new), Resp(!new)>(s: State<Req, Resp>)
  {
    && s.waiting == Answered(s.fromBackend) + Asking(s.toBackend)
    && (forall r :: r in s.received ==> s.received[r].Answer? && s.received[r].to == r)
    && (forall r :: r in s.sent <==> r in s.received || r in s.waiting)
    && Distinct(s.waiting) && forall r :: r in s.waiting ==> r !in s.received
  }

  lemma {:induction false} AnsweredSnoc<Resp>(ms: seq<Message<Resp>>, m: Message<Resp>)
    ensures Answered(ms + [m]) == Answered(ms) + if m.Answer? then [m.to] else []
  {
    if ms == [] {
      assert ms + [m] == [m];
    } else {
      AnsweredSnoc(ms[1..], m);
      assert (ms + [m])[1..] == ms[1..] + [m];
    }
  }

  lemma {:induction false} AskingSnoc<Req>(qs: seq<(Requester, Req)>, q: (Requester, Req))
    ensures Asking(qs + [q]) == Asking(qs) + [q.0]
  {
    if qs == [] {
      assert qs + [q] == [q];
    } else {
      AskingSnoc(qs[1..], q);
      assert (qs + [q])[1..] == qs[1..] + [q];
    }
  }

  lemma Step<Req(!new), Resp(!new)>(s: State<Req, Resp>, a: Action<Req, Resp>)
    requires Inv(s) && Enabled(s, a)
    ensures Next(s, a).Some? && Inv(Next(s, a).value)
  {
    match a
    case Send(r, req) => AskingSnoc(s.toBackend, (r, req));
    case AnswerFirst(resp) =>
      AnsweredSnoc(s.fromBackend, Answer(s.toBackend[0].0, resp));
      assert Asking(s.toBackend) == [s.toBackend[0].0] + Asking(s.toBackend[1..]);
    case BackendBroadcast => AnsweredSnoc(s.fromBackend, Broadcast);
    case ReadMessage =>
      if s.fromBackend[0].Answer? {
        ReadAnswer(s);
      }
  }

  lemma ReadAnswer<Req(!new), Resp(!new)>(s: State<Req, Resp>)
    requires Inv(s) && s.fromBackend != [] && s.fromBackend[0].Answer?
    ensures Next(s, ReadMessage).Some? && Inv(Next(s, ReadMessage).value)
  {
    hide Asking;
    assert s.waiting[0] == s.fromBackend[0].to;
    assert s.waiting[1..] == Answered(s.fromBackend[1..]) + Asking(s.toBackend);
    hide Answered;
    assert s.waiting == [s.waiting[0]] + s.waiting[1..];
    assert forall r :: r in s.waiting <==> r == s.waiting[0] || r in s.waiting[1..];
  }

  lemma {:induction false} RunInv<Req(!new), Resp(!new)>(run: seq<Action<Req, Resp>>)
    ensures !Exec(run).Panicked? && (Exec(run).At? ==> Inv(Exec(run).s))
  {
    hide Inv, Enabled, Next;
    if run == [] {
      StartInv<Req, Resp>();
    } else {
      var init := run[..|run| - 1];
      RunInv(init);
      if Exec(init).At? && Enabled(Exec(init).s, run[|run| - 1]) { Step(Exec(init).s, run[|run| - 1]); }
    }
  }

  lemma StartInv<Req(!new), Resp(!new)>()
    ensures Inv(Start<Req, Resp>())
  {
  }

  /**
   * For every interleaving of requesters, broadcasts and answers: the queue of senders is never
   * popped when empty, every answer a requester has received is the one to its own request, and a
   * requester without an answer is still waiting for it.
   */
  lemma AnswersReachTheirRequesters<Req(!new), Resp(!new)>(run: seq<Action<Req, Resp>>)
    ensures !Exec(run).Panicked?
    ensures Exec(run).At? ==>
              var s := Exec(run).s;
              && (forall r :: r in s.received ==> s.received[r].Answer? && s.received[r].to == r)
              && (forall r :: r in s.sent && r !in s.received ==> r in Answered(s.fromBackend) || r in Asking(s.toBackend))
  {
    RunInv(run);
  }

  lemma Extend<Req, Resp>(run: seq<Action<Req, Resp>>, a: Action<Req, Resp>)
    requires Exec(run).At? && Enabled(Exec(run).s, a) && Next(Exec(run).s, a).Some?
    ensures Exec(run + [a]) == At(Next(Exec(run).s, a).value)
  {
    hide Enabled, Next;
    assert (run + [a])[..|run|] == run;
  }

  /** Two requests with a broadcast between their answers: each gets its own answer, the broadcast goes to nobody. */
  lemma BroadcastInBetween<Req, Resp>(q: Req, x: Resp, y: Resp)
    ensures
      var run := [Send(0, q)] + [Send(1, q)] + [AnswerFirst(x)] + [BackendBroadcast] + [AnswerFirst(y)]
                 + [ReadMessage] + [ReadMessage] + [ReadMessage];
      Exec(run) == At(State([0, 1], [], [], [], map[0 := Answer(0, x), 1 := Answer(1, y)]))
  {
    hide Exec;
    var r0: seq<Action<Req, Resp>> := [];
    assert Exec(r0) == At(Start()) by { NoActions<Req, Resp>(); }
    Extend(r0, Send(0, q));
    assert r0 + [Send(0, q)] == [Send(0, q)];
    var r1: seq<Action<Req, Resp>> := [Send(0, q)];
    Extend(r1, Send(1, q));
    var r2 := r1 + [Send(1, q)];
    Extend(r2, AnswerFirst(x));
    var r3 := r2 + [AnswerFirst(x)];
    Extend(r3, BackendBroadcast);
    var r4 := r3 + [BackendBroadcast];
    Extend(r4, AnswerFirst(y));
    var r5 := r4 + [AnswerFirst(y)];
    Extend(r5, ReadMessage);
    var r6 := r5 + [ReadMessage];
    Extend(r6, ReadMessage);
    var r7 := r6 + [ReadMessage];
    Extend(r7, ReadMessage);
  }

  lemma NoActions<Req, Resp>()
    ensures Exec<Req, Resp>([]) == At(Start())
  {
  }
}
