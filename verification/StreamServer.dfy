/**
 * The stream server as a concurrent protocol. Any number of worker connections feed one bounded
 * channel, one writer drains it. `receive_loop` books a message in the set of open ids first and
 * sends it into the channel afterwards; in between, the connection may be closed by the other arm
 * of the `select!`, which drops the message. Closing a connection sends an emergency End for every
 * id that is still booked.
 */
module StreamServer {
  import opened Bytes
  import opened LogFormat
  import opened LogIndex
  import opened LogSpec
  import opened LogWriter

  type ConnId = nat

  const STREAM_BUFFER_SIZE := 32

  datatype Phase = Receiving | Closing(left: set<Stream>)

  /**
   * A connection. `delivered` is the history of messages it has put into the channel, `pending` the
   * message it has booked and is still sending, `lost` the one it had booked when it was closed.
   */
  datatype Conn = Conn(delivered: seq<Message>, pending: Option<Message>, lost: Option<Message>,
                       openIds: set<Stream>, phase: Phase)

  /**
   * `sent` is the history of the channel: the first `popped` items have left it, the others are
   * queued. The first `written` items are in the file; unless the writer has failed, these are all
   * the popped ones.
   */
  datatype State = State(conns: map<ConnId, Conn>, sent: seq<Item>, popped: nat, written: nat, failed: bool,
                         file: seq<Byte>, flushed: nat, responses: seq<Response>)

  datatype Action =
    | Connect(conn: ConnId)
    | Read(conn: ConnId, msg: Message)
    | Enqueue(conn: ConnId)
    | Close(conn: ConnId)
    | EmergencyEnd(conn: ConnId, stream: Stream)
    | Write(flushTo: nat)
    | WriteFail(cut: nat, flushTo: nat)
    | Reject
    | FlushEarly(flushTo: nat)

  function Opt(m: Option<Message>): seq<Message> { if m.Some? then [m.value] else [] }

  /** Everything the connection has read from its worker. */
  function Received(c: Conn): seq<Message> { c.delivered + Opt(c.pending) + Opt(c.lost) }

  predicate Init(s: State)
  {
    && s.conns == map[] && s.sent == [] && s.popped == 0 && s.written == 0 && s.responses == []
    && if s.failed then s.file <= Header() && s.flushed <= |s.file|
       else s.file == Header() && s.flushed == HEADER_SIZE
  }

  /**
   * What a worker sends: per execution Start, then data on the two channels, then End, all on one
   * connection, and no execution twice.
   */
  predicate MaySend(s: State, c: ConnId, m: Message)
    requires c in s.conns
  {
    && Fits(m)
    && match m
       case Start(t, i) => forall d :: d in s.conns ==> m !in Received(s.conns[d])
       case Data(t, i, ch, _) => ch < 2 && Live(Received(s.conns[c]), t, i)
       case End(t, i) => Live(Received(s.conns[c]), t, i)
  }

  predicate Live(ms: seq<Message>, t: TaskId, i: InstanceId)
  {
    Start(t, i) in ms && End(t, i) !in ms
  }

  predicate Enabled(s: State, a: Action)
  {
    match a
    case Connect(c) => c !in s.conns
    case Read(c, m) => c in s.conns && s.conns[c].phase.Receiving? && s.conns[c].pending.None? && MaySend(s, c, m)
    case Enqueue(c) => c in s.conns && s.conns[c].pending.Some? && |s.sent| < s.popped + STREAM_BUFFER_SIZE
    case Close(c) => c in s.conns && s.conns[c].phase.Receiving?
    case EmergencyEnd(c, p) =>
      && c in s.conns && s.conns[c].phase.Closing? && p in s.conns[c].phase.left
      && |s.sent| < s.popped + STREAM_BUFFER_SIZE
    case Write(f) =>
      && !s.failed && s.popped < |s.sent|
      && s.flushed <= f <= |s.file| + |Encode(s.sent[s.popped].msg)|
    case WriteFail(cut, f) =>
      && !s.failed && s.popped < |s.sent|
      && cut <= |Encode(s.sent[s.popped].msg)| && s.flushed <= f <= |s.file| + cut
    case Reject => s.failed && s.popped < |s.sent|
    case FlushEarly(f) => s.flushed <= f <= |s.file|
  }

  function Booked(open: set<Stream>, m: Message): set<Stream>
  {
    match m
    case Start(t, i) => open + {(t, i)}
    case Data(_, _, _, _) => open
    case End(t, i) => open - {(t, i)}
  }

  function Next(s: State, a: Action): State
    requires Enabled(s, a)
  {
    match a
    case Connect(c) => s.(conns := s.conns[c := Conn([], None, None, {}, Receiving)])
    case Read(c, m) =>
      var conn := s.conns[c];
      s.(conns := s.conns[c := conn.(pending := Some(m), openIds := Booked(conn.openIds, m))])
    case Enqueue(c) =>
      var conn := s.conns[c];
      s.(conns := s.conns[c := conn.(delivered := conn.delivered + [conn.pending.value], pending := None)],
         sent := s.sent + [Item(conn.pending.value, Some(c))])
    case Close(c) =>
      var conn := s.conns[c];
      s.(conns := s.conns[c := conn.(pending := None, lost := conn.pending, phase := Closing(conn.openIds))])
    case EmergencyEnd(c, p) =>
      var conn := s.conns[c];
      s.(conns := s.conns[c := conn.(phase := Closing(conn.phase.left - {p}))],
         sent := s.sent + [Item(End(p.0, p.1), None)])
    case Write(f) =>
      var x := s.sent[s.popped];
      var file := s.file + Encode(x.msg);
      s.(popped := s.popped + 1, written := s.written + 1, file := file,
         flushed := if x.msg.End? then |file| else f, responses := s.responses + AckOf(x))
    case WriteFail(cut, f) =>
      var x := s.sent[s.popped];
      s.(popped := s.popped + 1, failed := true, file := s.file + Encode(x.msg)[..cut],
         flushed := f, responses := s.responses + ErrorOf(x))
    case Reject =>
      s.(popped := s.popped + 1, responses := s.responses + ErrorOf(s.sent[s.popped]))
    case FlushEarly(f) => s.(flushed := f)
  }

  /** The state a run of actions leads to, None if some action is not possible. */
  function Exec(s: State, run: seq<Action>): Option<State>
  {
    if run == [] then Some(s)
    else
      var before := Exec(s, run[..|run| - 1]);
      var a := run[|run| - 1];
      if before.Some? && Enabled(before.value, a) then Some(Next(before.value, a)) else None
  }

  // ---- Messages of one execution -------------------------------------------------------------

  predicate Of(m: Message, t: TaskId, i: InstanceId) { m.task == t && m.inst == i }

  /** The messages of one execution, in order. */
  function Inst(ms: seq<Message>, t: TaskId, i: InstanceId): seq<Message>
  {
    if ms == [] then []
    else Inst(ms[..|ms| - 1], t, i) + if Of(ms[|ms| - 1], t, i) then [ms[|ms| - 1]] else []
  }

  lemma InstSnoc(ms: seq<Message>, m: Message, t: TaskId, i: InstanceId)
    ensures Inst(ms + [m], t, i) == Inst(ms, t, i) + if Of(m, t, i) then [m] else []
  {
    assert (ms + [m])[..|ms|] == ms;
  }

  lemma {:induction false} InstAppend(a: seq<Message>, b: seq<Message>, t: TaskId, i: InstanceId)
    ensures Inst(a + b, t, i) == Inst(a, t, i) + Inst(b, t, i)
  {
    if b == [] {
      assert a + b == a;
    } else {
      var init, m := b[..|b| - 1], b[|b| - 1];
      InstAppend(a, init, t, i);
      assert a + b == (a + init) + [m];
      InstSnoc(a + init, m, t, i);
    }
  }

  lemma {:induction false} InstMember(ms: seq<Message>, t: TaskId, i: InstanceId, m: Message)
    ensures m in Inst(ms, t, i) <==> m in ms && Of(m, t, i)
  {
    if ms != [] {
      var n := |ms| - 1;
      InstMember(ms[..n], t, i, m);
      assert ms == ms[..n] + [ms[n]];
    }
  }

  /** The data of an execution depends on its own messages only. */
  lemma {:induction false} DataOfInst(ms: seq<Message>, t: TaskId, i: InstanceId, c: U32)
    ensures DataOf(ms, t, i, c) == DataOf(Inst(ms, t, i), t, i, c)
  {
    if ms != [] {
      var init, m := ms[..|ms| - 1], ms[|ms| - 1];
      DataOfInst(init, t, i, c);
      if Of(m, t, i) {
        var r := Inst(ms, t, i);
        assert r[..|r| - 1] == Inst(init, t, i);
      } else {
        assert Inst(ms, t, i) == Inst(init, t, i);
      }
    }
  }

  /** The stream begins with its only Start. */
  predicate StreamOk(ms: seq<Message>, t: TaskId, i: InstanceId)
  {
    ms != [] ==> ms[0] == Start(t, i) && forall k :: 0 < k < |ms| ==> ms[k] != Start(t, i)
  }

  predicate ChannelsOk(ms: seq<Message>)
  {
    forall k :: 0 <= k < |ms| && ms[k].Data? ==> ms[k].channel < 2
  }

  /** Acceptance by `make_index` is a property of each execution on its own. */
  lemma AcceptsByStream(ms: seq<Message>)
    requires ChannelsOk(ms)
    requires forall t, i :: StreamOk(Inst(ms, t, i), t, i)
    ensures Accepts(ms)
  {
    forall k | 0 <= k < |ms| ensures Admissible(ms[..k], ms[k]) {
      var m := ms[k];
      var t, i := m.task, m.inst;
      assert ms == ms[..k] + [m] + ms[k + 1..];
      InstAppend(ms[..k] + [m], ms[k + 1..], t, i);
      InstSnoc(ms[..k], m, t, i);
      var before, all := Inst(ms[..k], t, i), Inst(ms, t, i);
      assert all[|before|] == m;
      assert StreamOk(all, t, i);
      if before != [] { assert before[0] == all[0]; }
      InstMember(ms[..k], t, i, Start(t, i));
    }
  }
}
