/**
 * What the stream server leaves behind: which copies of the file open, what a connection that has
 * ended leaves in it, and what is in the file once all connections are gone and the writer has
 * stopped. What is still in the writer's buffer at that moment is lost: the file on disk is the
 * flushed part.
 */
module StreamDrain {
  import opened Bytes
  import opened LogFormat
  import opened LogIndex
  import opened LogSpec
  import opened LogWriter
  import opened StreamServer
  import opened StreamFeed
  import opened StreamSafety

  // ---- Which copies of the file open ---------------------------------------------------------

  /** The connection was closed while the Start of the execution was booked but not yet in the channel. */
  predicate LosesStartOf(c: Conn, t: TaskId, i: InstanceId) { c.lost == Some(Start(t, i)) }

  /** The item is an emergency End for an execution whose Start was lost. */
  predicate Orphan(conns: map<ConnId, Conn>, x: Item)
  {
    x.msg.End? && exists c :: c in conns && LosesStartOf(conns[c], x.msg.task, x.msg.inst)
  }

  predicate Poisoned(s: State, n: nat)
    requires n <= |s.sent|
  {
    exists k :: 0 <= k < n && Orphan(s.conns, s.sent[k])
  }

  lemma FedStreamOk(conn: Conn, t: TaskId, i: InstanceId)
    requires ConnOk(conn) && Owns(conn, t, i) && !LosesStartOf(conn, t, i)
    ensures StreamOk(Inst(conn.delivered, t, i) + Emergency(conn, t, i), t, i)
  {
    hide WorkerOrder, Inst, OpenOf;
    var d := conn.delivered;
    assert Received(conn)[..|d|] == d;
    WorkerOrderPrefix(Received(conn), |d|);
    InstShape(d, t, i);
    InstMember(d, t, i, Start(t, i));
    if Emergency(conn, t, i) != [] {
      OpenMember(Received(conn), t, i);
      assert Start(t, i) in d;
    }
  }

  /** Of an execution whose Start was lost, the channel has seen nothing but possibly its emergency End. */
  lemma LostStartFeeds(s: State, c: ConnId, t: TaskId, i: InstanceId)
    requires FeedInv(s.conns, s.sent) && c in s.conns && LosesStartOf(s.conns[c], t, i)
    ensures Owns(s.conns[c], t, i)
    ensures Inst(Msgs(s.sent), t, i) == Emergency(s.conns[c], t, i)
  {
    hide Inst, WorkerOrder, Msgs, OpenOf;
    var conn := s.conns[c];
    var d, m := conn.delivered, conn.lost.value;
    assert ConnOk(conn);
    assert Received(conn) == d + [m];
    WorkerOrderSnoc(d, m);
    assert Owns(conn, t, i);
    assert Fed(s.sent, conn, t, i);
    NoneBeforeStart(d, t, i);
    assert [] + Emergency(conn, t, i) == Emergency(conn, t, i);
  }

  lemma PrefixInst(sent: seq<Item>, n: nat, t: TaskId, i: InstanceId)
    requires n <= |sent|
    ensures Inst(Msgs(sent[..n]), t, i) <= Inst(Msgs(sent), t, i)
  {
    hide Inst;
    assert Msgs(sent) == Msgs(sent[..n]) + Msgs(sent[n..]);
    InstAppend(Msgs(sent[..n]), Msgs(sent[n..]), t, i);
  }

  lemma PrefixStreamOk(s: State, n: nat, t: TaskId, i: InstanceId)
    requires FeedInv(s.conns, s.sent) && n <= |s.sent| && !Poisoned(s, n)
    ensures StreamOk(Inst(Msgs(s.sent[..n]), t, i), t, i)
  {
    hide Inst, WorkerOrder, OpenOf, ConnOk, Owns, LosesStartOf, Poisoned;
    PrefixInst(s.sent, n, t, i);
    if HasOwner(s.conns, t, i) {
      var c :| c in s.conns && Owns(s.conns[c], t, i);
      assert ConnOk(s.conns[c]);
      if LosesStartOf(s.conns[c], t, i) {
        LostStartFeeds(s, c, t, i);
        NotYetOrphaned(s, n, c, t, i);
      } else {
        assert Fed(s.sent, s.conns[c], t, i);
        FedStreamOk(s.conns[c], t, i);
      }
    }
  }

  lemma NotYetOrphaned(s: State, n: nat, c: ConnId, t: TaskId, i: InstanceId)
    requires n <= |s.sent| && !Poisoned(s, n) && c in s.conns && LosesStartOf(s.conns[c], t, i)
    requires Inst(Msgs(s.sent[..n]), t, i) <= Emergency(s.conns[c], t, i)
    ensures Inst(Msgs(s.sent[..n]), t, i) == []
  {
    hide Inst;
    var ms := Msgs(s.sent[..n]);
    forall k | 0 <= k < |ms| ensures ms[k] != End(t, i) { assert !Orphan(s.conns, s.sent[k]); }
    InstMember(ms, t, i, End(t, i));
    var x := Inst(ms, t, i);
    assert x <= [End(t, i)];
    assert End(t, i) !in x;
    OneAtMost(x, End(t, i));
  }

  lemma OneAtMost(x: seq<Message>, m: Message)
    requires x <= [m]
    ensures x == [] || x == [m]
  {
  }

  lemma PoisonIsRefused(s: State, n: nat)
    requires FeedInv(s.conns, s.sent) && n <= |s.sent| && Poisoned(s, n)
    ensures !Accepts(Msgs(s.sent[..n]))
  {
    hide Inst, FeedInv;
    var k :| 0 <= k < n && Orphan(s.conns, s.sent[k]);
    var t, i := s.sent[k].msg.task, s.sent[k].msg.inst;
    var c :| c in s.conns && LosesStartOf(s.conns[c], t, i);
    LostStartFeeds(s, c, t, i);
    var ms := Msgs(s.sent[..n]);
    InstMember(Msgs(s.sent), t, i, Start(t, i));
    assert Start(t, i) !in Msgs(s.sent);
    assert forall p :: 0 <= p < n ==> ms[p] == Msgs(s.sent)[p];
    assert Start(t, i) !in ms;
    assert !Admissible(ms[..k], ms[k]);
  }

  lemma ItemsFit(s: State, n: nat)
    requires FeedInv(s.conns, s.sent) && n <= |s.sent|
    ensures AllFit(Msgs(s.sent[..n])) && ChannelsOk(Msgs(s.sent[..n]))
  {
    hide ConnsOk, AllFed, AllOwned;
    var ms := Msgs(s.sent[..n]);
    forall k | 0 <= k < |ms| ensures Fits(ms[k]) && (ms[k].Data? ==> ms[k].channel < 2) {
      assert ItemOk(s.conns, s.sent[k]);
    }
  }

  /**
   * In every state, every prefix of what went through the channel is a log that opens if and only if
   * it holds no End of an execution whose Start was lost.
   */
  lemma PrefixIsReadable(s: State, n: nat)
    requires FeedInv(s.conns, s.sent) && n <= |s.sent|
    ensures AllFit(Msgs(s.sent[..n]))
    ensures Accepts(Msgs(s.sent[..n])) <==> !Poisoned(s, n)
    ensures Readable(Log(Msgs(s.sent[..n]))) <==> !Poisoned(s, n)
  {
    hide FeedInv, Inst, Poisoned, Accepts, Readable, Msgs, StreamOk;
    var ms := Msgs(s.sent[..n]);
    ItemsFit(s, n);
    if Poisoned(s, n) {
      PoisonIsRefused(s, n);
    } else {
      forall t, i ensures StreamOk(Inst(ms, t, i), t, i) { PrefixStreamOk(s, n, t, i); }
      AcceptsByStream(ms);
    }
    ReadableLog(ms);
  }

  /** The file is always the beginning of the log of what went through the channel. */
  lemma FileIsLog(s: State) returns (w: nat)
    requires WriterInv(s) && Header() <= s.file
    ensures w <= |s.sent| && s.written <= w && s.file <= Log(Msgs(s.sent[..w]))
    ensures !s.failed ==> w == s.written
  {
    hide Msgs, Header, Acks, Errors, AckedAreFlushed, EncodeAll;
    if s.failed && s.written < s.popped {
      w := s.written + 1;
    } else {
      w := s.written;
      if s.failed { EmptyLog(s.sent); }
    }
  }

  /**
   * In every state, the file cut anywhere behind its header opens if and only if the cut is not inside
   * the fixed part of a block and the blocks before it hold no End of an execution whose Start was
   * lost; then these blocks are what is read, the last one possibly clipped.
   */
  lemma CopyIsReadable(s: State, w: nat, cut: nat)
    requires Inv(s) && w <= |s.sent| && s.file <= Log(Msgs(s.sent[..w])) && HEADER_SIZE <= cut <= |s.file|
    ensures
      var ms := Msgs(s.sent[..w]);
      && (Readable(s.file[..cut]) <==> CleanCut(ms, cut) && !Poisoned(s, BlocksIn(ms, cut)))
      && (Readable(s.file[..cut]) ==> ClippedTo(MessagesIn(s.file[..cut]), ms[..BlocksIn(ms, cut)]))
  {
    hide FeedInv, WriterInv, Msgs, Log, Poisoned, Accepts, Readable, MessagesIn, CleanCut, ClippedTo, BlocksIn;
    var ms := Msgs(s.sent[..w]);
    ItemsFit(s, w);
    assert s.file[..cut] == Log(ms)[..cut];
    CutIsReadable(ms, cut);
    var n := BlocksIn(ms, cut);
    assert ms[..n] == Msgs(s.sent[..n]) by { MsgsPrefix(s.sent, w, n); }
    PrefixIsReadable(s, n);
  }

  /** So it is for every copy of the file taken at any moment of any run, also after a failed write. */
  lemma RunCopies(s: State, run: seq<Action>, cut: nat) returns (w: nat)
    requires Init(s) && Exec(s, run).Some? && HEADER_SIZE <= cut <= |Exec(s, run).value.file|
    ensures
      var z := Exec(s, run).value;
      && z.written <= w <= |z.sent| && z.file <= Log(Msgs(z.sent[..w])) && (!z.failed ==> w == z.written)
      && var ms := Msgs(z.sent[..w]);
      && (Readable(z.file[..cut]) <==> CleanCut(ms, cut) && !Poisoned(z, BlocksIn(ms, cut)))
      && (Readable(z.file[..cut]) ==> ClippedTo(MessagesIn(z.file[..cut]), ms[..BlocksIn(ms, cut)]))
  {
    hide Exec, Init, FeedInv, WriterInv, Msgs, Log, Poisoned, CleanCut, ClippedTo, BlocksIn, Readable, MessagesIn, Header;
    RunInv(s, run);
    var z := Exec(s, run).value;
    HasHeader(z);
    w := FileIsLog(z);
    CopyIsReadable(z, w, cut);
  }

  lemma HasHeader(s: State)
    requires WriterInv(s) && HEADER_SIZE <= |s.file|
    ensures Header() <= s.file
  {
    hide Msgs, Header, Acks, Errors, AckedAreFlushed;
    HeaderFirst(Msgs(s.sent[..s.written]));
  }

  lemma MsgsPrefix(sent: seq<Item>, w: nat, n: nat)
    requires n <= w <= |sent|
    ensures Msgs(sent[..w])[..n] == Msgs(sent[..n])
  {
  }

  // ---- What a connection that has ended leaves behind ----------------------------------------

  function EndCount(ms: seq<Message>, t: TaskId, i: InstanceId): nat
  {
    if ms == [] then 0 else EndCount(ms[..|ms| - 1], t, i) + if ms[|ms| - 1] == End(t, i) then 1 else 0
  }

  lemma {:induction false} EndCountInst(ms: seq<Message>, t: TaskId, i: InstanceId)
    ensures EndCount(ms, t, i) == EndCount(Inst(ms, t, i), t, i)
  {
    if ms != [] {
      var init, m := ms[..|ms| - 1], ms[|ms| - 1];
      EndCountInst(init, t, i);
      if Of(m, t, i) {
        var r := Inst(ms, t, i);
        assert r[..|r| - 1] == Inst(init, t, i);
      } else {
        assert Inst(ms, t, i) == Inst(init, t, i);
      }
    }
  }

  lemma {:induction false} EndCountIn(ms: seq<Message>, t: TaskId, i: InstanceId)
    requires forall p :: 0 <= p < |ms| && ms[p] == End(t, i) ==> p == |ms| - 1
    ensures EndCount(ms, t, i) == if End(t, i) in ms then 1 else 0
  {
    if ms != [] {
      var init := ms[..|ms| - 1];
      assert End(t, i) !in init;
      EndCountIn(init, t, i);
    }
  }

  /** The connection is closed, by whatever route, and all its emergency Ends have been sent. */
  predicate Ended(c: Conn) { c.phase.Closing? && c.phase.left == {} }

  /** Nothing of the connection's executions is still on its way to the file. */
  predicate Through(s: State, c: ConnId)
    requires c in s.conns && s.written <= |s.sent|
  {
    forall k :: s.written <= k < |s.sent| ==> !Owns(s.conns[c], s.sent[k].msg.task, s.sent[k].msg.inst)
  }

  /**
   * Once a connection has ended, the channel has carried exactly one End of every execution it
   * started, its own or an emergency one; only an End that was booked and not sent on is missing.
   */
  lemma EndedSendsEnds(s: State, c: ConnId, t: TaskId, i: InstanceId)
    requires FeedInv(s.conns, s.sent) && c in s.conns && Ended(s.conns[c]) && Owns(s.conns[c], t, i)
    ensures EndCount(Msgs(s.sent), t, i) == if s.conns[c].lost == Some(End(t, i)) then 0 else 1
  {
    hide Inst, WorkerOrder, EndCount, Msgs;
    var conn := s.conns[c];
    assert ConnOk(conn) && Fed(s.sent, conn, t, i);
    var d, r := conn.delivered, Received(conn);
    OpenMember(r, t, i);
    EndCountInst(Msgs(s.sent), t, i);
    assert r[..|d|] == d;
    WorkerOrderPrefix(r, |d|);
    InstShape(d, t, i);
    InstMember(d, t, i, End(t, i));
    var all := Inst(d, t, i) + Emergency(conn, t, i);
    if End(t, i) in d {
      StartedBefore(d, End(t, i));
      assert conn.lost != Some(End(t, i)) by {
        if conn.lost == Some(End(t, i)) {
          assert r == d + [End(t, i)];
          WorkerOrderSnoc(d, End(t, i));
        }
      }
      assert all == Inst(d, t, i);
    } else {
      assert End(t, i) !in Inst(d, t, i);
    }
    EndCountIn(all, t, i);
  }

  lemma {:induction false} NoneOf(ms: seq<Message>, t: TaskId, i: InstanceId)
    requires forall k :: 0 <= k < |ms| ==> !Of(ms[k], t, i)
    ensures Inst(ms, t, i) == []
  {
    if ms != [] { NoneOf(ms[..|ms| - 1], t, i); }
  }

  lemma WrittenInst(s: State, c: ConnId, t: TaskId, i: InstanceId)
    requires s.written <= |s.sent| && c in s.conns && Through(s, c) && Owns(s.conns[c], t, i)
    ensures Inst(Msgs(s.sent[..s.written]), t, i) == Inst(Msgs(s.sent), t, i)
  {
    hide Inst, Owns;
    var a, b := Msgs(s.sent[..s.written]), Msgs(s.sent[s.written..]);
    assert Msgs(s.sent) == a + b;
    InstAppend(a, b, t, i);
    NoneOf(b, t, i);
  }

  lemma {:induction false} EndIsThere(ms: seq<Message>, t: TaskId, i: InstanceId)
    ensures EndCount(ms, t, i) > 0 <==> End(t, i) in ms
  {
    if ms != [] {
      EndIsThere(ms[..|ms| - 1], t, i);
      assert ms == ms[..|ms| - 1] + [ms[|ms| - 1]];
    }
  }

  /**
   * Once a connection has ended and its messages are through, whatever the other connections of the
   * job do: the file holds exactly one End of every execution it started, and everything up to that End
   * is flushed; only an End that was booked and not sent on is missing.
   */
  lemma EndedIsClosed(s: State, c: ConnId, t: TaskId, i: InstanceId)
    requires Inv(s) && c in s.conns && Ended(s.conns[c]) && s.written <= |s.sent| && Through(s, c) && Owns(s.conns[c], t, i)
    ensures EndCount(Msgs(s.sent[..s.written]), t, i) == if s.conns[c].lost == Some(End(t, i)) then 0 else 1
    ensures s.conns[c].lost != Some(End(t, i)) ==>
              exists k :: 0 <= k < s.written && s.sent[k].msg == End(t, i)
                          && Log(Msgs(s.sent[..k + 1])) <= s.file[..s.flushed]
  {
    hide FeedInv, Inst, Msgs, Through, Ended, Owns, EndCount, Log, WriterInv;
    WriterBounds(s);
    var ms := Msgs(s.sent[..s.written]);
    EndedSendsEnds(s, c, t, i);
    WrittenInst(s, c, t, i);
    EndCountInst(ms, t, i);
    EndCountInst(Msgs(s.sent), t, i);
    if s.conns[c].lost != Some(End(t, i)) {
      EndIsThere(ms, t, i);
      var k :| 0 <= k < |ms| && ms[k] == End(t, i);
      WrittenIsFlushed(s, k);
    }
  }

  lemma WriterBounds(s: State)
    requires WriterInv(s)
    ensures s.written <= s.popped <= |s.sent| && s.flushed <= |s.file|
  {
  }

  lemma WrittenIsFlushed(s: State, k: nat)
    requires WriterInv(s) && k < s.written && Msgs(s.sent[..s.written])[k].End?
    ensures s.sent[k].msg == Msgs(s.sent[..s.written])[k] && s.flushed <= |s.file|
    ensures Log(Msgs(s.sent[..k + 1])) <= s.file[..s.flushed]
  {
    hide Log, Header, Acks, Errors;
    assert s.sent[k].msg.End?;
    hide Msgs;
    LogPrefix(s.sent, k + 1, s.written);
  }

  /** The same over every run and every interleaving of connections. */
  lemma RunEnds(s: State, run: seq<Action>, c: ConnId, t: TaskId, i: InstanceId)
    requires Init(s) && Exec(s, run).Some?
    requires
      var z := Exec(s, run).value;
      c in z.conns && Ended(z.conns[c]) && z.written <= |z.sent| && Through(z, c) && Start(t, i) in Received(z.conns[c])
    ensures
      var z := Exec(s, run).value;
      && z.flushed <= |z.file|
      && EndCount(Msgs(z.sent[..z.written]), t, i) == (if z.conns[c].lost == Some(End(t, i)) then 0 else 1)
      && (z.conns[c].lost != Some(End(t, i)) ==>
            exists k :: 0 <= k < z.written && z.sent[k].msg == End(t, i)
                        && Log(Msgs(z.sent[..k + 1])) <= z.file[..z.flushed])
  {
    hide Exec, Init, Inv, Ended, Through, Received, EndCount, Msgs, Log;
    RunInv(s, run);
    InvBounds(Exec(s, run).value);
    EndedIsClosed(Exec(s, run).value, c, t, i);
  }

  lemma InvBounds(s: State)
    requires Inv(s)
    ensures s.written <= |s.sent| && s.flushed <= |s.file|
  {
    hide FeedInv, Log, Acks, Errors, AckedAreFlushed;
  }

  // ---- When all connections are gone ---------------------------------------------------------

  /** All connections have ended, and the channel has drained without a write error: the writer stops. */
  predicate Drained(s: State)
  {
    !s.failed && s.popped == |s.sent| && forall c :: c in s.conns ==> Ended(s.conns[c])
  }

  /** What is in the file when the writer has stopped. */
  function OnDisk(s: State): seq<Byte>
    requires s.flushed <= |s.file|
  {
    s.file[..s.flushed]
  }

  /** Which of its messages a connection may lose when it is closed. */
  datatype Kind = OfStart | OfEnd

  predicate IsKind(m: Message, kind: Kind) { if kind.OfStart? then m.Start? else m.End? }

  predicate Loses(c: Conn, kind: Kind) { c.lost.Some? && IsKind(c.lost.value, kind) }

  predicate SomeLost(s: State, kind: Kind) { exists c :: c in s.conns && Loses(s.conns[c], kind) }

  lemma DrainedFile(s: State)
    requires Inv(s) && Drained(s)
    ensures s.written == |s.sent| && s.flushed <= |s.file| && s.file == Log(Msgs(s.sent)) && AllFit(Msgs(s.sent))
    ensures HEADER_SIZE <= |Log(ClosedPart(Msgs(s.sent)))| <= s.flushed
  {
    hide FeedInv, Msgs, Acks, Errors, Header, EncodeAll, AckedAreFlushed, ClosedPart;
    assert s.sent[..|s.sent|] == s.sent;
    ItemsFit(s, |s.sent|);
    ClosedIsFlushed(s.sent, s.flushed);
  }

  /** Unless an End was lost, the last message of all closes a stream, so nothing stays in the buffer. */
  lemma NoLostEndCloses(s: State)
    requires Inv(s) && Drained(s) && !SomeLost(s, OfEnd)
    ensures EndsClosed(Msgs(s.sent))
  {
    hide FeedInv, WriterInv, Inst, EndCount, Owns, Msgs;
    if s.sent != [] {
      var n := |s.sent| - 1;
      MsgAt(s.sent, n);
      var t, i := s.sent[n].msg.task, s.sent[n].msg.inst;
      var c := SentIsOwned(s, n);
      assert !Loses(s.conns[c], OfEnd);
      EndedSendsEnds(s, c, t, i);
      EndIsThere(Msgs(s.sent), t, i);
      LastIsEnd(s, c, t, i);
    } else {
      NoMsgs();
    }
  }

  lemma NoMsgs()
    ensures Msgs([]) == []
  {
  }

  lemma SentIsOwned(s: State, k: nat) returns (c: ConnId)
    requires FeedInv(s.conns, s.sent) && k < |s.sent|
    ensures c in s.conns && Owns(s.conns[c], s.sent[k].msg.task, s.sent[k].msg.inst)
  {
    hide Inst, Owns, Msgs, ConnsOk, AllFed, ItemOk;
    var m := s.sent[k].msg;
    MsgAt(s.sent, k);
    InstMember(Msgs(s.sent), m.task, m.inst, m);
    assert HasOwner(s.conns, m.task, m.inst);
    c :| c in s.conns && Owns(s.conns[c], m.task, m.inst);
  }

  lemma MsgAt(sent: seq<Item>, k: nat)
    requires k < |sent|
    ensures |Msgs(sent)| == |sent| && Msgs(sent)[k] == sent[k].msg
  {
  }

  /** The End of an execution is the last of its messages in the channel. */
  lemma LastIsEnd(s: State, c: ConnId, t: TaskId, i: InstanceId)
    requires FeedInv(s.conns, s.sent) && c in s.conns && Owns(s.conns[c], t, i) && End(t, i) in Msgs(s.sent)
    ensures s.sent != [] && (Of(s.sent[|s.sent| - 1].msg, t, i) ==> s.sent[|s.sent| - 1].msg == End(t, i))
  {
    hide Inst, ConnOk, Owns, Emergency;
    var ms := Msgs(s.sent);
    assert ConnOk(s.conns[c]) && Fed(s.sent, s.conns[c], t, i);
    var all := Inst(ms, t, i);
    InstMember(ms, t, i, End(t, i));
    FedEndsWithEnd(s.conns[c], t, i);
    var init, m := ms[..|ms| - 1], ms[|ms| - 1];
    assert ms == init + [m];
    InstSnoc(init, m, t, i);
    assert all[|all| - 1] == End(t, i);
  }

  lemma FedEndsWithEnd(conn: Conn, t: TaskId, i: InstanceId)
    requires ConnOk(conn) && End(t, i) in Inst(conn.delivered, t, i) + Emergency(conn, t, i)
    ensures var all := Inst(conn.delivered, t, i) + Emergency(conn, t, i); all[|all| - 1] == End(t, i)
  {
    hide Inst, WorkerOrder, OpenOf;
    var d := conn.delivered;
    assert Received(conn)[..|d|] == d;
    WorkerOrderPrefix(Received(conn), |d|);
    InstShape(d, t, i);
    InstMember(d, t, i, End(t, i));
  }

  lemma {:induction false} BlocksReach(ms: seq<Message>, n: nat, cut: nat)
    requires n <= |ms| && |Log(ms[..n])| <= cut
    ensures n <= BlocksIn(ms, cut)
    decreases |ms|
  {
    hide Log, Encode;
    if n == |ms| {
      assert ms[..n] == ms;
      AllBlocks(ms, cut);
    } else {
      var init := ms[..|ms| - 1];
      assert init[..n] == ms[..n];
      BlocksReach(init, n, cut);
    }
  }

  /** A lost Start always poisons the file: its emergency End is written and flushed. */
  lemma LostStartPoisons(s: State)
    requires Inv(s) && Drained(s) && SomeLost(s, OfStart)
    ensures Poisoned(s, BlocksIn(Msgs(s.sent), s.flushed))
  {
    hide WriterInv, FeedInv, Inst, EndCount, Log, BlocksIn, Msgs;
    var c :| c in s.conns && Loses(s.conns[c], OfStart);
    var conn := s.conns[c];
    var t, i := conn.lost.value.task, conn.lost.value.inst;
    assert LosesStartOf(conn, t, i);
    LostStartFeeds(s, c, t, i);
    EndedSendsEnds(s, c, t, i);
    var ms := Msgs(s.sent);
    EndIsThere(ms, t, i);
    var k :| 0 <= k < |ms| && ms[k] == End(t, i);
    MsgAt(s.sent, k);
    DrainedFile(s);
    FlushedEnd(s, k);
    assert Orphan(s.conns, s.sent[k]);
  }

  lemma FlushedEnd(s: State, k: nat)
    requires WriterInv(s) && s.written == |s.sent| && k < |s.sent| && s.sent[k].msg.End?
    ensures k < BlocksIn(Msgs(s.sent), s.flushed)
  {
    hide Log, Header, Acks, Errors, BlocksIn;
    assert |Log(Msgs(s.sent[..k + 1]))| <= s.flushed;
    assert Msgs(s.sent)[..k + 1] == Msgs(s.sent[..k + 1]);
    BlocksReach(Msgs(s.sent), k + 1, s.flushed);
  }

  /**
   * The file left behind opens if and only if no Start was lost and the writer's buffer did not end
   * inside the fixed part of a block. It then shows the messages up to there, and it is the whole log
   * unless an End was lost.
   */
  lemma DrainedReadable(s: State)
    requires Inv(s) && Drained(s)
    ensures s.flushed <= |s.file|
    ensures Readable(OnDisk(s)) <==> !SomeLost(s, OfStart) && CleanCut(Msgs(s.sent), s.flushed)
    ensures Readable(OnDisk(s)) ==> ClippedTo(MessagesIn(OnDisk(s)), Msgs(s.sent)[..BlocksIn(Msgs(s.sent), s.flushed)])
    ensures !SomeLost(s, OfEnd) ==> OnDisk(s) == s.file == Log(Msgs(s.sent))
  {
    hide WriterInv, FeedInv, Msgs, Log, Drained, ClosedPart, EndsClosed, Readable, MessagesIn, CleanCut, ClippedTo, BlocksIn, SomeLost;
    DrainedFile(s);
    assert s.sent[..|s.sent|] == s.sent;
    CopyIsReadable(s, |s.sent|, s.flushed);
    if SomeLost(s, OfStart) {
      LostStartPoisons(s);
    } else {
      NoLostStart(s, BlocksIn(Msgs(s.sent), s.flushed));
    }
    if !SomeLost(s, OfEnd) {
      NoLostEndCloses(s);
      ClosedPartIsAll(Msgs(s.sent));
    }
  }

  lemma NoLostStart(s: State, n: nat)
    requires n <= |s.sent| && !SomeLost(s, OfStart)
    ensures !Poisoned(s, n)
  {
    forall k | 0 <= k < n ensures !Orphan(s.conns, s.sent[k]) {
      forall c | c in s.conns ensures !LosesStartOf(s.conns[c], s.sent[k].msg.task, s.sent[k].msg.inst) {
        assert !Loses(s.conns[c], OfStart);
      }
    }
  }

  /** The file opens, and every execution any connection started is closed in it. */
  ghost predicate Intact(s: State)
    requires s.flushed <= |s.file|
  {
    && Readable(OnDisk(s))
    && forall c, t, i :: c in s.conns && Owns(s.conns[c], t, i) ==> Finished(MessagesIn(OnDisk(s)), t, i)
  }

  lemma LostEndIsMissing(s: State)
    requires Inv(s) && Drained(s) && SomeLost(s, OfEnd) && s.flushed <= |s.file|
    ensures !Intact(s)
  {
    hide WriterInv, FeedInv, Inst, EndCount, Log, BlocksIn, CleanCut, Readable, MessagesIn, WorkerOrder, OpenOf, Msgs;
    var c :| c in s.conns && Loses(s.conns[c], OfEnd);
    var conn := s.conns[c];
    var t, i := conn.lost.value.task, conn.lost.value.inst;
    assert ConnOk(conn) by { FeedConns(s); }
    assert End(t, i) in Received(conn);
    StartedBefore(Received(conn), End(t, i));
    EndedSendsEnds(s, c, t, i);
    var ms := Msgs(s.sent);
    EndIsThere(ms, t, i);
    assert Owns(conn, t, i);
    DrainedReadable(s);
    if Readable(OnDisk(s)) {
      ClippedHasNoEnd(MessagesIn(OnDisk(s)), ms, BlocksIn(ms, s.flushed), t, i);
    }
  }

  lemma ClippedHasNoEnd(seen: seq<Message>, ms: seq<Message>, n: nat, t: TaskId, i: InstanceId)
    requires n <= |ms| && ClippedTo(seen, ms[..n]) && End(t, i) !in ms
    ensures !Finished(seen, t, i)
  {
    forall k | 0 <= k < |seen| ensures seen[k] != End(t, i) { assert ms[..n][k] == ms[k]; }
  }

  lemma NoLossIsIntact(s: State)
    requires Inv(s) && Drained(s) && !SomeLost(s, OfStart) && !SomeLost(s, OfEnd) && s.flushed <= |s.file|
    ensures Intact(s) && MessagesIn(OnDisk(s)) == Msgs(s.sent)
  {
    hide WriterInv, FeedInv, Inst, EndCount, Log, Readable, MessagesIn, Owns, Msgs;
    DrainedReadable(s);
    DrainedFile(s);
    var ms := Msgs(s.sent);
    NoLostStart(s, |s.sent|);
    assert s.sent[..|s.sent|] == s.sent;
    PrefixIsReadable(s, |s.sent|);
    ReadableLog(ms);
    forall c, t, i | c in s.conns && Owns(s.conns[c], t, i) ensures Finished(ms, t, i) {
      assert !Loses(s.conns[c], OfEnd);
      EndedSendsEnds(s, c, t, i);
      EndIsThere(ms, t, i);
    }
  }

  // ---- Over whole runs -----------------------------------------------------------------------

  /** The connection is closed by the sending arm of its `select!` while such a message is being sent on. */
  predicate LossyClose(s: State, a: Action, kind: Kind)
  {
    a.Close? && a.conn in s.conns && s.conns[a.conn].pending.Some? && IsKind(s.conns[a.conn].pending.value, kind)
  }

  predicate LossyRun(s: State, run: seq<Action>, kind: Kind)
  {
    && run != []
    && var init := run[..|run| - 1];
    LossyRun(s, init, kind) || (Exec(s, init).Some? && LossyClose(Exec(s, init).value, run[|run| - 1], kind))
  }

  lemma LossStep(s: State, a: Action, kind: Kind)
    requires ConnsOk(s.conns) && Enabled(s, a)
    ensures SomeLost(Next(s, a), kind) <==> SomeLost(s, kind) || LossyClose(s, a, kind)
  {
    hide Next, Enabled, LossyClose, Loses, ConnsOk;
    var s' := Next(s, a);
    forall c ensures c in s'.conns && Loses(s'.conns[c], kind) <==>
                     (c in s.conns && Loses(s.conns[c], kind)) || (a == Close(c) && LossyClose(s, a, kind)) {
      ConnLossStep(s, a, kind, c);
    }
    if LossyClose(s, a, kind) {
      assert a.Close? by { LossyIsClose(s, a, kind); }
      assert Loses(s'.conns[a.conn], kind);
    }
  }

  lemma LossyIsClose(s: State, a: Action, kind: Kind)
    requires LossyClose(s, a, kind)
    ensures a.Close?
  {
  }

  lemma ConnLossStep(s: State, a: Action, kind: Kind, c: ConnId)
    requires ConnsOk(s.conns) && Enabled(s, a)
    ensures c in Next(s, a).conns && Loses(Next(s, a).conns[c], kind) <==>
            (c in s.conns && Loses(s.conns[c], kind)) || (a == Close(c) && LossyClose(s, a, kind))
  {
    hide WorkerOrder, OpenOf, Encode, Owns, IsKind, Booked, AckOf, ErrorOf, MaySend;
    assert c in s.conns ==> ConnOk(s.conns[c]);
  }

  /** A Start or End is lost in a run if and only if a connection is closed between booking and sending one. */
  lemma {:induction false} RunLoss(s: State, run: seq<Action>, kind: Kind)
    requires Init(s) && Exec(s, run).Some?
    ensures SomeLost(Exec(s, run).value, kind) <==> LossyRun(s, run, kind)
  {
    hide Enabled, Next, FeedInv, WriterInv, Loses, LossyClose;
    if run != [] {
      var init := run[..|run| - 1];
      RunLoss(s, init, kind);
      RunInv(s, init);
      var before := Exec(s, init).value;
      assert ConnsOk(before.conns) by { FeedConns(before); }
      LossStep(before, run[|run| - 1], kind);
    }
  }

  lemma FeedConns(s: State)
    requires FeedInv(s.conns, s.sent)
    ensures ConnsOk(s.conns)
  {
  }

  /**
   * Over whole runs, once all connections are gone and the channel has drained without a write error:
   * the file opens if and only if no connection was closed between booking a Start and sending it on
   * and the buffer did not end inside the fixed part of a block. The latter cannot happen, and the
   * file is the whole log, unless a connection was closed between booking an End and sending it on.
   * And the file opens with every execution closed in it if and only if neither kind of close happened.
   */
  lemma RunLeavesReadableLog(s: State, run: seq<Action>)
    requires Init(s) && Exec(s, run).Some? && Drained(Exec(s, run).value)
    ensures
      var z := Exec(s, run).value;
      && z.flushed <= |z.file|
      && (Readable(OnDisk(z)) <==> !LossyRun(s, run, OfStart) && CleanCut(Msgs(z.sent), z.flushed))
      && (!LossyRun(s, run, OfEnd) ==> OnDisk(z) == Log(Msgs(z.sent)) && CleanCut(Msgs(z.sent), z.flushed))
      && (Intact(z) <==> !LossyRun(s, run, OfStart) && !LossyRun(s, run, OfEnd))
      && (Intact(z) ==> MessagesIn(OnDisk(z)) == Msgs(z.sent))
  {
    hide Exec, Inv, Drained, SomeLost, LossyRun, Msgs, Log, CleanCut, ClippedTo, BlocksIn, Owns;
    RunInv(s, run);
    RunLoss(s, run, OfStart);
    RunLoss(s, run, OfEnd);
    var z := Exec(s, run).value;
    DrainedReadable(z);
    if SomeLost(z, OfEnd) {
      LostEndIsMissing(z);
    } else {
      WholeIsClean(z);
      if !SomeLost(z, OfStart) { NoLossIsIntact(z); }
    }
  }

  lemma WholeIsClean(s: State)
    requires s.flushed <= |s.file| && OnDisk(s) == Log(Msgs(s.sent))
    ensures CleanCut(Msgs(s.sent), s.flushed)
  {
    hide Log, Msgs, BlocksIn;
    var ms := Msgs(s.sent);
    AllBlocks(ms, s.flushed);
    assert ms[..|ms|] == ms;
  }

  // ---- Both losses happen --------------------------------------------------------------------

  function IdleServer(): State { State(map[], [], 0, 0, false, Header(), HEADER_SIZE, []) }

  lemma ExecSnoc(s: State, run: seq<Action>, a: Action)
    requires Exec(s, run).Some? && Enabled(Exec(s, run).value, a)
    ensures Exec(s, run + [a]) == Some(Next(Exec(s, run).value, a))
  {
    assert (run + [a])[..|run|] == run;
  }

  /** A worker connects and its Start is read and booked. */
  function Opened(): State
  {
    IdleServer().(conns := map[0 := Conn([], Some(Start(7, 1)), None, {(7, 1)}, Receiving)])
  }

  lemma ConnectionOpens()
    ensures Exec(IdleServer(), [Connect(0)] + [Read(0, Start(7, 1))]) == Some(Opened())
  {
    hide Encode, Header;
    ExecSnoc(IdleServer(), [], Connect(0));
    assert [] + [Connect(0)] == [Connect(0)];
    var s1 := Next(IdleServer(), Connect(0));
    assert Received(s1.conns[0]) == [];
    ExecSnoc(IdleServer(), [Connect(0)], Read(0, Start(7, 1)));
    var s2 := Next(s1, Read(0, Start(7, 1)));
    assert s2.conns[0].openIds == {(7, 1)};
    assert s2.conns == Opened().conns;
  }

  /** The connection breaks before its Start is sent on: the log consists of a lonely End. */
  lemma LostStartHappens() returns (run: seq<Action>)
    ensures Init(IdleServer()) && Exec(IdleServer(), run).Some?
    ensures
      var z := Exec(IdleServer(), run).value;
      Drained(z) && z.flushed <= |z.file| && !Readable(OnDisk(z))
  {
    hide Encode, Header, Readable, Inv, CleanCut, BlocksIn;
    ConnectionOpens();
    run := [Connect(0)] + [Read(0, Start(7, 1))];
    ExecSnoc(IdleServer(), run, Close(0));
    run := run + [Close(0)];
    ExecSnoc(IdleServer(), run, EmergencyEnd(0, (7, 1)));
    run := run + [EmergencyEnd(0, (7, 1))];
    ExecSnoc(IdleServer(), run, Write(HEADER_SIZE));
    run := run + [Write(HEADER_SIZE)];
    hide Exec;
    RunInv(IdleServer(), run);
    var z := Exec(IdleServer(), run).value;
    assert Loses(z.conns[0], OfStart);
    DrainedReadable(z);
  }

  /** The Start is written, three of its nine bytes leave the buffer, and the connection breaks at the End. */
  function Unflushed(): State
  {
    State(map[0 := Conn([Start(7, 1)], None, Some(End(7, 1)), {}, Closing({}))], [Item(Start(7, 1), Some(0))], 1, 1, false,
          Header() + Encode(Start(7, 1)), 29, [])
  }

  lemma StartIsWritten() returns (run: seq<Action>)
    ensures Exec(IdleServer(), run) == Some(Unflushed().(conns := map[0 := Conn([Start(7, 1)], None, None, {(7, 1)}, Receiving)]))
  {
    hide Encode, Header, Exec;
    ConnectionOpens();
    run := [Connect(0)] + [Read(0, Start(7, 1))];
    ExecSnoc(IdleServer(), run, Enqueue(0));
    var s1 := Next(Opened(), Enqueue(0));
    assert s1.sent == [Item(Start(7, 1), Some(0))] && s1.conns[0].delivered == [Start(7, 1)];
    run := run + [Enqueue(0)];
    ExecSnoc(IdleServer(), run, Write(29));
    run := run + [Write(29)];
    assert [] + AckOf(s1.sent[0]) == [];
    assert Next(s1, Write(29)).conns == map[0 := Conn([Start(7, 1)], None, None, {(7, 1)}, Receiving)];
  }

  lemma EndBreaks() returns (run: seq<Action>)
    ensures Exec(IdleServer(), run) == Some(Unflushed())
  {
    hide Encode, Header, Exec;
    run := StartIsWritten();
    var s2 := Exec(IdleServer(), run).value;
    assert Received(s2.conns[0]) == [Start(7, 1)];
    ExecSnoc(IdleServer(), run, Read(0, End(7, 1)));
    run := run + [Read(0, End(7, 1))];
    var s3 := Next(s2, Read(0, End(7, 1)));
    assert s3.conns[0].openIds == {};
    ExecSnoc(IdleServer(), run, Close(0));
    run := run + [Close(0)];
    assert Next(s3, Close(0)).conns == Unflushed().conns;
  }

  /** No Start is lost, and yet the file left behind does not open. */
  lemma LostEndHappens() returns (run: seq<Action>)
    ensures Init(IdleServer()) && Exec(IdleServer(), run).Some? && !LossyRun(IdleServer(), run, OfStart)
    ensures
      var z := Exec(IdleServer(), run).value;
      Drained(z) && z.flushed <= |z.file| && !Readable(OnDisk(z))
  {
    hide Encode, Header, Readable, Inv, Exec, LossyRun;
    run := EndBreaks();
    RunInv(IdleServer(), run);
    var z := Unflushed();
    assert !SomeLost(z, OfStart);
    RunLoss(IdleServer(), run, OfStart);
    DrainedReadable(z);
    var ms := Msgs(z.sent);
    assert ms == [Start(7, 1)] && ms[..0] == [];
    EmptyLogSize();
    assert BlocksIn(ms, 29) == 0;
  }
}
