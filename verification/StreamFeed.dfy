/**
 * What every run of the stream server keeps about its connections and the channel: which messages
 * of an execution have been fed to the writer, and in which order.
 */
module StreamFeed {
  import opened Bytes
  import opened LogFormat
  import opened LogIndex
  import opened LogWriter
  import opened StreamServer

  /** The message may follow the ones a connection has read before. */
  predicate MsgOk(before: seq<Message>, m: Message)
  {
    && Fits(m)
    && match m
       case Start(t, i) => m !in before
       case Data(t, i, c, _) => c < 2 && Live(before, t, i)
       case End(t, i) => Live(before, t, i)
  }

  predicate WorkerOrder(ms: seq<Message>)
  {
    forall k :: 0 <= k < |ms| ==> MsgOk(ms[..k], ms[k])
  }

  function OpenOf(ms: seq<Message>): set<Stream>
  {
    set m | m in ms && m.Start? && End(m.task, m.inst) !in ms :: (m.task, m.inst)
  }

  // ---- Facts about what one connection reads -------------------------------------------------

  lemma WorkerOrderSnoc(ms: seq<Message>, m: Message)
    ensures WorkerOrder(ms + [m]) <==> WorkerOrder(ms) && MsgOk(ms, m)
  {
    var all := ms + [m];
    assert all[..|ms|] == ms;
    assert forall k :: 0 <= k < |ms| ==> all[..k] == ms[..k];
    if WorkerOrder(all) {
      assert MsgOk(all[..|ms|], all[|ms|]);
      forall k | 0 <= k < |ms| ensures MsgOk(ms[..k], ms[k]) { assert MsgOk(all[..k], all[k]); }
    }
  }

  /** Every message read belongs to an execution started on the same connection. */
  lemma StartedBefore(ms: seq<Message>, m: Message)
    requires WorkerOrder(ms) && m in ms
    ensures Start(m.task, m.inst) in ms
    ensures Fits(m) && (m.Data? ==> m.channel < 2)
  {
    var k :| 0 <= k < |ms| && ms[k] == m;
    assert MsgOk(ms[..k], ms[k]);
  }

  lemma OpenMember(ms: seq<Message>, t: TaskId, i: InstanceId)
    ensures (t, i) in OpenOf(ms) <==> Live(ms, t, i)
  {
    if Live(ms, t, i) { assert Start(t, i) in ms; }
  }

  /** The booking of `receive_loop` keeps exactly the executions that are started and not ended. */
  lemma OpenSnoc(ms: seq<Message>, m: Message)
    requires WorkerOrder(ms) && MsgOk(ms, m)
    ensures OpenOf(ms + [m]) == Booked(OpenOf(ms), m)
  {
    hide OpenOf, WorkerOrder;
    forall p: Stream ensures p in OpenOf(ms + [m]) <==> p in Booked(OpenOf(ms), m) {
      var t, i := p.0, p.1;
      OpenMember(ms, t, i);
      OpenMember(ms + [m], t, i);
      if m == Start(t, i) && End(t, i) in ms { StartedBefore(ms, End(t, i)); }
    }
  }

  lemma NoneBeforeStart(ms: seq<Message>, t: TaskId, i: InstanceId)
    requires WorkerOrder(ms) && Start(t, i) !in ms
    ensures Inst(ms, t, i) == []
  {
    if Inst(ms, t, i) != [] {
      var m := Inst(ms, t, i)[0];
      InstMember(ms, t, i, m);
      StartedBefore(ms, m);
    }
  }

  lemma WorkerOrderPrefix(ms: seq<Message>, n: nat)
    requires WorkerOrder(ms) && n <= |ms|
    ensures WorkerOrder(ms[..n])
  {
    forall k | 0 <= k < n ensures MsgOk(ms[..n][..k], ms[..n][k]) {
      assert ms[..n][..k] == ms[..k];
      assert MsgOk(ms[..k], ms[k]);
    }
  }

  /** An execution is over with its End, and begins with its only Start. */
  lemma {:induction false} InstShape(ms: seq<Message>, t: TaskId, i: InstanceId)
    requires WorkerOrder(ms)
    ensures StreamOk(Inst(ms, t, i), t, i)
    ensures forall p :: 0 <= p < |Inst(ms, t, i)| && Inst(ms, t, i)[p] == End(t, i) ==> p == |Inst(ms, t, i)| - 1
  {
    if ms != [] {
      var n := |ms| - 1;
      var init, m := ms[..n], ms[n];
      assert ms == init + [m];
      WorkerOrderSnoc(init, m);
      InstShape(init, t, i);
      var r := Inst(init, t, i);
      if Of(m, t, i) {
        InstMember(init, t, i, Start(t, i));
        InstMember(init, t, i, End(t, i));
        if End(t, i) in init { StartedBefore(init, End(t, i)); }
        assert End(t, i) !in r;
        if m.Start? {
          NoneBeforeStart(init, t, i);
        } else {
          assert r != [];
        }
      }
    }
  }

  // ---- The invariant -------------------------------------------------------------------------

  predicate ConnOk(c: Conn)
  {
    && WorkerOrder(Received(c))
    && c.openIds == OpenOf(Received(c))
    && (c.phase.Receiving? ==> c.lost.None?)
    && (c.phase.Closing? ==> c.pending.None? && c.phase.left <= c.openIds)
  }

  /** The emergency End, once it has been sent. */
  function Emergency(c: Conn, t: TaskId, i: InstanceId): seq<Message>
  {
    if c.phase.Closing? && (t, i) in c.openIds && (t, i) !in c.phase.left then [End(t, i)] else []
  }

  /** The channel has carried exactly what the connection delivered of the execution, in order. */
  predicate Fed(sent: seq<Item>, c: Conn, t: TaskId, i: InstanceId)
  {
    Inst(Msgs(sent), t, i) == Inst(c.delivered, t, i) + Emergency(c, t, i)
  }

  predicate Owns(c: Conn, t: TaskId, i: InstanceId) { Start(t, i) in Received(c) }

  predicate ConnsOk(conns: map<ConnId, Conn>)
  {
    && (forall c :: c in conns ==> ConnOk(conns[c]))
    && (forall c, d, t, i :: c in conns && d in conns && Owns(conns[c], t, i) && Owns(conns[d], t, i) ==> c == d)
  }

  predicate AllFed(conns: map<ConnId, Conn>, sent: seq<Item>)
  {
    forall c, t, i :: c in conns && Owns(conns[c], t, i) ==> Fed(sent, conns[c], t, i)
  }

  predicate HasOwner(conns: map<ConnId, Conn>, t: TaskId, i: InstanceId)
  {
    exists c :: c in conns && Owns(conns[c], t, i)
  }

  predicate AllOwned(conns: map<ConnId, Conn>, sent: seq<Item>)
  {
    forall t, i :: !HasOwner(conns, t, i) ==> Inst(Msgs(sent), t, i) == []
  }

  predicate ItemOk(conns: map<ConnId, Conn>, x: Item)
  {
    && Fits(x.msg) && (x.msg.Data? ==> x.msg.channel < 2)
    && (x.sender.Some? ==> x.sender.value in conns && x.msg in conns[x.sender.value].delivered)
  }

  predicate FeedInv(conns: map<ConnId, Conn>, sent: seq<Item>)
  {
    && ConnsOk(conns) && AllFed(conns, sent) && AllOwned(conns, sent)
    && forall k :: 0 <= k < |sent| ==> ItemOk(conns, sent[k])
  }

  lemma MsgsSnoc(sent: seq<Item>, x: Item)
    ensures Msgs(sent + [x]) == Msgs(sent) + [x.msg]
  {
  }

  // ---- Every action keeps it -----------------------------------------------------------------

  /**
   * One connection moves on and the channel may grow: it is enough that the connection itself is
   * fine and fed, and that the channel says nothing new about executions of others.
   */
  lemma ReplaceConn(conns: map<ConnId, Conn>, sent: seq<Item>, c: ConnId, after: Conn, sent': seq<Item>)
    requires FeedInv(conns, sent) && c in conns && ConnOk(after)
    requires forall t, i :: Owns(conns[c], t, i) ==> Owns(after, t, i)
    requires forall t, i :: Owns(after, t, i) ==> Owns(conns[c], t, i) || !HasOwner(conns, t, i)
    requires forall t, i :: Owns(after, t, i) ==> Fed(sent', after, t, i)
    requires forall t, i :: !Owns(after, t, i) ==> Inst(Msgs(sent'), t, i) == Inst(Msgs(sent), t, i)
    requires forall k :: 0 <= k < |sent'| ==> ItemOk(conns[c := after], sent'[k])
    ensures FeedInv(conns[c := after], sent')
  {
    hide ConnOk, Owns, Inst, Msgs, Emergency, ItemOk;
    var conns' := conns[c := after];
    forall d, t, i | d in conns && d != c && Owns(conns[d], t, i) ensures !Owns(after, t, i) {
      assert HasOwner(conns, t, i);
    }
    forall t, i | HasOwner(conns, t, i) ensures HasOwner(conns', t, i) {
      var d :| d in conns && Owns(conns[d], t, i);
      assert Owns(conns'[d], t, i);
    }
    assert AllFed(conns', sent') by {
      forall d, t, i | d in conns' && Owns(conns'[d], t, i) ensures Fed(sent', conns'[d], t, i) {
        if d != c {
          assert Owns(conns[d], t, i);
          assert Fed(sent, conns[d], t, i);
        }
      }
    }
    assert AllOwned(conns', sent') by {
      forall t, i | !HasOwner(conns', t, i) ensures Inst(Msgs(sent'), t, i) == [] {
        assert !Owns(conns'[c], t, i);
      }
    }
  }

  lemma ConnectKeepsFeed(conns: map<ConnId, Conn>, sent: seq<Item>, c: ConnId)
    requires FeedInv(conns, sent) && c !in conns
    ensures FeedInv(conns[c := Conn([], None, None, {}, Receiving)], sent)
  {
    var idle := Conn([], None, None, {}, Receiving);
    var conns' := conns[c := idle];
    assert Received(idle) == [];
    assert ConnOk(idle);
    assert AllFed(conns', sent) by {
      forall d, t, i | d in conns' && Owns(conns'[d], t, i) ensures Fed(sent, conns'[d], t, i) {
        assert Owns(conns[d], t, i);
      }
    }
    forall t, i | HasOwner(conns, t, i) ensures HasOwner(conns', t, i) {
      var d :| d in conns && Owns(conns[d], t, i);
      assert Owns(conns'[d], t, i);
    }
    forall k | 0 <= k < |sent| ensures ItemOk(conns', sent[k]) { assert ItemOk(conns, sent[k]); }
  }

  lemma ReadKeepsFeed(s: State, c: ConnId, m: Message)
    requires FeedInv(s.conns, s.sent) && Enabled(s, Read(c, m))
    ensures FeedInv(Next(s, Read(c, m)).conns, s.sent)
  {
    hide Inst, OpenOf, WorkerOrder;
    var conns, before, after := s.conns, s.conns[c], Next(s, Read(c, m)).conns[c];
    assert ConnOk(before);
    assert Received(after) == Received(before) + [m];
    WorkerOrderSnoc(Received(before), m);
    OpenSnoc(Received(before), m);
    forall t, i | Owns(after, t, i) ensures Fed(s.sent, after, t, i) && (Owns(before, t, i) || !HasOwner(conns, t, i)) {
      if Owns(before, t, i) {
        assert Fed(s.sent, before, t, i);
      } else {
        assert m == Start(t, i);
        NoOwner(conns, t, i);
        WorkerOrderPrefix(Received(before), |before.delivered|);
        assert Received(before)[..|before.delivered|] == before.delivered;
        NoneBeforeStart(before.delivered, t, i);
      }
    }
    forall k | 0 <= k < |s.sent| ensures ItemOk(conns[c := after], s.sent[k]) { assert ItemOk(conns, s.sent[k]); }
    ReplaceConn(conns, s.sent, c, after, s.sent);
  }

  lemma NoOwner(conns: map<ConnId, Conn>, t: TaskId, i: InstanceId)
    requires forall d :: d in conns ==> Start(t, i) !in Received(conns[d])
    ensures !HasOwner(conns, t, i)
  {
  }

  /** A message of one execution enters the channel; what its own connection delivered grows alike. */
  lemma EnqueueKeepsFeed(s: State, c: ConnId)
    requires FeedInv(s.conns, s.sent) && Enabled(s, Enqueue(c))
    ensures FeedInv(Next(s, Enqueue(c)).conns, Next(s, Enqueue(c)).sent)
  {
    hide Inst, OpenOf, WorkerOrder, Msgs;
    var conns, sent' := s.conns, Next(s, Enqueue(c)).sent;
    var before, after := conns[c], Next(s, Enqueue(c)).conns[c];
    var m := before.pending.value;
    assert ConnOk(before);
    assert Received(after) == Received(before);
    assert m in Received(before);
    StartedBefore(Received(before), m);
    MsgsSnoc(s.sent, Item(m, Some(c)));
    forall t, i ensures Inst(Msgs(sent'), t, i) == Inst(Msgs(s.sent), t, i) + if Of(m, t, i) then [m] else [] {
      InstSnoc(Msgs(s.sent), m, t, i);
    }
    forall t, i | Owns(after, t, i) ensures Fed(sent', after, t, i) {
      assert Owns(before, t, i);
      assert Fed(s.sent, before, t, i);
      InstSnoc(before.delivered, m, t, i);
    }
    forall k | 0 <= k < |sent'| ensures ItemOk(conns[c := after], sent'[k]) {
      if k < |s.sent| { assert ItemOk(conns, s.sent[k]); }
    }
    ReplaceConn(conns, s.sent, c, after, sent');
  }

  lemma CloseKeepsFeed(s: State, c: ConnId)
    requires FeedInv(s.conns, s.sent) && Enabled(s, Close(c))
    ensures FeedInv(Next(s, Close(c)).conns, s.sent)
  {
    hide Inst, OpenOf, WorkerOrder, Msgs;
    var conns, before, after := s.conns, s.conns[c], Next(s, Close(c)).conns[c];
    assert ConnOk(before);
    assert Received(after) == Received(before);
    forall t, i | Owns(after, t, i) ensures Fed(s.sent, after, t, i) {
      assert Owns(before, t, i);
      assert Fed(s.sent, before, t, i);
    }
    forall k | 0 <= k < |s.sent| ensures ItemOk(conns[c := after], s.sent[k]) { assert ItemOk(conns, s.sent[k]); }
    ReplaceConn(conns, s.sent, c, after, s.sent);
  }

  lemma EmergencyKeepsFeed(s: State, c: ConnId, p: Stream)
    requires FeedInv(s.conns, s.sent) && Enabled(s, EmergencyEnd(c, p))
    ensures FeedInv(Next(s, EmergencyEnd(c, p)).conns, Next(s, EmergencyEnd(c, p)).sent)
  {
    hide Inst, OpenOf, WorkerOrder, Msgs;
    var conns, sent' := s.conns, Next(s, EmergencyEnd(c, p)).sent;
    var before, after := conns[c], Next(s, EmergencyEnd(c, p)).conns[c];
    var m := End(p.0, p.1);
    assert ConnOk(before);
    assert Received(after) == Received(before);
    OpenMember(Received(before), p.0, p.1);
    MsgsSnoc(s.sent, Item(m, None));
    forall t, i ensures Inst(Msgs(sent'), t, i) == Inst(Msgs(s.sent), t, i) + if Of(m, t, i) then [m] else [] {
      InstSnoc(Msgs(s.sent), m, t, i);
    }
    forall t, i | Owns(after, t, i) ensures Fed(sent', after, t, i) {
      assert Owns(before, t, i);
      assert Fed(s.sent, before, t, i);
    }
    forall k | 0 <= k < |sent'| ensures ItemOk(conns[c := after], sent'[k]) {
      if k < |s.sent| { assert ItemOk(conns, s.sent[k]); }
    }
    ReplaceConn(conns, s.sent, c, after, sent');
  }

  /** All actions of the protocol keep the invariant of the feed. */
  lemma FeedStep(s: State, a: Action)
    requires FeedInv(s.conns, s.sent) && Enabled(s, a)
    ensures FeedInv(Next(s, a).conns, Next(s, a).sent)
  {
    hide FeedInv, Encode;
    match a
    case Connect(c) => ConnectKeepsFeed(s.conns, s.sent, c);
    case Read(c, m) => ReadKeepsFeed(s, c, m);
    case Enqueue(c) => EnqueueKeepsFeed(s, c);
    case Close(c) => CloseKeepsFeed(s, c);
    case EmergencyEnd(c, p) => EmergencyKeepsFeed(s, c, p);
    case _ =>
  }
}
