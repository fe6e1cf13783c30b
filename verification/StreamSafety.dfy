/**
 * The guarantees of the stream server over whole runs: what an acknowledgement means, what the file
 * can be read as at any moment, and what is left in it once all connections are gone.
 */
module StreamSafety {
  import opened Bytes
  import opened LogFormat
  import opened LogIndex
  import opened LogSpec
  import opened LogWriter
  import opened StreamServer
  import opened StreamFeed

  /** The file is the log of the written items, plus at most a torn block when a write has failed. */
  predicate WriterInv(s: State)
  {
    && s.written <= s.popped <= |s.sent| && s.flushed <= |s.file|
    && (!s.failed ==> s.written == s.popped && s.file == Log(Msgs(s.sent[..s.written])))
    && (s.failed ==> if s.written < s.popped && Header() <= s.file
                     then Log(Msgs(s.sent[..s.written])) <= s.file <= Log(Msgs(s.sent[..s.written + 1]))
                     else s.written == 0 && s.file <= Header())
    && (!s.failed ==> HEADER_SIZE <= s.flushed)
    && s.responses == Acks(s.sent[..s.written]) + Errors(s.sent[s.written..s.popped])
    && AckedAreFlushed(s.sent, s.written, s.flushed)
  }

  predicate Inv(s: State)
  {
    FeedInv(s.conns, s.sent) && WriterInv(s)
  }

  lemma InitInv(s: State)
    requires Init(s)
    ensures Inv(s)
  {
    hide Header;
    assert Msgs(s.sent[..0]) == [];
  }

  /** Growing the channel says nothing about what has been written. */
  lemma AppendKeepsWriter(s: State, x: Item, conns: map<ConnId, Conn>)
    requires WriterInv(s)
    ensures WriterInv(s.(sent := s.sent + [x], conns := conns))
  {
    hide Log, Msgs, Header, Acks, Errors;
    var s' := s.(sent := s.sent + [x]);
    assert forall n :: 0 <= n <= |s.sent| ==> s'.sent[..n] == s.sent[..n];
    assert s'.sent[s.written..s.popped] == s.sent[s.written..s.popped];
  }

  lemma WriteKeepsWriter(s: State, f: nat)
    requires WriterInv(s) && Enabled(s, Write(f))
    ensures WriterInv(Next(s, Write(f)))
  {
    hide Log, Msgs, Header, Encode, AckOf;
    var s' := Next(s, Write(f));
    var n := s.written;
    LogSnoc(s.sent, n);
    assert s.sent[..n + 1][..n] == s.sent[..n];
    assert s.sent[n..n] == [] && s.sent[n + 1..n + 1] == [];
    var acks := Acks(s.sent[..n]);
    assert acks + [] == acks;
    assert s'.responses == Acks(s.sent[..n + 1]) + [];
    forall k | 0 <= k < s'.written && s.sent[k].msg.End? ensures |Log(Msgs(s.sent[..k + 1]))| <= s'.flushed {
      if k < n { assert |Log(Msgs(s.sent[..k + 1]))| <= s.flushed; }
    }
  }

  lemma FailKeepsWriter(s: State, cut: nat, f: nat)
    requires WriterInv(s) && Enabled(s, WriteFail(cut, f))
    ensures WriterInv(Next(s, WriteFail(cut, f)))
  {
    hide Msgs, Encode, EncodeAll, ErrorOf, Header;
    var s' := Next(s, WriteFail(cut, f));
    var n := s.written;
    LogSnoc(s.sent, n);
    assert s.sent[n..n] == [] && s.sent[n..n + 1] == [s.sent[n]];
    assert [s.sent[n]][..0] == [];
    var acks := Acks(s.sent[..n]);
    assert s'.responses == acks + ErrorOf(s.sent[n]);
    assert Errors([s.sent[n]]) == [] + ErrorOf(s.sent[n]) == ErrorOf(s.sent[n]);
    assert Header() <= Log(Msgs(s.sent[..n]));
    assert Header() <= s'.file;
  }

  lemma RejectKeepsWriter(s: State)
    requires WriterInv(s) && Enabled(s, Reject)
    ensures WriterInv(Next(s, Reject))
  {
    hide Log, Msgs, Header, Encode, ErrorOf, AckedAreFlushed, Acks;
    var s' := Next(s, Reject);
    ErrorsSnoc(s.sent, s.written, s.popped);
    var acks, a, b := Acks(s.sent[..s.written]), Errors(s.sent[s.written..s.popped]), ErrorOf(s.sent[s.popped]);
    assert acks + (a + b) == acks + a + b;
    if s.written == 0 && s.file <= Header() {
      EmptyLog(s.sent);
      LogSnoc(s.sent, 0);
      assert Header() <= s.file ==> s.file == Header();
    }
  }

  lemma ErrorsSnoc(items: seq<Item>, a: nat, b: nat)
    requires a <= b < |items|
    ensures Errors(items[a..b + 1]) == Errors(items[a..b]) + ErrorOf(items[b])
  {
    hide ErrorOf;
    var s := items[a..b + 1];
    assert s[..|s| - 1] == items[a..b];
  }

  /** Every action of the protocol keeps the invariant. */
  lemma Step(s: State, a: Action)
    requires Inv(s) && Enabled(s, a)
    ensures Inv(Next(s, a))
  {
    FeedStep(s, a);
    hide FeedInv, WriterInv;
    match a
    case Enqueue(c) => AppendKeepsWriter(s, Item(s.conns[c].pending.value, Some(c)), Next(s, a).conns);
    case EmergencyEnd(c, p) => AppendKeepsWriter(s, Item(End(p.0, p.1), None), Next(s, a).conns);
    case Write(f) => WriteKeepsWriter(s, f);
    case WriteFail(cut, f) => FailKeepsWriter(s, cut, f);
    case Reject => RejectKeepsWriter(s);
    case FlushEarly(f) => FlushKeepsWriter(s, f);
    case _ => WriterIgnoresConns(s, Next(s, a).conns);
  }

  lemma WriterIgnoresConns(s: State, conns: map<ConnId, Conn>)
    requires WriterInv(s)
    ensures WriterInv(s.(conns := conns))
  {
    hide Log, Msgs, Header, Acks, Errors, AckedAreFlushed;
  }

  lemma FlushKeepsWriter(s: State, f: nat)
    requires WriterInv(s) && Enabled(s, FlushEarly(f))
    ensures WriterInv(Next(s, FlushEarly(f)))
  {
    hide Log, Msgs, Header, Acks, Errors;
  }

  /** The invariant holds after every run of the stream server, however its connections interleave. */
  lemma {:induction false} RunInv(s: State, run: seq<Action>)
    requires Init(s) && Exec(s, run).Some?
    ensures Inv(Exec(s, run).value)
  {
    hide Inv, Init, Enabled, Next;
    if run == [] {
      InitInv(s);
    } else {
      var init := run[..|run| - 1];
      RunInv(s, init);
      Step(Exec(s, init).value, run[|run| - 1]);
    }
  }

  // ---- What an acknowledgement means ---------------------------------------------------------

  /** Item `k` closed a stream on request of its worker and has been written, hence acknowledged. */
  predicate Acked(s: State, k: nat)
  {
    k < s.written <= |s.sent| && s.sent[k].msg.End? && s.sent[k].sender.Some?
  }

  /** The items that are acknowledged once they are written, in order. */
  function AckedAt(items: seq<Item>): (r: seq<nat>)
    ensures forall n :: 0 <= n < |r| ==> r[n] < |items|
  {
    if items == [] then []
    else
      var x := items[|items| - 1];
      AckedAt(items[..|items| - 1]) + if x.msg.End? && x.sender.Some? then [|items| - 1] else []
  }

  /**
   * Acknowledgements answer the Ends of workers one by one and in order: the n-th is for the n-th of
   * them, names its task and goes to its connection, and none is left out.
   */
  lemma {:induction false} AcksAnswerInOrder(items: seq<Item>)
    ensures |Acks(items)| == |AckedAt(items)|
    ensures forall n :: 0 <= n < |Acks(items)| ==>
              var x := items[AckedAt(items)[n]];
              x.msg.End? && x.sender.Some? && Acks(items)[n] == EndResponse(x.sender.value, x.msg.task)
    ensures forall m, n :: 0 <= m < n < |AckedAt(items)| ==> AckedAt(items)[m] < AckedAt(items)[n]
    ensures forall k :: 0 <= k < |items| && items[k].msg.End? && items[k].sender.Some? ==> k in AckedAt(items)
  {
    AckedAscend(items);
    if items != [] {
      var init, at := items[..|items| - 1], AckedAt(items[..|items| - 1]);
      AcksAnswerInOrder(init);
      forall n | 0 <= n < |Acks(init)|
        ensures
          var x := items[AckedAt(items)[n]];
          x.msg.End? && x.sender.Some? && Acks(items)[n] == EndResponse(x.sender.value, x.msg.task)
      {
        assert AckedAt(items)[n] == at[n] && init[at[n]] == items[at[n]];
      }
    }
  }

  lemma {:induction false} AckedAscend(items: seq<Item>)
    ensures forall m, n :: 0 <= m < n < |AckedAt(items)| ==> AckedAt(items)[m] < AckedAt(items)[n]
    ensures forall k :: 0 <= k < |items| && items[k].msg.End? && items[k].sender.Some? ==> k in AckedAt(items)
  {
    if items != [] {
      var init := items[..|items| - 1];
      AckedAscend(init);
      assert forall k :: 0 <= k < |init| ==> init[k] == items[k];
    }
  }

  /**
   * All that the connection ever read of an execution that was closed has gone through the channel
   * no later than the End, in the order it was read, and nothing of it comes later.
   */
  lemma ClosedIsComplete(s: State, k: nat)
    requires FeedInv(s.conns, s.sent) && k < |s.sent| && s.sent[k].msg.End? && s.sent[k].sender.Some?
    ensures s.sent[k].sender.value in s.conns
    ensures
      var t, i := s.sent[k].msg.task, s.sent[k].msg.inst;
      && Inst(Msgs(s.sent[..k + 1]), t, i) == Inst(Received(s.conns[s.sent[k].sender.value]), t, i)
      && Inst(Msgs(s.sent[k + 1..]), t, i) == []
      && End(t, i) in Received(s.conns[s.sent[k].sender.value])
  {
    hide Inst, WorkerOrder, Msgs;
    var m, c := s.sent[k].msg, s.sent[k].sender.value;
    var t, i := m.task, m.inst;
    assert ItemOk(s.conns, s.sent[k]);
    var conn := s.conns[c];
    assert ConnOk(conn);
    var r := Received(conn);
    assert m in r;
    StartedBefore(r, m);
    assert Fed(s.sent, conn, t, i);
    OpenMember(r, t, i);
    DeliveredAll(conn, t, i);
    SplitInst(s.sent, k, t, i);
    var before, after := Inst(Msgs(s.sent[..k]), t, i), Inst(Msgs(s.sent[k + 1..]), t, i);
    var all := Inst(r, t, i);
    assert all == before + [m] + after;
    assert all[|before|] == End(t, i);
    InstShape(r, t, i);
  }

  /** After its End a connection reads nothing more of an execution. */
  lemma DeliveredAll(conn: Conn, t: TaskId, i: InstanceId)
    requires ConnOk(conn) && End(t, i) in conn.delivered
    ensures Inst(conn.delivered, t, i) == Inst(Received(conn), t, i)
  {
    hide WorkerOrder, OpenOf, Inst;
    if conn.pending.None? && conn.lost.None? {
      assert Received(conn) == conn.delivered;
    } else {
      var m := if conn.pending.Some? then conn.pending.value else conn.lost.value;
      assert Received(conn) == conn.delivered + [m];
      WorkerOrderSnoc(conn.delivered, m);
      InstSnoc(conn.delivered, m, t, i);
      StartedBefore(conn.delivered, End(t, i));
    }
  }

  lemma SplitInst(sent: seq<Item>, k: nat, t: TaskId, i: InstanceId)
    requires k < |sent|
    ensures Inst(Msgs(sent[..k + 1]), t, i) == Inst(Msgs(sent[..k]), t, i) + if Of(sent[k].msg, t, i) then [sent[k].msg] else []
    ensures Inst(Msgs(sent), t, i) == Inst(Msgs(sent[..k + 1]), t, i) + Inst(Msgs(sent[k + 1..]), t, i)
  {
    hide Inst;
    assert Msgs(sent[..k + 1]) == Msgs(sent[..k]) + [sent[k].msg];
    InstSnoc(Msgs(sent[..k]), sent[k].msg, t, i);
    assert Msgs(sent) == Msgs(sent[..k + 1]) + Msgs(sent[k + 1..]);
    InstAppend(Msgs(sent[..k + 1]), Msgs(sent[k + 1..]), t, i);
  }

  /**
   * Acknowledged implies flushed: once a worker has been told that its stream is closed, every block
   * the execution sent lies in the flushed part of the file, in sending order.
   */
  lemma AckedIsFlushed(s: State, k: nat)
    requires Inv(s) && Acked(s, k)
    ensures s.sent[k].sender.value in s.conns
    ensures
      var ms, m := Msgs(s.sent[..k + 1]), s.sent[k].msg;
      && |Log(ms)| <= s.flushed <= |s.file|
      && Log(ms) <= s.file
      && Inst(ms, m.task, m.inst) == Inst(Received(s.conns[s.sent[k].sender.value]), m.task, m.inst)
  {
    hide Inst, Msgs, Header, Log, FeedInv, Acks, Errors;
    ClosedIsComplete(s, k);
    LogPrefix(s.sent, k + 1, s.written);
  }

  lemma {:induction false} LogPrefix(items: seq<Item>, a: nat, b: nat)
    requires a <= b <= |items|
    ensures Log(Msgs(items[..a])) <= Log(Msgs(items[..b]))
    decreases b
  {
    hide Log, Encode, Msgs;
    if a < b {
      LogSnoc(items, b - 1);
      LogPrefix(items, a, b - 1);
    }
  }

  lemma {:induction false} ErrorsAreErrors(items: seq<Item>)
    ensures forall n :: 0 <= n < |Errors(items)| ==> Errors(items)[n].ErrorResponse?
  {
    if items != [] { ErrorsAreErrors(items[..|items| - 1]); }
  }

  /**
   * The guarantee to a worker, over every run and every interleaving of connections: the n-th
   * acknowledgement the server sends is for the n-th End that was written for a worker. It names the
   * task of that End and goes to the connection that sent it; everything this connection ever read of
   * the execution lies, in sending order, in the flushed part of the file, and nothing of it comes after.
   */
  lemma RunAcknowledges(s: State, run: seq<Action>, n: nat)
    requires Init(s) && Exec(s, run).Some?
    requires n < |Exec(s, run).value.responses| && Exec(s, run).value.responses[n].EndResponse?
    ensures
      var z := Exec(s, run).value;
      && z.written <= |z.sent| && n < |AckedAt(z.sent[..z.written])|
      && var k := AckedAt(z.sent[..z.written])[n];
      && Acked(z, k) && z.sent[k].sender.value in z.conns
      && var c, t, i := z.sent[k].sender.value, z.sent[k].msg.task, z.sent[k].msg.inst;
      && z.responses[n] == EndResponse(c, t)
      && var ms, received := Msgs(z.sent[..k + 1]), Received(z.conns[c]);
      && End(t, i) in received && Inst(ms, t, i) == Inst(received, t, i) && Inst(Msgs(z.sent[k + 1..]), t, i) == []
      && |Log(ms)| <= z.flushed <= |z.file| && Log(ms) <= z.file
  {
    hide Exec, Init, Inst, Msgs, Log, Header, Acks, Errors, FeedInv, Received, AckedAt;
    RunInv(s, run);
    var z := Exec(s, run).value;
    var items := z.sent[..z.written];
    ErrorsAreErrors(z.sent[z.written..z.popped]);
    AcksAnswerInOrder(items);
    var k := AckedAt(items)[n];
    assert items[k] == z.sent[k];
    AckedIsFlushed(z, k);
    ClosedIsComplete(z, k);
  }

  /**
   * The other half: over every run, the answers are the acknowledgements of what was written followed by
   * one error, to its own connection, for each item that was taken from the channel and not written.
   */
  lemma RunRejects(s: State, run: seq<Action>)
    requires Init(s) && Exec(s, run).Some?
    ensures
      var z := Exec(s, run).value;
      && z.written <= z.popped <= |z.sent|
      && var acked, rejected := |AckedAt(z.sent[..z.written])|, z.sent[z.written..z.popped];
      && acked <= |z.responses|
      && AnsweredByErrors(rejected, z.responses[acked..])
      && (!z.failed ==> rejected == [])
  {
    hide Exec, Init, Acks, Errors, FeedInv, AckedAt, AnsweredByErrors, AckedAreFlushed, Log, Msgs, Header;
    RunInv(s, run);
    var z := Exec(s, run).value;
    AcksAnswerInOrder(z.sent[..z.written]);
    ErrorsAnswerInOrder(z.sent[z.written..z.popped]);
    assert z.responses[|Acks(z.sent[..z.written])|..] == Errors(z.sent[z.written..z.popped]);
  }

  /** The channel never holds more than 32 messages. */
  lemma {:induction false} RunIsBounded(s: State, run: seq<Action>)
    requires Init(s) && Exec(s, run).Some?
    ensures Exec(s, run).value.popped <= |Exec(s, run).value.sent| <= Exec(s, run).value.popped + 32
  {
    hide MaySend, Encode, AckOf, ErrorOf;
    if run != [] { RunIsBounded(s, run[..|run| - 1]); }
  }

  // ---- Reading the file while it is being written --------------------------------------------

  /** A torn log that opens holds the whole blocks and, possibly, the beginning of the torn chunk. */
  lemma TornMessages(ms: seq<Message>, m: Message, j: nat)
    requires AllFit(ms) && Fits(m) && j < |Encode(m)| && Readable(Torn(ms, m, j))
    ensures
      || MessagesIn(Torn(ms, m, j)) == ms
      || (m.Data? && 17 <= j && MessagesIn(Torn(ms, m, j)) == ms + [m.(data := m.data[..j - 17])])
  {
    hide Encode, Accepts, HeaderOk, EntriesOf, Torn, Scan, Log;
    TornScan(ms, m, j);
    var file, es := Torn(ms, m, j), EntriesOf(ms, HEADER_SIZE);
    if m.Data? && 17 <= j {
      var e := EntryOf(m, |Log(ms)|);
      assert Decode(file, es + [e]) == Decode(file, es) + [MessageOf(file, e)];
    }
  }

  /**
   * Any copy of the file that contains at least the bytes up to an acknowledged End and opens at all
   * shows the execution completely: every byte it sent on either channel, and the stream closed.
   */
  lemma AckedIsRead(s: State, k: nat, cut: nat, c: U32)
    requires Inv(s) && Acked(s, k) && s.flushed <= cut <= |s.file|
    requires Readable(s.file[..cut])
    ensures s.sent[k].sender.value in s.conns
    ensures
      var t, i := s.sent[k].msg.task, s.sent[k].msg.inst;
      var seen := MessagesIn(s.file[..cut]);
      && Inst(seen, t, i) == Inst(Received(s.conns[s.sent[k].sender.value]), t, i)
      && DataOf(seen, t, i, c) == DataOf(Received(s.conns[s.sent[k].sender.value]), t, i, c)
      && Finished(seen, t, i)
  {
    hide FeedInv, WriterInv, Inst, DataOf, Msgs, Readable, MessagesIn, Received;
    var t, i := s.sent[k].msg.task, s.sent[k].msg.inst;
    ClosedIsComplete(s, k);
    AckedIsFlushed(s, k);
    var seen := MessagesIn(s.file[..cut]);
    var r := Received(s.conns[s.sent[k].sender.value]);
    SeenInst(s, k, cut);
    DataOfInst(seen, t, i, c);
    DataOfInst(r, t, i, c);
    InstMember(seen, t, i, End(t, i));
    InstMember(r, t, i, End(t, i));
  }

  lemma SeenInst(s: State, k: nat, cut: nat)
    requires Inv(s) && Acked(s, k) && s.flushed <= cut <= |s.file|
    requires Readable(s.file[..cut])
    ensures Inst(MessagesIn(s.file[..cut]), s.sent[k].msg.task, s.sent[k].msg.inst)
         == Inst(Msgs(s.sent[..k + 1]), s.sent[k].msg.task, s.sent[k].msg.inst)
  {
    hide Inst, Readable, MessagesIn, Encode, EncodeAll, Header, Acks, Errors, ConnsOk, AllFed, AllOwned;
    var t, i := s.sent[k].msg.task, s.sent[k].msg.inst;
    var w := if s.failed then s.written + 1 else s.written;
    var full := Msgs(s.sent[..w]);
    assert s.file <= Log(full) by { AckedIsFlushed(s, k); FileIsPrefix(s); }
    assert AllFit(full) by {
      forall n | 0 <= n < |full| ensures Fits(full[n]) { assert ItemOk(s.conns, s.sent[n]); }
    }
    ClosedIsComplete(s, k);
    if cut == |Log(full)| {
      assert s.file[..cut] == Log(full);
      ReadableLog(full);
      NothingLater(s.sent, k, w, t, i);
    } else {
      var n, j := CutIsTorn(full, cut);
      assert s.file[..cut] == Log(full)[..cut];
      assert full[..n] == Msgs(s.sent[..n]);
      TornMessages(full[..n], full[n], j);
      AckedIsFlushed(s, k);
      assert k + 1 <= n by { CutIsAfter(s.sent, k, n, j, cut); }
      NothingLater(s.sent, k, n, t, i);
      NothingLater(s.sent, k, n + 1, t, i);
      SplitInst(s.sent, n, t, i);
      assert !Of(full[n], t, i);
      if full[n].Data? && 17 <= j {
        InstSnoc(full[..n], full[n].(data := full[n].data[..j - 17]), t, i);
      }
    }
  }

  lemma FileIsPrefix(s: State)
    requires WriterInv(s) && 0 < s.written
    ensures var w := if s.failed then s.written + 1 else s.written;
            w <= |s.sent| && s.file <= Log(Msgs(s.sent[..w]))
  {
    hide Log, Msgs, Header, Acks, Errors, AckedAreFlushed;
  }

  lemma CutIsAfter(sent: seq<Item>, k: nat, n: nat, j: nat, cut: nat)
    requires k < |sent| && n < |sent| && j < |Encode(sent[n].msg)|
    requires cut == |Log(Msgs(sent[..n]))| + j && |Log(Msgs(sent[..k + 1]))| <= cut
    ensures k + 1 <= n
  {
    hide Log, Msgs, Encode;
    if n < k + 1 {
      LogPrefix(sent, n + 1, k + 1);
      LogSnoc(sent, n);
    }
  }

  lemma NothingLater(sent: seq<Item>, k: nat, w: nat, t: TaskId, i: InstanceId)
    requires k < w <= |sent| && Inst(Msgs(sent[k + 1..]), t, i) == []
    ensures Inst(Msgs(sent[..w]), t, i) == Inst(Msgs(sent[..k + 1]), t, i)
  {
    hide Inst;
    assert Msgs(sent[..w]) == Msgs(sent[..k + 1]) + Msgs(sent[k + 1..w]);
    InstAppend(Msgs(sent[..k + 1]), Msgs(sent[k + 1..w]), t, i);
    assert Msgs(sent[k + 1..]) == Msgs(sent[k + 1..w]) + Msgs(sent[w..]);
    InstAppend(Msgs(sent[k + 1..w]), Msgs(sent[w..]), t, i);
  }
}
