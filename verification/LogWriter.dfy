/**
 * The writer of a stream log: the task the stream server runs per job. It drains a channel of
 * messages into a buffered file, acknowledges closed streams after a flush, and answers every
 * message with an error once a write has failed.
 */
module LogWriter {
  import opened Bytes
  import opened LogFormat
  import opened LogIndex
  import opened LogSpec
  import opened LogReader

  /**
   * A buffered file. `contents` is what has been written so far, of which the first `flushed` bytes
   * have left the buffer. The buffer may be emptied at any time, and any operation may fail.
   */
  class BufferedFile {
    var contents: seq<Byte>
    var flushed: nat

    ghost predicate Valid()
      reads this
    {
      flushed <= |contents|
    }

    constructor ()
      ensures Valid() && contents == []
    {
      contents, flushed := [], 0;
    }

    /** On failure an arbitrary part of the bytes may have been written. */
    method WriteAll(bytes: seq<Byte>) returns (ok: bool)
      requires Valid()
      modifies this
      ensures Valid() && old(flushed) <= flushed
      ensures old(contents) <= contents <= old(contents) + bytes
      ensures ok ==> contents == old(contents) + bytes
    {
      ok := *;
      var n: nat := |bytes|;
      if !ok { n :| 0 <= n <= |bytes|; }
      contents := contents + bytes[..n];
      var early: nat :| flushed <= early <= |contents|;
      flushed := early;
    }

    method Flush() returns (ok: bool)
      requires Valid()
      modifies this
      ensures Valid() && old(flushed) <= flushed && contents == old(contents)
      ensures ok ==> flushed == |contents|
    {
      ok := *;
      if ok {
        flushed := |contents|;
      } else {
        var part: nat :| flushed <= part <= |contents|;
        flushed := part;
      }
    }
  }

  /** A message with the connection its answer goes to, if any. */
  datatype Item = Item(msg: Message, sender: Option<nat>)

  datatype Response = EndResponse(to: nat, task: TaskId) | ErrorResponse(to: nat)

  function Msgs(items: seq<Item>): (ms: seq<Message>)
    ensures |ms| == |items|
  {
    seq(|items|, k requires 0 <= k < |items| => items[k].msg)
  }

  /** The answer to a message that was written, and flushed if it closes a stream. */
  function AckOf(x: Item): seq<Response>
  {
    if x.msg.End? && x.sender.Some? then [EndResponse(x.sender.value, x.msg.task)] else []
  }

  function ErrorOf(x: Item): seq<Response>
  {
    if x.sender.Some? then [ErrorResponse(x.sender.value)] else []
  }

  function Acks(items: seq<Item>): seq<Response>
  {
    if items == [] then [] else Acks(items[..|items| - 1]) + AckOf(items[|items| - 1])
  }

  function Errors(items: seq<Item>): seq<Response>
  {
    if items == [] then [] else Errors(items[..|items| - 1]) + ErrorOf(items[|items| - 1])
  }

  /** The items that have a sender, in order. */
  function SendersAt(items: seq<Item>): (r: seq<nat>)
    ensures forall n :: 0 <= n < |r| ==> r[n] < |items|
  {
    if items == [] then []
    else SendersAt(items[..|items| - 1]) + if items[|items| - 1].sender.Some? then [|items| - 1] else []
  }

  /**
   * One error for each item that has a sender, in order, and nothing else: the n-th goes to the sender
   * of the n-th of them, and none is left out.
   */
  predicate AnsweredByErrors(items: seq<Item>, rs: seq<Response>) { ErrorsAt(items, SendersAt(items), rs) }

  predicate ErrorsAt(items: seq<Item>, at: seq<nat>, rs: seq<Response>)
  {
    && |rs| == |at|
    && (forall n :: 0 <= n < |at| ==> at[n] < |items| && items[at[n]].sender.Some?)
    && (forall n :: 0 <= n < |at| ==> rs[n] == ErrorResponse(items[at[n]].sender.value))
    && (forall m, n :: 0 <= m < n < |at| ==> at[m] < at[n])
    && (forall k :: 0 <= k < |items| && items[k].sender.Some? ==> k in at)
  }

  lemma {:induction false} ErrorsAnswerInOrder(items: seq<Item>)
    ensures AnsweredByErrors(items, Errors(items))
  {
    if items != [] {
      hide ErrorsAt;
      var n := |items| - 1;
      var init, at, rs := items[..n], SendersAt(items[..n]), Errors(items[..n]);
      ErrorsAnswerInOrder(init);
      assert items == init + [items[n]];
      if items[n].sender.Some? {
        OneMoreError(init, items[n], at, rs);
      } else {
        OneMoreQuiet(init, items[n], at, rs);
        assert at + [] == at && rs + [] == rs;
      }
    }
  }

  lemma OneMoreError(items: seq<Item>, x: Item, at: seq<nat>, rs: seq<Response>)
    requires ErrorsAt(items, at, rs) && x.sender.Some?
    ensures ErrorsAt(items + [x], at + [|items|], rs + [ErrorResponse(x.sender.value)])
  {
    var at' := at + [|items|];
    forall k | 0 <= k < |items + [x]| && (items + [x])[k].sender.Some? ensures k in at' {
      if k < |items| {
        assert items[k].sender.Some? && k in at;
      } else {
        assert at'[|at|] == k;
      }
    }
  }

  lemma OneMoreQuiet(items: seq<Item>, x: Item, at: seq<nat>, rs: seq<Response>)
    requires ErrorsAt(items, at, rs) && x.sender.None?
    ensures ErrorsAt(items + [x], at, rs)
  {
    forall k | 0 <= k < |items + [x]| && (items + [x])[k].sender.Some? ensures k in at {
      assert items[k].sender.Some?;
    }
  }

  /** Everything up to each closed stream among the first `n` items has left the buffer. */
  predicate AckedAreFlushed(items: seq<Item>, n: nat, flushed: nat)
    requires n <= |items|
  {
    forall k :: 0 <= k < n && items[k].msg.End? ==> |Log(Msgs(items[..k + 1]))| <= flushed
  }

  /** The block of a message, put together in the reused buffer. */
  method PutBlock(m: Message) returns (buffer: seq<Byte>)
    ensures m.Data? ==> buffer + m.data == Encode(m)
    ensures !m.Data? ==> buffer == Encode(m)
  {
    hide PutU32;
    buffer := [];
    match m
    case Start(t, i) =>
      buffer := buffer + [BLOCK_STREAM_START];
      buffer := buffer + PutU32(t);
      buffer := buffer + PutU32(i);
    case Data(t, i, c, d) =>
      buffer := buffer + [BLOCK_STREAM_CHUNK];
      buffer := buffer + PutU32(t);
      buffer := buffer + PutU32(i);
      buffer := buffer + PutU32(c);
      buffer := buffer + PutU32(LengthField(d));
    case End(t, i) =>
      buffer := buffer + [BLOCK_STREAM_END];
      buffer := buffer + PutU32(t);
      buffer := buffer + PutU32(i);
  }

  /** The writer's work for one message. A closed stream counts as written only once it is flushed. */
  method WriteMessage(file: BufferedFile, m: Message) returns (ok: bool)
    requires file.Valid()
    modifies file
    ensures file.Valid() && old(file.flushed) <= file.flushed
    ensures old(file.contents) <= file.contents <= old(file.contents) + Encode(m)
    ensures ok ==> file.contents == old(file.contents) + Encode(m)
    ensures ok && m.End? ==> file.flushed == |file.contents|
  {
    hide Encode;
    var buffer := PutBlock(m);
    ghost var before := file.contents;
    ok := file.WriteAll(buffer);
    if m.Data? {
      assert before + (buffer + m.data) == before + buffer + m.data;
    }
    if !ok { return; }
    if m.Data? {
      ok := file.WriteAll(m.data);
    } else if m.End? {
      ok := file.Flush();
    }
  }

  lemma LogSnoc(items: seq<Item>, n: nat)
    requires n < |items|
    ensures Log(Msgs(items[..n + 1])) == Log(Msgs(items[..n])) + Encode(items[n].msg)
  {
    hide Encode, Header;
    var ms := Msgs(items[..n + 1]);
    assert ms[..n] == Msgs(items[..n]);
    assert Header() + (EncodeAll(ms[..n]) + Encode(ms[n])) == Header() + EncodeAll(ms[..n]) + Encode(ms[n]);
  }

  /**
   * `file_writer` followed, after a failure, by `error_state`, over everything the channel delivers
   * until it is closed. The first `n` messages are in the file and their closed streams are
   * acknowledged and flushed; every later message is answered with an error.
   */
  method StreamTask(file: BufferedFile, items: seq<Item>) returns (responses: seq<Response>, n: nat, failed: bool)
    requires file.Valid() && file.contents == []
    modifies file
    ensures file.Valid() && n <= |items|
    ensures responses == Acks(items[..n]) + Errors(items[n..])
    ensures AnsweredByErrors(items[n..], responses[|Acks(items[..n])|..])
    ensures !failed ==> n == |items| && file.contents == Log(Msgs(items))
    ensures failed ==> if n < |items| && Header() <= file.contents
                       then Log(Msgs(items[..n])) <= file.contents <= Log(Msgs(items[..n + 1]))
                       else n == 0 && file.contents <= Header()
    ensures AckedAreFlushed(items, n, file.flushed)
    ensures !failed ==> HEADER_SIZE <= file.flushed
  {
    hide Encode, Header, Msgs, Log, Acks, AckedAreFlushed, AnsweredByErrors;
    n, responses := 0, [];
    EmptyLog(items);
    if items != [] { LogSnoc(items, 0); }
    var ok := file.WriteAll(Header());
    assert [] + Header() == Header();
    if ok { ok := file.Flush(); }
    NothingAcked(items, file.flushed);
    if ok {
      while n < |items|
        invariant n <= |items| && file.Valid() && HEADER_SIZE <= file.flushed
        invariant file.contents == Log(Msgs(items[..n]))
        invariant responses == Acks(items[..n])
        invariant AckedAreFlushed(items, n, file.flushed)
      {
        LogSnoc(items, n);
        ghost var before := file.flushed;
        ok := WriteMessage(file, items[n].msg);
        AckedStay(items, n, before, file.flushed);
        if !ok {
          HeaderFirst(Msgs(items[..n]));
          break;
        }
        AckedSnoc(items, n, before, file.flushed);
        responses := responses + AckOf(items[n]);
        n := n + 1;
      }
    }
    failed := !ok;
    if ok {
      assert items[..n] == items && items[n..] == [];
      assert responses + [] == responses && responses[|responses|..] == [];
      ErrorsAnswerInOrder([]);
      return;
    }
    var errors := ErrorState(items[n..]);
    responses := responses + errors;
    assert responses[|Acks(items[..n])|..] == errors;
  }

  lemma HeaderFirst(ms: seq<Message>)
    ensures Header() <= Log(ms)
  {
  }

  lemma NothingAcked(items: seq<Item>, flushed: nat)
    ensures AckedAreFlushed(items, 0, flushed) && Acks(items[..0]) == []
  {
  }

  lemma AckedStay(items: seq<Item>, n: nat, flushed: nat, flushed': nat)
    requires n <= |items| && AckedAreFlushed(items, n, flushed) && flushed <= flushed'
    ensures AckedAreFlushed(items, n, flushed')
  {
    hide Log, Msgs;
  }

  lemma AckedSnoc(items: seq<Item>, n: nat, flushed: nat, flushed': nat)
    requires n < |items| && AckedAreFlushed(items, n, flushed) && flushed <= flushed'
    requires items[n].msg.End? ==> |Log(Msgs(items[..n + 1]))| <= flushed'
    ensures AckedAreFlushed(items, n + 1, flushed')
    ensures Acks(items[..n + 1]) == Acks(items[..n]) + AckOf(items[n])
  {
    hide Log, Msgs;
    assert items[..n + 1][..n] == items[..n];
  }

  lemma EmptyLog(items: seq<Item>)
    ensures Log(Msgs(items[..0])) == Header()
  {
    assert Msgs(items[..0]) == [];
  }

  /** `error_state`: every further message is answered with the error. */
  method ErrorState(items: seq<Item>) returns (responses: seq<Response>)
    ensures responses == Errors(items) && AnsweredByErrors(items, responses)
  {
    hide AnsweredByErrors;
    responses := [];
    for k := 0 to |items|
      invariant responses == Errors(items[..k])
    {
      assert items[..k + 1][..k] == items[..k];
      responses := responses + ErrorOf(items[k]);
    }
    assert items[..|items|] == items;
    ErrorsAnswerInOrder(items);
  }

  /** What was written up to the last closed stream has left the buffer. */
  lemma ClosedIsFlushed(items: seq<Item>, flushed: nat)
    requires AckedAreFlushed(items, |items|, flushed) && HEADER_SIZE <= flushed
    ensures |Log(ClosedPart(Msgs(items)))| <= flushed
  {
    hide Encode, Header;
    var ms := Msgs(items);
    var n := |ClosedPart(ms)|;
    assert ClosedPart(ms) == ms[..n] == Msgs(items[..n]);
    if n > 0 {
      assert items[n - 1].msg == ms[n - 1];
    }
  }

  /**
   * Opens what a writer that has not failed leaves behind, and prints one channel. What is still in
   * the buffer when the writer stops is gone, so the file holds the log up to some byte not before the
   * last closed stream. It opens if and only if that is not inside the fixed part of a block, and then
   * shows the messages up to there. If the last message closes a stream, nothing is missing: for the
   * tasks in ascending order, the data of each task's newest execution is printed.
   */
  method CatWritten(items: seq<Item>, contents: seq<Byte>, flushed: nat, channel: U32, allowUnfinished: bool)
    returns (found: bool, out: seq<Byte>, ok: bool)
    requires AllFit(Msgs(items)) && Accepts(Msgs(items)) && channel < 2
    requires contents == Log(Msgs(items)) && HEADER_SIZE <= flushed <= |contents| && AckedAreFlushed(items, |items|, flushed)
    ensures
      var ms := Msgs(items);
      |Log(ClosedPart(ms))| <= flushed && (found <==> CleanCut(ms, flushed))
    ensures !found ==> out == [] && !ok
    ensures
      var ms := Msgs(items);
      found ==>
        && Readable(Log(ms)[..flushed])
        && var seen := MessagesIn(Log(ms)[..flushed]);
        var ts := Ascending(TasksOf(seen));
        && ClippedTo(seen, ms[..BlocksIn(ms, flushed)]) && |Log(seen)| == flushed
        && AllKnown(seen, ts)
        && (if allowUnfinished || AllFinished(seen, ts)
            then
              && out <= CatOf(seen, ts, channel) && (ok ==> out == CatOf(seen, ts, channel))
              && (ok <==> AllReadable(Log(ms)[..flushed], seen, EntriesIn(Log(ms)[..flushed]), ts, channel))
            else out == [] && !ok)
    ensures
      var ms := Msgs(items);
      EndsClosed(ms) ==>
        && found && flushed == |Log(ms)|
        && AllKnown(ms, Ascending(TasksOf(ms)))
        && (ok <==> allowUnfinished || AllFinished(ms, Ascending(TasksOf(ms))))
        && out == if ok then CatOf(ms, Ascending(TasksOf(ms)), channel) else []
  {
    hide Encode, Header, Msgs, Accepts, TasksOf, CatOf, Decode, AllFinished, EncodeAll, Log, AckedAreFlushed;
    hide Readable, MessagesIn, EntriesIn, ClosedPart, CleanCut, ClippedTo, EndsClosed, AllReadable, Latest;
    ghost var ms := Msgs(items);
    ClosedIsFlushed(items, flushed);
    DiskIsReadable(ms, flushed);
    found, out, ok := false, [], false;
    var log := LogFile.Open(contents[..flushed]);
    if log.Some? {
      found := true;
      ghost var seen := MessagesIn(log.value.file.data);
      AllTasksKnown(seen);
      AllFinishedMeans(seen, Ascending(TasksOf(seen)));
      out, ok := log.value.Cat(channel, None, allowUnfinished);
      if EndsClosed(ms) {
        assert contents[..flushed] == Log(ms);
        ReadableLog(ms);
        WholeIsReadable(Log(ms), ms, EntriesIn(Log(ms)), Ascending(TasksOf(ms)), channel);
      }
    }
  }

  /**
   * The whole way of a log: whatever the streams of a job send, it is written, and unless a write
   * fails the file is opened and one channel printed, as far as `flushed` reaches.
   */
  method WriteThenCat(items: seq<Item>, channel: U32, allowUnfinished: bool)
    returns (responses: seq<Response>, written: bool, found: bool, out: seq<Byte>, ok: bool, flushed: nat)
    requires AllFit(Msgs(items)) && Accepts(Msgs(items)) && channel < 2
    ensures written ==> responses == Acks(items)
    ensures !written ==> !found && exists n :: 0 <= n <= |items| && responses == Acks(items[..n]) + Errors(items[n..])
    ensures
      var ms := Msgs(items);
      written ==> |Log(ClosedPart(ms))| <= flushed <= |Log(ms)| && (found <==> CleanCut(ms, flushed))
    ensures
      var ms := Msgs(items);
      written && EndsClosed(ms) ==>
        && found && AllKnown(ms, Ascending(TasksOf(ms)))
        && (ok <==> allowUnfinished || AllFinished(ms, Ascending(TasksOf(ms))))
        && out == if ok then CatOf(ms, Ascending(TasksOf(ms)), channel) else []
  {
    hide Encode, Header, Msgs, Accepts, TasksOf, CatOf, AllFinished, Log, ClosedPart, CleanCut, EndsClosed, Acks, Errors;
    hide Readable, MessagesIn, ClippedTo, AllReadable, BlocksIn, AllKnown;
    var file := new BufferedFile();
    var n, failed;
    responses, n, failed := StreamTask(file, items);
    found, out, ok, written, flushed := false, [], false, !failed, file.flushed;
    if written {
      assert items[..n] == items && items[n..] == [];
      NoErrors();
      assert Acks(items) + [] == Acks(items);
      found, out, ok := CatWritten(items, file.contents, file.flushed, channel, allowUnfinished);
    }
  }

  lemma NoErrors()
    ensures Errors([]) == []
  {
  }

  /** The file as it is left behind, for well-formed messages. */
  lemma DiskIsReadable(ms: seq<Message>, disk: nat)
    requires AllFit(ms) && Accepts(ms) && |Log(ClosedPart(ms))| <= disk <= |Log(ms)|
    ensures Readable(Log(ms)[..disk]) <==> CleanCut(ms, disk)
    ensures Readable(Log(ms)[..disk]) ==>
              var seen := MessagesIn(Log(ms)[..disk]);
              ClippedTo(seen, ms[..BlocksIn(ms, disk)]) && |Log(seen)| == disk
    ensures EndsClosed(ms) ==> disk == |Log(ms)| && Readable(Log(ms)[..disk])
  {
    hide Encode, EncodeAll, Readable, MessagesIn, ClippedTo, CleanCut;
    assert HEADER_SIZE <= |Log(ClosedPart(ms))|;
    CutIsReadable(ms, disk);
    AcceptsPrefix(ms, BlocksIn(ms, disk));
    ClosedPartIsAll(ms);
    if EndsClosed(ms) {
      assert Log(ms)[..disk] == Log(ms);
      ReadableLog(ms);
    }
  }

  lemma AllTasksKnown(ms: seq<Message>)
    ensures AllKnown(ms, Ascending(TasksOf(ms)))
  {
    hide Ascending;
  }

  lemma WholeIsReadable(file: seq<Byte>, ms: seq<Message>, es: seq<Entry>, ids: seq<TaskId>, channel: U32)
    requires AllWhole(file, es) && AllKnown(ms, ids)
    ensures AllReadable(file, ms, es, ids, channel)
  {
    forall t | t in ids ensures ChunksReadable(file, ChunksOf(es, t, Latest(ms, t), channel)) {
      ChunksAreWhole(file, es, t, Latest(ms, t), channel);
    }
  }
}
