/**
 * The reader of stream logs: a cursor over the file, the index built in one pass, and the commands
 * `cat` (random access through the index), `show` (a second sequential pass) and `summary`.
 */
module LogReader {
  import opened Bytes
  import opened LogFormat
  import opened LogIndex
  import opened LogSpec
  import opened LogSummary

  /** A file with a read cursor. After a failed read the cursor is unspecified. */
  class FileReader {
    const data: seq<Byte>
    var pos: nat

    constructor (data: seq<Byte>)
      ensures this.data == data && pos == 0
    {
      this.data := data;
      pos := 0;
    }

    method ReadExact(n: nat) returns (r: Option<seq<Byte>>)
      modifies this`pos
      ensures r.Some? <==> n == 0 || old(pos) + n <= |data|
      ensures r.Some? ==> r.value == Body(data, old(pos), n) && |r.value| == n && pos == old(pos) + n
    {
      if n == 0 {
        r := Some([]);
      } else if pos + n <= |data| {
        r := Some(data[pos..pos + n]);
        pos := pos + n;
      } else {
        r := None;
      }
    }

    method ReadU8() returns (r: Option<Byte>)
      modifies this`pos
      ensures r.Some? <==> old(pos) < |data|
      ensures r.Some? ==> r.value == data[old(pos)] && pos == old(pos) + 1
    {
      var s := ReadExact(1);
      r := if s.Some? then Some(s.value[0]) else None;
    }

    method ReadU32() returns (r: Option<U32>)
      modifies this`pos
      ensures r.Some? <==> old(pos) + 4 <= |data|
      ensures r.Some? ==> r.value == GetU32(data[old(pos)..old(pos) + 4]) && pos == old(pos) + 4
    {
      var s := ReadExact(4);
      r := if s.Some? then Some(GetU32(s.value)) else None;
    }

    /** Seeking past the end is allowed, seeking before the start is not. */
    method SeekRelative(d: int) returns (ok: bool)
      modifies this`pos
      ensures ok <==> 0 <= old(pos) + d
      ensures ok ==> pos == old(pos) + d
    {
      ok := 0 <= pos + d;
      if ok { pos := pos + d; }
    }

    method SeekStart(p: nat)
      modifies this`pos
      ensures pos == p
    {
      pos := p;
    }
  }

  datatype Summary = Summary(
    nTasks: nat, nStreams: nat, nOpened: nat, stdoutSize: nat, stderrSize: nat,
    nSuperseded: int, supersededStdoutSize: nat, supersededStderrSize: nat)

  /** `check_header` */
  method CheckHeader(file: FileReader) returns (ok: bool)
    requires file.pos == 0
    modifies file`pos
    ensures ok <==> HeaderOk(file.data)
    ensures ok <==> |file.data| >= 26 && file.data[..10] == [72, 81, 58, 108, 111, 103, 0, 0, 0, 0]
    ensures ok ==> file.pos == HEADER_SIZE
  {
    hide GetU32;
    HeaderMeans(file.data);
    var header := file.ReadExact(6);
    if header.None? || header.value != MAGIC { return false; }
    var version := file.ReadU32();
    if version.None? || version.value != VERSION { return false; }
    var reserved := file.ReadExact(8);
    if reserved.None? { return false; }
    reserved := file.ReadExact(8);
    return reserved.Some?;
  }

  /** `read_block`: the block at the cursor, leaving the cursor right behind its fixed part. */
  method ReadBlock(file: FileReader) returns (r: BlockResult)
    modifies file`pos
    ensures r == BlockAt(file.data, old(file.pos))
    ensures r.Block? ==> file.pos == r.next
  {
    hide GetU32;
    var tag := file.ReadU8();
    if tag.None? { return Eof; }
    if tag.value != BLOCK_STREAM_START && tag.value != BLOCK_STREAM_CHUNK && tag.value != BLOCK_STREAM_END {
      return Invalid;
    }
    var task := file.ReadU32();
    if task.None? { return Invalid; }
    var inst := file.ReadU32();
    if inst.None? { return Invalid; }
    if tag.value == BLOCK_STREAM_CHUNK {
      var channel := file.ReadU32();
      if channel.None? { return Invalid; }
      var size := file.ReadU32();
      if size.None? { return Invalid; }
      r := Block(ChunkAt(task.value, inst.value, channel.value, file.pos, size.value), file.pos);
    } else if tag.value == BLOCK_STREAM_START {
      r := Block(StartAt(task.value, inst.value), file.pos);
    } else {
      r := Block(EndAt(task.value, inst.value), file.pos);
    }
  }

  /** What has been indexed when the blocks `done` lie behind the cursor. */
  ghost predicate IndexedSoFar(file: seq<Byte>, start: nat, pos: nat, index: Index, done: seq<Entry>)
  {
    && Scan(file, start) == Prepend(done, Scan(file, pos))
    && Accepts(Decode(file, done))
    && Describes(index, Decode(file, done), done)
  }

  lemma DecodeSnoc(file: seq<Byte>, done: seq<Entry>, e: Entry)
    ensures Decode(file, done + [e]) == Decode(file, done) + [MessageOf(file, e)]
  {
  }

  lemma DecodedBlocks(file: seq<Byte>, es: seq<Entry>)
    ensures |Decode(file, es)| == |es| && forall k :: 0 <= k < |es| ==> SameBlock(Decode(file, es)[k], es[k])
  {
  }

  /** A block that may not follow the ones before it makes the file unreadable, whatever comes later. */
  lemma RefusedBlock(file: seq<Byte>, start: nat, pos: nat, done: seq<Entry>)
    requires Scan(file, start) == Prepend(done, Scan(file, pos))
    requires BlockAt(file, pos).Block?
    requires !Admissible(Decode(file, done), MessageOf(file, BlockAt(file, pos).entry))
    ensures Scan(file, start).Some? ==> !Accepts(Decode(file, Scan(file, start).value))
  {
    hide BlockAt, Admissible;
    var e := BlockAt(file, pos).entry;
    if Scan(file, start).Some? {
      var all := Scan(file, start).value;
      var rest := Scan(file, After(e, BlockAt(file, pos).next)).value;
      assert all == done + ([e] + rest);
      var ms := Decode(file, all);
      assert ms[..|done|] == Decode(file, done) && ms[|done|] == MessageOf(file, e);
      assert !Admissible(ms[..|done|], ms[|done|]);
    }
  }

  lemma ScanStep(file: seq<Byte>, start: nat, pos: nat, done: seq<Entry>)
    requires Scan(file, start) == Prepend(done, Scan(file, pos))
    ensures BlockAt(file, pos).Invalid? ==> Scan(file, start).None?
    ensures BlockAt(file, pos).Eof? ==> Scan(file, start) == Some(done)
    ensures BlockAt(file, pos).Block? ==>
              var b := BlockAt(file, pos);
              Scan(file, start) == Prepend(done + [b.entry], Scan(file, After(b.entry, b.next)))
  {
    hide BlockAt;
    if BlockAt(file, pos).Block? {
      var b := BlockAt(file, pos);
      PrependAssoc(done, [b.entry], Scan(file, After(b.entry, b.next)));
    } else if BlockAt(file, pos).Eof? {
      assert done + [] == done;
    }
  }

  /** The effect of one block on the index; None when `make_index` bails out. */
  method IndexBlock(index: Index, e: Entry, ghost ms: seq<Message>, ghost es: seq<Entry>, ghost m: Message)
    returns (r: Option<Index>)
    requires |ms| == |es| && forall k :: 0 <= k < |ms| ==> SameBlock(ms[k], es[k])
    requires Accepts(ms) && Describes(index, ms, es) && SameBlock(m, e)
    ensures r.Some? <==> Admissible(ms, m)
    ensures r.Some? ==> Describes(r.value, ms + [m], es + [e])
  {
    hide Describes, Accepts, Increasing, HasId;
    if e.StartAt? {
      StartKeepsDescribes(index, ms, es, e.task, e.inst);
      var infos := NewInstance(InfosOf(index, e.task), e.inst);
      return if infos.Some? then Some(index[e.task := infos.value]) else None;
    }
    if e.ChunkAt? && e.channel >= 2 { return None; }
    KnownIffStarted(index, ms, es, e.task, e.inst);
    if e.task !in index { return None; }
    var infos := index[e.task];
    var k := Find(infos, e.inst);
    if k.None? { return None; }
    UpdateKeepsDescribes(index, ms, es, m, e, k.value);
    var info := infos[k.value];
    if e.ChunkAt? {
      info := AddChunk(info, e.channel, ChunkInfo(e.pos, e.size));
    } else {
      info := info.(finished := true);
    }
    r := Some(index[e.task := infos[k.value := info]]);
  }

  /** `make_index`: one pass over the blocks. */
  method MakeIndex(file: FileReader) returns (r: Option<Index>)
    modifies file`pos
    ensures
      var es := Scan(file.data, old(file.pos));
      && (r.Some? <==> es.Some? && Accepts(Decode(file.data, es.value)))
      && (r.Some? ==> Describes(r.value, Decode(file.data, es.value), es.value))
  {
    hide BlockAt, Describes, Admissible;
    ghost var start := file.pos;
    ghost var done: seq<Entry> := [];
    var index: Index := map[];
    assert IndexedSoFar(file.data, start, file.pos, index, done) by { EmptyIndex(file.data, start); }
    while true
      invariant IndexedSoFar(file.data, start, file.pos, index, done)
      decreases Left(file.data, file.pos)
    {
      ghost var pos, ms := file.pos, Decode(file.data, done);
      var b := ReadBlock(file);
      ScanStep(file.data, start, pos, done);
      match b
      case Eof => return Some(index);
      case Invalid => return None;
      case Block(e, _) =>
        DecodedBlocks(file.data, done);
        ghost var m := MessageOf(file.data, e);
        var next := IndexBlock(index, e, ms, done, m);
        if next.None? {
          RefusedBlock(file.data, start, pos, done);
          return None;
        }
        index := next.value;
        DecodeSnoc(file.data, done, e);
        AcceptsSnoc(ms, m);
        done := done + [e];
        if e.ChunkAt? {
          var _ := file.SeekRelative(e.size);
        }
    }
  }

  lemma EmptyIndex(file: seq<Byte>, start: nat)
    ensures IndexedSoFar(file, start, start, map[], [])
  {
    hide BlockAt;
    var rest := Scan(file, start);
    assert rest.Some? ==> [] + rest.value == rest.value;
  }

  /** An open log: the file, where its blocks start, and the index of what it holds. */
  class LogFile {
    const file: FileReader
    const startPos: nat
    const index: Index

    constructor (file: FileReader, startPos: nat, index: Index)
      ensures this.file == file && this.startPos == startPos && this.index == index
    {
      this.file := file;
      this.startPos := startPos;
      this.index := index;
    }

    ghost predicate Valid()
    {
      && Readable(file.data)
      && startPos == HEADER_SIZE
      && Describes(index, MessagesIn(file.data), EntriesIn(file.data))
    }

    /** `open` accepts exactly the readable files, and indexes them exactly. */
    static method Open(data: seq<Byte>) returns (r: Option<LogFile>)
      ensures r.Some? <==> Readable(data)
      ensures r.Some? ==> r.value.Valid() && r.value.file.data == data && fresh(r.value.file)
    {
      hide Describes, Accepts;
      var file := new FileReader(data);
      var ok := CheckHeader(file);
      if !ok { return None; }
      var start := file.pos;
      var index := MakeIndex(file);
      if index.None? { return None; }
      var log := new LogFile(file, start, index.value);
      r := Some(log);
    }

    /**
     * `print_instance`: the chunks of one instance by relative seeks. `lastPos` is the position the
     * command believes the cursor to be at, and it is.
     */
    method PrintChunks(chunks: seq<ChunkInfo>, lastPos: int) returns (out: seq<Byte>, newPos: int, ok: bool)
      requires file.pos == lastPos
      modifies file`pos
      ensures ok <==> ChunksReadable(file.data, chunks)
      ensures out <= Bodies(file.data, chunks)
      ensures ok ==> out == Bodies(file.data, chunks) && file.pos == newPos
    {
      hide Body;
      out, newPos := [], lastPos;
      for k := 0 to |chunks|
        invariant file.pos == newPos
        invariant ChunksReadable(file.data, chunks[..k])
        invariant out == Bodies(file.data, chunks[..k])
      {
        var chunk := chunks[k];
        assert chunks[..k + 1][..k] == chunks[..k];
        var diff := chunk.position - newPos;
        var moved := file.SeekRelative(diff);
        var buffer := file.ReadExact(chunk.size);
        if buffer.None? {
          assert !ChunksReadable(file.data, chunks);
          BodiesPrefix(file.data, chunks, k);
          return out, newPos, false;
        }
        out := out + buffer.value;
        newPos := chunk.position + chunk.size;
      }
      assert chunks[..|chunks|] == chunks;
      ok := true;
    }

    /** The last instances of the tasks `cat` is asked for; None when one of them is unknown. */
    method SelectInstances(ids: seq<TaskId>, ghost ms: seq<Message>, ghost es: seq<Entry>) returns (r: Option<seq<InstanceInfo>>)
      requires Describes(index, ms, es)
      ensures r.Some? <==> AllKnown(ms, ids)
      ensures r.Some? ==> AreLatest(r.value, ids, ms, es)
    {
      hide Describes, InfoOf, InstancesOf, TasksOf;
      KeysAreTasks(index, ms, es);
      var infos: seq<InstanceInfo> := [];
      for k := 0 to |ids|
        invariant AllKnown(ms, ids[..k]) && AreLatest(infos, ids[..k], ms, es)
      {
        if ids[k] !in index {
          assert ids[k] in ids;
          return None;
        }
        LastInstanceIsLatest(index, ms, es, ids[k]);
        var instances := index[ids[k]];
        infos := infos + [instances[|instances| - 1]];
        assert ids[..k + 1] == ids[..k] + [ids[k]];
      }
      assert ids[..|ids|] == ids;
      r := Some(infos);
    }

    /** The check of `cat` for unfinished streams. */
    method InstancesFinished(infos: seq<InstanceInfo>, ghost ids: seq<TaskId>, ghost ms: seq<Message>, ghost es: seq<Entry>)
      returns (finished: bool)
      requires AllKnown(ms, ids) && AreLatest(infos, ids, ms, es)
      ensures finished <==> AllFinished(ms, ids)
    {
      hide TasksOf;
      for k := 0 to |infos|
        invariant forall j :: 0 <= j < k ==> infos[j].finished
      {
        if !infos[k].finished {
          assert ids[k] in ids && !Finished(ms, ids[k], Latest(ms, ids[k]));
          return false;
        }
      }
      finished := true;
    }

    /** Prints the selected instances one after another, keeping track of the cursor. */
    method PrintInstances(infos: seq<InstanceInfo>, channel: U32, lastPos: int,
                          ghost ids: seq<TaskId>, ghost ms: seq<Message>, ghost es: seq<Entry>)
      returns (out: seq<Byte>, ok: bool)
      requires channel < 2 && file.pos == lastPos
      requires ms == Decode(file.data, es) && AllKnown(ms, ids) && AreLatest(infos, ids, ms, es)
      modifies file`pos
      ensures out <= CatOf(ms, ids, channel)
      ensures ok ==> out == CatOf(ms, ids, channel)
      ensures ok <==> AllReadable(file.data, ms, es, ids, channel)
    {
      hide DataOf, Bodies, ChunksOf, TasksOf, InstancesOf, Decode, ChunksReadable;
      var last := lastPos;
      out := [];
      assert ids[..0] == [];
      for k := 0 to |infos|
        invariant file.pos == last
        invariant AllKnown(ms, ids[..k])
        invariant out == CatOf(ms, ids[..k], channel)
        invariant AllReadable(file.data, ms, es, ids[..k], channel)
      {
        ghost var t := ids[k];
        BodiesAreData(file.data, es, t, Latest(ms, t), channel);
        assert infos[k].channels[channel] == ChunksOf(es, t, Latest(ms, t), channel);
        var printed, newPos, whole := PrintChunks(infos[k].channels[channel], last);
        assert ids[..k + 1] == ids[..k] + [t];
        CatPrefix(ms, ids, channel, k + 1);
        out := out + printed;
        last := newPos;
        if !whole {
          assert t in ids;
          return out, false;
        }
      }
      assert ids[..|ids|] == ids;
      ok := true;
    }

    /**
     * `cat`: prints the newest executions of the selected tasks, refusing unknown tasks and, unless
     * allowed, unfinished ones. It can only break off at a chunk whose data is not all in the file.
     */
    method Cat(channel: U32, tasks: Option<seq<TaskId>>, allowUnfinished: bool) returns (out: seq<Byte>, ok: bool)
      requires Valid() && channel < 2
      modifies file`pos
      ensures
        var ms := MessagesIn(file.data);
        var ts := if tasks.Some? then tasks.value else Ascending(TasksOf(ms));
        if !AllKnown(ms, ts) || (!allowUnfinished && exists t :: t in ts && End(t, Latest(ms, t)) !in ms) then out == [] && !ok
        else
          && out <= CatOf(ms, ts, channel)
          && (ok ==> out == CatOf(ms, ts, channel))
          && (ok <==> AllReadable(file.data, ms, EntriesIn(file.data), ts, channel))
    {
      hide Readable, Describes, CatOf, AllReadable, TasksOf, AllKnown, AllFinished, AreLatest, Decode, Scan, Latest;
      ghost var ms, es := MessagesIn(file.data), EntriesIn(file.data);
      file.SeekStart(startPos);
      var ids := if tasks.Some? then tasks.value else Ascending(index.Keys);
      KeysAreTasks(index, ms, es);
      var infos := SelectInstances(ids, ms, es);
      if infos.None? { return [], false; }
      AllFinishedMeans(ms, ids);
      if !allowUnfinished {
        var finished := InstancesFinished(infos.value, ids, ms, es);
        if !finished { return [], false; }
      }
      out, ok := PrintInstances(infos.value, channel, startPos, ids, ms, es);
    }

    /**
     * `show`: a second sequential pass that prints the blocks of the newest executions in the order
     * they were received. No lookup in the active instances can fail.
     */
    method Show(channel: Option<U32>, showEmpty: bool) returns (items: seq<ShowItem>, ok: bool)
      requires Valid()
      modifies file`pos
      ensures Covers(MessagesIn(file.data), MessagesIn(file.data))
      ensures
        var ms, es := MessagesIn(file.data), EntriesIn(file.data);
        && items <= ShowOf(ms, ms, channel, showEmpty)
        && (ok ==> items == ShowOf(ms, ms, channel, showEmpty))
        && (ok <==> ShownReadable(file.data, ms, es, channel))
    {
      hide BlockAt, Covers, ShownSoFar, ShowOf, ShownReadable, Readable, Body, WithNewline, MessagesIn, EntriesIn;
      hide TasksOf, Latest, Describes;
      ghost var ms, es := MessagesIn(file.data), EntriesIn(file.data);
      AcceptedIsCovered(ms);
      LastIdsAreLatest(index, ms, es);
      ghost var done: seq<Entry> := [];
      ShowStarts(file.data, channel, showEmpty);
      if index == map[] { return [], true; }
      file.SeekStart(startPos);
      var active := map t | t in index :: LastId(index[t]);
      var hasContent: set<TaskId> := {};
      items := [];
      while true
        invariant ShownSoFar(file.data, file.pos, done, items, hasContent, channel, showEmpty)
        decreases Left(file.data, file.pos)
      {
        ghost var pos := file.pos;
        var b := ReadBlock(file);
        ShowAdvances(file.data, pos, done, items, hasContent, channel, showEmpty);
        assert items + [] == items && hasContent + {} == hasContent;
        if b.Eof? { return items, true; }
        var e := b.entry;
        if e.ChunkAt? && ChannelSelected(channel, e.channel) && active[e.task] == e.inst {
          var buffer := file.ReadExact(e.size);
          if buffer.None? { return items, false; }
          items := items + [ShowChunk(e.task, e.channel, WithNewline(buffer.value))];
          hasContent := hasContent + {e.task};
        } else if e.ChunkAt? {
          var _ := file.SeekRelative(e.size);
        } else if e.EndAt? && active[e.task] == e.inst && (showEmpty || e.task in hasContent) {
          items := items + [ShowClosed(e.task)];
        }
        done := done + [e];
      }
    }

    /**
     * `summary`: counts every stream and every byte exactly once. Without truncated chunks the
     * current sizes are what `cat` prints for the whole log.
     */
    method Summarize() returns (s: Summary)
      requires Valid()
      ensures
        var ms, es := MessagesIn(file.data), EntriesIn(file.data);
        && s.nTasks == |TasksOf(ms)|
        && s.nStreams == StartCount(ms)
        && s.nSuperseded == StartCount(ms) - |TasksOf(ms)| >= 0
        && s.nOpened == |set t | t in TasksOf(ms) && !Finished(ms, t, Latest(ms, t))|
        && s.stdoutSize + s.supersededStdoutSize == ChannelBytes(es, 0)
        && s.stderrSize + s.supersededStderrSize == ChannelBytes(es, 1)
        && (AllWhole(file.data, es) ==>
              && AllKnown(ms, Ascending(TasksOf(ms)))
              && s.stdoutSize == |CatOf(ms, Ascending(TasksOf(ms)), 0)|
              && s.stderrSize == |CatOf(ms, Ascending(TasksOf(ms)), 1)|)
    {
      hide Describes, Readable, MessagesIn, EntriesIn, TasksOf, Latest, CurrentSize, SupersededSize, StreamCount, OpenCount;
      var ts := Ascending(index.Keys);
      SummaryFacts(file.data, index);
      var nOpened, nStreams := OpenCount(index, ts), StreamCount(index, ts);
      var stdout, stderr, oldStdout, oldStderr := Sizes(index, ts);
      s := Summary(|index|, nStreams, nOpened, stdout, stderr, nStreams - |index|, oldStdout, oldStderr);
    }
  }

  /** The loop of `summary` over the tasks of the index. */
  method Sizes(index: Index, ts: seq<TaskId>) returns (stdout: nat, stderr: nat, oldStdout: nat, oldStderr: nat)
    requires Indexed(index, ts)
    ensures stdout == CurrentSize(index, ts, 0) && stderr == CurrentSize(index, ts, 1)
    ensures oldStdout == SupersededSize(index, ts, 0) && oldStderr == SupersededSize(index, ts, 1)
  {
    hide SizeOn, InfosSize;
    stdout, stderr, oldStdout, oldStderr := 0, 0, 0, 0;
    for k := 0 to |ts|
      invariant Indexed(index, ts[..k])
      invariant stdout == CurrentSize(index, ts[..k], 0) && stderr == CurrentSize(index, ts[..k], 1)
      invariant oldStdout == SupersededSize(index, ts[..k], 0) && oldStderr == SupersededSize(index, ts[..k], 1)
    {
      assert ts[..k + 1] == ts[..k] + [ts[k]];
      var infos := index[ts[k]];
      var last := infos[|infos| - 1];
      stdout, stderr := stdout + SizeOn(last, 0), stderr + SizeOn(last, 1);
      var a, b := SupersededOf(infos[..|infos| - 1]);
      oldStdout, oldStderr := oldStdout + a, oldStderr + b;
    }
    assert ts[..|ts|] == ts;
  }

  /** The inner loop of `summary` over the superseded executions of a task. */
  method SupersededOf(older: TaskInfo) returns (stdout: nat, stderr: nat)
    ensures stdout == InfosSize(older, 0) && stderr == InfosSize(older, 1)
  {
    hide SizeOn;
    stdout, stderr := 0, 0;
    for k := 0 to |older|
      invariant stdout == InfosSize(older[..k], 0) && stderr == InfosSize(older[..k], 1)
    {
      assert older[..k + 1][..k] == older[..k];
      stdout, stderr := stdout + SizeOn(older[k], 0), stderr + SizeOn(older[k], 1);
    }
    assert older[..|older|] == older;
  }

  lemma SummaryFacts(file: seq<Byte>, index: Index)
    requires Readable(file) && Describes(index, MessagesIn(file), EntriesIn(file))
    ensures
      var ms, es, ts := MessagesIn(file), EntriesIn(file), Ascending(index.Keys);
      && Indexed(index, ts) && ts == Ascending(TasksOf(ms)) && |index| == |TasksOf(ms)| <= StartCount(ms)
      && StreamCount(index, ts) == StartCount(ms)
      && OpenCount(index, ts) == |set t | t in TasksOf(ms) && !Finished(ms, t, Latest(ms, t))|
      && CurrentSize(index, ts, 0) + SupersededSize(index, ts, 0) == ChannelBytes(es, 0)
      && CurrentSize(index, ts, 1) + SupersededSize(index, ts, 1) == ChannelBytes(es, 1)
      && (AllWhole(file, es) ==>
            && AllKnown(ms, ts)
            && CurrentSize(index, ts, 0) == |CatOf(ms, ts, 0)| && CurrentSize(index, ts, 1) == |CatOf(ms, ts, 1)|)
  {
    hide Describes, Readable, TasksOf, Latest, Accepts, Scan, Decode;
    var ms, es, ts := MessagesIn(file), EntriesIn(file), Ascending(index.Keys);
    DecodedBlocks(file, es);
    IndexIsIndexed(index, ms, es);
    KeysAreTasks(index, ms, es);
    StreamsAreConserved(index, ms, es);
    BytesAreConserved(index, ms, es, 0);
    BytesAreConserved(index, ms, es, 1);
    OpenTasks(index, ms, es, ts);
    assert (set t | t in ts && !Finished(ms, t, Latest(ms, t))) == set t | t in TasksOf(ms) && !Finished(ms, t, Latest(ms, t));
    if AllWhole(file, es) {
      CurrentSizeIsCatSize(file, index, es, ts, 0);
      CurrentSizeIsCatSize(file, index, es, ts, 1);
    }
  }

  /** What `show` has printed when the blocks `done` lie behind the cursor. */
  ghost predicate ShownSoFar(file: seq<Byte>, pos: nat, done: seq<Entry>, items: seq<ShowItem>, content: set<TaskId>,
                             sel: Option<U32>, showEmpty: bool)
  {
    && Readable(file)
    && var ms := MessagesIn(file);
    && Scan(file, HEADER_SIZE) == Prepend(done, Scan(file, pos))
    && ShownReadable(file, ms, done, sel)
    && Covers(ms, Decode(file, done))
    && items == ShowOf(ms, Decode(file, done), sel, showEmpty)
    && content == ContentOf(ms, Decode(file, done), sel)
  }

  lemma ShowStarts(file: seq<Byte>, sel: Option<U32>, showEmpty: bool)
    requires Readable(file)
    ensures ShownSoFar(file, HEADER_SIZE, [], [], {}, sel, showEmpty)
    ensures TasksOf(MessagesIn(file)) == {} ==>
              Covers(MessagesIn(file), MessagesIn(file))
              && ShowOf(MessagesIn(file), MessagesIn(file), sel, showEmpty) == []
              && ShownReadable(file, MessagesIn(file), EntriesIn(file), sel)
  {
    hide BlockAt, Accepts;
    var ms := MessagesIn(file);
    AcceptedIsCovered(ms);
    ScanFrom(file, HEADER_SIZE);
    EmptyContent(ms, sel);
  }

  /** One block of `show`: what it prints, that its task is known, and how the pass ends. */
  lemma ShowAdvances(file: seq<Byte>, pos: nat, done: seq<Entry>, items: seq<ShowItem>, content: set<TaskId>,
                     sel: Option<U32>, showEmpty: bool)
    requires ShownSoFar(file, pos, done, items, content, sel, showEmpty)
    ensures Covers(MessagesIn(file), MessagesIn(file)) && !BlockAt(file, pos).Invalid?
    ensures items <= ShowOf(MessagesIn(file), MessagesIn(file), sel, showEmpty)
    ensures BlockAt(file, pos).Eof? ==>
              && items == ShowOf(MessagesIn(file), MessagesIn(file), sel, showEmpty)
              && ShownReadable(file, MessagesIn(file), EntriesIn(file), sel)
    ensures BlockAt(file, pos).Block? ==>
              var e, next := BlockAt(file, pos).entry, BlockAt(file, pos).next;
              && e.task in TasksOf(MessagesIn(file))
              && var active := Latest(MessagesIn(file), e.task) == e.inst;
              var shows := e.ChunkAt? && ChannelSelected(sel, e.channel) && active;
              if shows && e.size != 0 && |file| < next + e.size then
                !ShownReadable(file, MessagesIn(file), EntriesIn(file), sel)
              else
                ShownSoFar(file, After(e, next), done + [e],
                           items + (if shows then [ShowChunk(e.task, e.channel, WithNewline(Body(file, next, e.size)))]
                                    else if e.EndAt? && active && (showEmpty || e.task in content) then [ShowClosed(e.task)]
                                    else []),
                           content + (if shows then {e.task} else {}), sel, showEmpty)
  {
    hide BlockAt, Accepts, ShowOf, ContentOf, Body, WithNewline, TasksOf, InstancesOf, Max;
    var ms, es := MessagesIn(file), EntriesIn(file);
    AcceptedIsCovered(ms);
    ScanStep(file, HEADER_SIZE, pos, done);
    var before := Decode(file, done);
    var b := BlockAt(file, pos);
    if b.Block? {
      var e, next := b.entry, b.next;
      NextEntry(file, es, done, e, After(e, next));
      ShowPrefix(ms, ms, sel, showEmpty, |done|);
      assert ms[..|done|] == before;
      StepShown(file, ms, done, e, sel, showEmpty);
      if e.ChunkAt? && ShowsData(ms, MessageOf(file, e), sel) && e.size != 0 && |file| < next + e.size {
        ShownRefused(file, ms, es, done, e, sel);
      } else {
        ShownReadableSnoc(file, ms, done, e, sel);
      }
    }
  }

  lemma ShownReadableSnoc(file: seq<Byte>, ms: seq<Message>, done: seq<Entry>, e: Entry, sel: Option<U32>)
    requires ShownReadable(file, ms, done, sel) && e.task in TasksOf(ms)
    requires e.ChunkAt? && ShowsData(ms, MessageOf(file, e), sel) ==> e.size == 0 || e.pos + e.size <= |file|
    ensures ShownReadable(file, ms, done + [e], sel)
  {
  }

  function LastId(infos: TaskInfo): InstanceId
  {
    if infos == [] then 0 else infos[|infos| - 1].id
  }

  lemma LastIdsAreLatest(index: Index, ms: seq<Message>, es: seq<Entry>)
    requires Describes(index, ms, es)
    ensures index.Keys == TasksOf(ms)
    ensures forall t :: t in index ==> LastId(index[t]) == Latest(ms, t)
  {
    forall t | t in index ensures LastId(index[t]) == Latest(ms, t) { LastInstanceIsLatest(index, ms, es, t); }
  }

  /** Every chunk `show` has to print can be read. */
  predicate ShownReadable(file: seq<Byte>, ms: seq<Message>, es: seq<Entry>, sel: Option<U32>)
  {
    forall k :: 0 <= k < |es| && es[k].ChunkAt? && es[k].task in TasksOf(ms) && ShowsData(ms, MessageOf(file, es[k]), sel) ==>
      es[k].size == 0 || es[k].pos + es[k].size <= |file|
  }

  lemma ScanFrom(file: seq<Byte>, pos: nat)
    ensures Scan(file, pos) == Prepend([], Scan(file, pos))
  {
    hide BlockAt;
    var rest := Scan(file, pos);
    assert rest.Some? ==> [] + rest.value == rest.value;
  }

  lemma EmptyContent(ms: seq<Message>, sel: Option<U32>)
    ensures ContentOf(ms, [], sel) == {}
  {
  }

  lemma NextEntry(file: seq<Byte>, es: seq<Entry>, done: seq<Entry>, e: Entry, next: nat)
    requires Prepend(done + [e], Scan(file, next)) == Some(es)
    ensures done + [e] <= es && |done| < |es| && es[|done|] == e
    ensures MessageOf(file, e) in Decode(file, es)
  {
    hide BlockAt;
    assert es == done + [e] + Scan(file, next).value;
    assert Decode(file, es)[|done|] == MessageOf(file, e);
  }

  /** What one more block adds to the items and to the tasks with content. */
  lemma StepShown(file: seq<Byte>, ms: seq<Message>, done: seq<Entry>, e: Entry, sel: Option<U32>, showEmpty: bool)
    requires Covers(ms, Decode(file, done)) && e.task in TasksOf(ms)
    ensures
      var before, m := Decode(file, done), MessageOf(file, e);
      var all := Decode(file, done + [e]);
      && Covers(ms, all) && m.task == e.task
      && (ShowsData(ms, m, sel) <==> e.ChunkAt? && ChannelSelected(sel, e.channel) && Latest(ms, e.task) == e.inst)
      && ShowOf(ms, all, sel, showEmpty) == ShowOf(ms, before, sel, showEmpty) + ItemsFor(ms, before, m, sel, showEmpty)
      && ContentOf(ms, all, sel) == ContentOf(ms, before, sel) + if ShowsData(ms, m, sel) then {m.task} else {}
  {
    var before, m := Decode(file, done), MessageOf(file, e);
    var all := Decode(file, done + [e]);
    DecodeSnoc(file, done, e);
    assert all[..|all| - 1] == before;
    assert forall x :: x in all <==> x in before || x == m;
    if ShowsData(ms, m, sel) { assert m in all; }
  }

  lemma ShownRefused(file: seq<Byte>, ms: seq<Message>, es: seq<Entry>, done: seq<Entry>, e: Entry, sel: Option<U32>)
    requires done + [e] <= es && e.ChunkAt? && e.task in TasksOf(ms) && ShowsData(ms, MessageOf(file, e), sel)
    requires e.size != 0 && |file| < e.pos + e.size
    ensures !ShownReadable(file, ms, es, sel)
  {
    assert es[|done|] == e;
  }

  /** The infos are those of the newest executions of the tasks. */
  ghost predicate AreLatest(infos: seq<InstanceInfo>, ids: seq<TaskId>, ms: seq<Message>, es: seq<Entry>)
    requires AllKnown(ms, ids)
  {
    |infos| == |ids| && forall k :: 0 <= k < |ids| ==> infos[k] == InfoOf(ms, es, ids[k], Latest(ms, ids[k]))
  }

  /** Every chunk `cat` has to print can be read. */
  predicate AllReadable(file: seq<Byte>, ms: seq<Message>, es: seq<Entry>, ids: seq<TaskId>, channel: U32)
    requires AllKnown(ms, ids)
  {
    forall t :: t in ids ==> ChunksReadable(file, ChunksOf(es, t, Latest(ms, t), channel))
  }

  /** `read_exact` succeeds on every chunk; a chunk without data can be read anywhere. */
  predicate ChunksReadable(file: seq<Byte>, chunks: seq<ChunkInfo>)
  {
    forall k :: 0 <= k < |chunks| ==> chunks[k].size == 0 || chunks[k].position + chunks[k].size <= |file|
  }

  lemma KeysAreTasks(index: Index, ms: seq<Message>, es: seq<Entry>)
    requires Describes(index, ms, es)
    ensures index.Keys == TasksOf(ms)
  {
  }
}
