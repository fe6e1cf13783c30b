/**
 * What `hq log cat`, `show` and `summary` promise, stated on the messages a log holds, and the
 * lemmas that connect those promises with the index.
 */
module LogSpec {
  import opened Bytes
  import opened LogFormat
  import opened LogIndex

  // ---- Opening -------------------------------------------------------------------------------

  predicate HeaderOk(file: seq<Byte>)
  {
    |file| >= HEADER_SIZE && file[..6] == MAGIC && GetU32(file[6..10]) == VERSION
  }

  /** A header is accepted if and only if all its 26 bytes are there and the first ten are the right ones. */
  lemma HeaderMeans(file: seq<Byte>)
    ensures HeaderOk(file) <==> |file| >= 26 && file[..10] == [72, 81, 58, 108, 111, 103, 0, 0, 0, 0]
  {
    if |file| >= 26 {
      assert file[..10] == file[..6] + file[6..10];
      ZeroWord(file[6..10]);
      assert [72, 81, 58, 108, 111, 103] + [0, 0, 0, 0] == [72, 81, 58, 108, 111, 103, 0, 0, 0, 0];
    }
  }

  lemma ZeroWord(s: seq<Byte>)
    requires |s| == 4
    ensures GetU32(s) == 0 <==> s == [0, 0, 0, 0]
  {
  }

  /** The files `LogFile::open` accepts. */
  predicate Readable(file: seq<Byte>)
  {
    && HeaderOk(file)
    && Scan(file, HEADER_SIZE).Some?
    && Accepts(Decode(file, Scan(file, HEADER_SIZE).value))
  }

  function EntriesIn(file: seq<Byte>): seq<Entry>
    requires Readable(file)
  {
    Scan(file, HEADER_SIZE).value
  }

  function MessagesIn(file: seq<Byte>): (ms: seq<Message>)
    requires Readable(file)
    ensures Accepts(ms)
  {
    Decode(file, EntriesIn(file))
  }

  // ---- cat -----------------------------------------------------------------------------------

  predicate AllKnown(ms: seq<Message>, ts: seq<TaskId>)
  {
    forall t :: t in ts ==> t in TasksOf(ms)
  }

  /** The newest execution of each task, one after another, without regard to older executions. */
  function CatOf(ms: seq<Message>, ts: seq<TaskId>, c: U32): seq<Byte>
    requires AllKnown(ms, ts)
  {
    if ts == [] then []
    else
      var t := ts[|ts| - 1];
      CatOf(ms, ts[..|ts| - 1], c) + DataOf(ms, t, Latest(ms, t), c)
  }

  predicate AllFinished(ms: seq<Message>, ts: seq<TaskId>)
    requires AllKnown(ms, ts)
  {
    forall t :: t in ts ==> Finished(ms, t, Latest(ms, t))
  }

  lemma AllFinishedMeans(ms: seq<Message>, ts: seq<TaskId>)
    requires AllKnown(ms, ts)
    ensures AllFinished(ms, ts) <==> forall t :: t in ts ==> End(t, Latest(ms, t)) in ms
  {
    hide Latest, TasksOf;
  }

  /**
   * Whatever tasks are asked for are printed in that order, as often as they are named, each with the
   * data of its newest execution.
   */
  lemma {:induction false} CatAppend(ms: seq<Message>, a: seq<TaskId>, b: seq<TaskId>, c: U32)
    requires AllKnown(ms, a) && AllKnown(ms, b)
    ensures AllKnown(ms, a + b) && CatOf(ms, a + b, c) == CatOf(ms, a, c) + CatOf(ms, b, c)
    ensures |b| == 1 ==> CatOf(ms, b, c) == DataOf(ms, b[0], Latest(ms, b[0]), c)
  {
    hide DataOf, Latest, TasksOf;
    if b == [] {
      assert a + b == a;
    } else {
      var init, t := b[..|b| - 1], b[|b| - 1];
      CatAppend(ms, a, init, c);
      assert (a + b)[..|a + b| - 1] == a + init;
      var x, y, z := CatOf(ms, a, c), CatOf(ms, init, c), DataOf(ms, t, Latest(ms, t), c);
      assert (x + y) + z == x + (y + z);
      if |b| == 1 { assert [] + z == z; }
    }
  }

  function Bodies(file: seq<Byte>, chunks: seq<ChunkInfo>): seq<Byte>
  {
    if chunks == [] then []
    else
      var last := chunks[|chunks| - 1];
      Bodies(file, chunks[..|chunks| - 1]) + Body(file, last.position, last.size)
  }

  predicate ChunksWhole(file: seq<Byte>, chunks: seq<ChunkInfo>)
  {
    forall k :: 0 <= k < |chunks| ==> chunks[k].position + chunks[k].size <= |file|
  }

  /** Reading an instance's chunks through the index gives the data the instance wrote. */
  lemma {:induction false} BodiesAreData(file: seq<Byte>, es: seq<Entry>, t: TaskId, i: InstanceId, c: U32)
    ensures Bodies(file, ChunksOf(es, t, i, c)) == DataOf(Decode(file, es), t, i, c)
  {
    if es != [] {
      var n := |es| - 1;
      BodiesAreData(file, es[..n], t, i, c);
      assert Decode(file, es)[..n] == Decode(file, es[..n]);
      var prev := ChunksOf(es[..n], t, i, c);
      var e := es[n];
      if e.ChunkAt? && e.task == t && e.inst == i && e.channel == c {
        var chunks := ChunksOf(es, t, i, c);
        assert chunks[..|chunks| - 1] == prev;
      } else {
        assert prev + [] == prev;
      }
    }
  }

  lemma {:induction false} ChunksAreWhole(file: seq<Byte>, es: seq<Entry>, t: TaskId, i: InstanceId, c: U32)
    requires AllWhole(file, es)
    ensures ChunksWhole(file, ChunksOf(es, t, i, c))
  {
    if es != [] {
      var n := |es| - 1;
      ChunksAreWhole(file, es[..n], t, i, c);
      assert Whole(file, es[n]);
    }
  }

  lemma {:induction false} BodiesPrefix(file: seq<Byte>, chunks: seq<ChunkInfo>, n: nat)
    requires n <= |chunks|
    ensures Bodies(file, chunks[..n]) <= Bodies(file, chunks)
  {
    if n == |chunks| {
      assert chunks[..n] == chunks;
    } else {
      var init := chunks[..|chunks| - 1];
      BodiesPrefix(file, init, n);
      assert init[..n] == chunks[..n];
    }
  }

  lemma {:induction false} CatPrefix(ms: seq<Message>, ts: seq<TaskId>, c: U32, n: nat)
    requires AllKnown(ms, ts) && n <= |ts|
    ensures AllKnown(ms, ts[..n]) && CatOf(ms, ts[..n], c) <= CatOf(ms, ts, c)
  {
    if n == |ts| {
      assert ts[..n] == ts;
    } else {
      var init := ts[..|ts| - 1];
      CatPrefix(ms, init, c, n);
      assert init[..n] == ts[..n];
    }
  }

  // ---- show ----------------------------------------------------------------------------------

  datatype ShowItem =
    | ShowChunk(task: TaskId, channel: U32, text: seq<Byte>)
    | ShowClosed(task: TaskId)

  const NEWLINE: Byte := 10

  predicate EndsLine(data: seq<Byte>) { data != [] && data[|data| - 1] == NEWLINE }

  /** `show` pushes a newline onto a buffer that does not end in one. */
  function WithNewline(data: seq<Byte>): seq<Byte>
  {
    if EndsLine(data) then data else data + [NEWLINE]
  }

  predicate ChannelSelected(sel: Option<U32>, c: U32) { sel.None? || sel.value == c }

  /** A data block that `show` prints: on a selected channel, of the newest execution of its task. */
  predicate ShowsData(all: seq<Message>, m: Message, sel: Option<U32>)
    requires m.task in TasksOf(all)
  {
    m.Data? && ChannelSelected(sel, m.channel) && Latest(all, m.task) == m.inst
  }

  predicate Covers(all: seq<Message>, ms: seq<Message>)
  {
    forall m :: m in ms ==> m.task in TasksOf(all)
  }

  function ContentOf(all: seq<Message>, ms: seq<Message>, sel: Option<U32>): set<TaskId>
    requires Covers(all, ms)
  {
    set m | m in ms && ShowsData(all, m, sel) :: m.task
  }

  function ItemsFor(all: seq<Message>, before: seq<Message>, m: Message, sel: Option<U32>, showEmpty: bool): seq<ShowItem>
    requires Covers(all, before) && m.task in TasksOf(all)
  {
    if ShowsData(all, m, sel) then [ShowChunk(m.task, m.channel, WithNewline(m.data))]
    else if m.End? && Latest(all, m.task) == m.inst && (showEmpty || m.task in ContentOf(all, before, sel))
    then [ShowClosed(m.task)]
    else []
  }

  /** The items `show` prints for the part `ms` of the log `all`. */
  function ShowOf(all: seq<Message>, ms: seq<Message>, sel: Option<U32>, showEmpty: bool): seq<ShowItem>
    requires Covers(all, ms)
  {
    if ms == [] then []
    else
      var before, m := ms[..|ms| - 1], ms[|ms| - 1];
      ShowOf(all, before, sel, showEmpty) + ItemsFor(all, before, m, sel, showEmpty)
  }

  /** In an accepted log every block belongs to a started instance, so no lookup of `show` can fail. */
  lemma AcceptedIsCovered(ms: seq<Message>)
    requires Accepts(ms)
    ensures Covers(ms, ms)
    ensures TasksOf(ms) == {} ==> ms == []
  {
    forall m | m in ms ensures m.task in TasksOf(ms) {
      var k :| 0 <= k < |ms| && ms[k] == m;
      assert Admissible(ms[..k], ms[k]);
      assert Start(m.task, m.inst) in ms;
    }
    if ms != [] { assert ms[0].task in TasksOf(ms); }
  }

  lemma {:induction false} ShowPrefix(all: seq<Message>, ms: seq<Message>, sel: Option<U32>, showEmpty: bool, n: nat)
    requires Covers(all, ms) && n <= |ms|
    ensures ShowOf(all, ms[..n], sel, showEmpty) <= ShowOf(all, ms, sel, showEmpty)
  {
    if n == |ms| {
      assert ms[..n] == ms;
    } else {
      var init := ms[..|ms| - 1];
      ShowPrefix(all, init, sel, showEmpty, n);
      assert init[..n] == ms[..n];
    }
  }

  // ---- show agrees with cat ------------------------------------------------------------------

  function TextIn(x: ShowItem, t: TaskId, c: U32): seq<Byte>
  {
    if x.ShowChunk? && x.task == t && x.channel == c then x.text else []
  }

  /** The text `show` printed for one task and channel. */
  function TextOf(items: seq<ShowItem>, t: TaskId, c: U32): seq<Byte>
  {
    if items == [] then []
    else TextOf(items[..|items| - 1], t, c) + TextIn(items[|items| - 1], t, c)
  }

  lemma {:induction false} TextAppend(a: seq<ShowItem>, b: seq<ShowItem>, t: TaskId, c: U32)
    ensures TextOf(a + b, t, c) == TextOf(a, t, c) + TextOf(b, t, c)
  {
    hide TextIn;
    if b == [] {
      assert a + b == a;
      assert TextOf(a, t, c) + [] == TextOf(a, t, c);
    } else {
      TextAppend(a, b[..|b| - 1], t, c);
      assert (a + b)[..|a + b| - 1] == a + b[..|b| - 1];
      var x, y, z := TextOf(a, t, c), TextOf(b[..|b| - 1], t, c), TextIn(b[|b| - 1], t, c);
      assert (x + y) + z == x + (y + z);
    }
  }

  /** The chunks of an execution on a channel one after another, each followed by a newline where it lacks one. */
  function LinesOf(ms: seq<Message>, t: TaskId, i: InstanceId, c: U32): seq<Byte>
  {
    if ms == [] then []
    else
      var m := ms[|ms| - 1];
      LinesOf(ms[..|ms| - 1], t, i, c)
      + if IsData(m, t, i, c) then m.data + (if m.data != [] && m.data[|m.data| - 1] == 10 then [] else [10]) else []
  }

  /** `show` completes a chunk to a line and changes nothing else of it. */
  lemma CompletedLine(data: seq<Byte>)
    ensures
      var text := WithNewline(data);
      && data <= text <= data + [10] && text != [] && text[|text| - 1] == 10
      && (text == data <==> data != [] && data[|data| - 1] == 10)
  {
  }

  /** How many chunks of the instance do not end a line. */
  function UnendedLines(ms: seq<Message>, t: TaskId, i: InstanceId, c: U32): nat
  {
    if ms == [] then 0
    else
      var m := ms[|ms| - 1];
      UnendedLines(ms[..|ms| - 1], t, i, c)
      + if IsData(m, t, i, c) && (m.data == [] || m.data[|m.data| - 1] != 10) then 1 else 0
  }

  lemma {:induction false} LinesLength(ms: seq<Message>, t: TaskId, i: InstanceId, c: U32)
    ensures |LinesOf(ms, t, i, c)| == |DataOf(ms, t, i, c)| + UnendedLines(ms, t, i, c)
    ensures UnendedLines(ms, t, i, c) == 0 ==> LinesOf(ms, t, i, c) == DataOf(ms, t, i, c)
  {
    if ms != [] { LinesLength(ms[..|ms| - 1], t, i, c); }
  }

  lemma ItemText(all: seq<Message>, before: seq<Message>, m: Message, sel: Option<U32>, showEmpty: bool, t: TaskId, c: U32)
    requires Covers(all, before) && m.task in TasksOf(all) && t in TasksOf(all)
    ensures TextOf(ItemsFor(all, before, m, sel, showEmpty), t, c)
         == if ChannelSelected(sel, c) && IsData(m, t, Latest(all, t), c) then WithNewline(m.data) else []
  {
    hide ContentOf, TasksOf, InstancesOf, Latest, WithNewline;
    var items := ItemsFor(all, before, m, sel, showEmpty);
    if items != [] {
      assert items[..0] == [];
      assert TextOf(items, t, c) == [] + TextIn(items[0], t, c) == TextIn(items[0], t, c);
    }
  }

  /** The sequential scanner prints, per task and channel, the chunks of the newest execution. */
  lemma {:induction false} ShowText(all: seq<Message>, ms: seq<Message>, sel: Option<U32>, showEmpty: bool, t: TaskId, c: U32)
    requires Covers(all, ms) && t in TasksOf(all)
    ensures TextOf(ShowOf(all, ms, sel, showEmpty), t, c)
         == if sel.None? || sel.value == c then LinesOf(ms, t, Latest(all, t), c) else []
  {
    hide ItemsFor, TasksOf, Latest, WithNewline, LinesOf;
    if ms == [] {
      NoLines(t, Latest(all, t), c);
    } else {
      var before, m := ms[..|ms| - 1], ms[|ms| - 1];
      assert m in ms;
      LinesGrow(ms, t, Latest(all, t), c);
      ShowText(all, before, sel, showEmpty, t, c);
      TextAppend(ShowOf(all, before, sel, showEmpty), ItemsFor(all, before, m, sel, showEmpty), t, c);
      ItemText(all, before, m, sel, showEmpty, t, c);
    }
  }

  lemma NoLines(t: TaskId, i: InstanceId, c: U32)
    ensures LinesOf([], t, i, c) == []
  {
  }

  lemma LinesGrow(ms: seq<Message>, t: TaskId, i: InstanceId, c: U32)
    requires ms != []
    ensures
      var m := ms[|ms| - 1];
      LinesOf(ms, t, i, c) == LinesOf(ms[..|ms| - 1], t, i, c) + if IsData(m, t, i, c) then WithNewline(m.data) else []
  {
    hide WithNewline;
    var m := ms[|ms| - 1];
    if m.Data? { LineIsCompleted(m.data); }
  }

  lemma LineIsCompleted(data: seq<Byte>)
    ensures WithNewline(data) == data + if data != [] && data[|data| - 1] == 10 then [] else [10]
  {
  }

  /** What one shown chunk is: a chunk of the newest execution of its task, completed to a line. */
  predicate ShownAs(all: seq<Message>, m: Message, x: ShowItem, sel: Option<U32>)
  {
    && m.Data? && x.ShowChunk? && m.task in TasksOf(all)
    && x.task == m.task && x.channel == m.channel && (sel.None? || sel.value == m.channel) && m.inst == Latest(all, m.task)
    && m.data <= x.text <= m.data + [10] && x.text != [] && x.text[|x.text| - 1] == 10
    && (x.text == m.data <==> m.data != [] && m.data[|m.data| - 1] == 10)
  }

  /** Every chunk shown comes from a message that way. */
  lemma {:induction false} ShowsOnlyChunks(all: seq<Message>, ms: seq<Message>, sel: Option<U32>, showEmpty: bool, x: ShowItem)
    requires Covers(all, ms) && x in ShowOf(all, ms, sel, showEmpty) && x.ShowChunk?
    ensures exists m :: m in ms && ShownAs(all, m, x, sel)
  {
    hide TasksOf, Latest, WithNewline, ContentOf;
    var before, m := ms[..|ms| - 1], ms[|ms| - 1];
    assert m in ms;
    if x in ShowOf(all, before, sel, showEmpty) {
      ShowsOnlyChunks(all, before, sel, showEmpty, x);
      var y :| y in before && ShownAs(all, y, x, sel);
      assert y in ms;
    } else {
      CompletedLine(m.data);
      assert ShownAs(all, m, x, sel);
    }
  }

  /** The message is data that is shown for the task. */
  predicate ContentFor(all: seq<Message>, m: Message, sel: Option<U32>, t: TaskId)
    requires t in TasksOf(all)
  {
    m.Data? && m.task == t && m.inst == Latest(all, t) && (sel.None? || sel.value == m.channel)
  }

  /** The End at position `k` is announced for the task. */
  predicate AnnouncedAt(all: seq<Message>, ms: seq<Message>, sel: Option<U32>, showEmpty: bool, t: TaskId, k: nat)
    requires t in TasksOf(all)
  {
    && k < |ms| && ms[k] == End(t, Latest(all, t))
    && (showEmpty || exists p :: 0 <= p < k && ContentFor(all, ms[p], sel, t))
  }

  /**
   * A task is announced as closed if and only if its newest execution is, and something of it was shown
   * before or empty streams are to be shown.
   */
  lemma {:induction false} ShowCloses(all: seq<Message>, ms: seq<Message>, sel: Option<U32>, showEmpty: bool, t: TaskId)
    requires Covers(all, ms) && t in TasksOf(all)
    ensures ShowClosed(t) in ShowOf(all, ms, sel, showEmpty) <==> exists k: nat :: AnnouncedAt(all, ms, sel, showEmpty, t, k)
  {
    hide ItemsFor, TasksOf, Latest, ContentFor;
    if ms != [] {
      var n := |ms| - 1;
      var before, m := ms[..n], ms[n];
      assert m in ms;
      ShowCloses(all, before, sel, showEmpty, t);
      ClosingItem(all, before, m, sel, showEmpty, t);
      forall k: nat | k < n ensures AnnouncedAt(all, ms, sel, showEmpty, t, k) == AnnouncedAt(all, before, sel, showEmpty, t, k) {
        assert forall p :: 0 <= p < k ==> ms[p] == before[p];
      }
      assert forall p :: 0 <= p < n ==> ms[p] == before[p];
      assert AnnouncedAt(all, ms, sel, showEmpty, t, n) <==> ShowClosed(t) in ItemsFor(all, before, m, sel, showEmpty);
    }
  }

  lemma ClosingItem(all: seq<Message>, before: seq<Message>, m: Message, sel: Option<U32>, showEmpty: bool, t: TaskId)
    requires Covers(all, before) && m.task in TasksOf(all) && t in TasksOf(all)
    ensures ShowClosed(t) in ItemsFor(all, before, m, sel, showEmpty) <==>
            m == End(t, Latest(all, t)) && (showEmpty || exists p :: 0 <= p < |before| && ContentFor(all, before[p], sel, t))
  {
    hide TasksOf, Latest, WithNewline;
    if t in ContentOf(all, before, sel) {
      var x :| x in before && ShowsData(all, x, sel) && x.task == t;
      var p :| 0 <= p < |before| && before[p] == x;
      assert ContentFor(all, before[p], sel, t);
    }
    if exists p :: 0 <= p < |before| && ContentFor(all, before[p], sel, t) {
      var p :| 0 <= p < |before| && ContentFor(all, before[p], sel, t);
      assert before[p] in before && ShowsData(all, before[p], sel);
    }
  }

  /**
   * The two readers agree. For every task and channel `show` selects, the text it prints is the chunks
   * `cat` prints for that task, in the same order, each followed by a newline exactly where it lacks
   * one; the two are the same bytes if and only if every chunk ends a line.
   */
  lemma ShowAgreesWithCat(ms: seq<Message>, sel: Option<U32>, showEmpty: bool, t: TaskId, c: U32)
    requires Accepts(ms) && t in TasksOf(ms) && (sel.None? || sel.value == c)
    ensures Covers(ms, ms)
    ensures
      var text := TextOf(ShowOf(ms, ms, sel, showEmpty), t, c);
      var cat := CatOf(ms, [t], c);
      && text == LinesOf(ms, t, Latest(ms, t), c)
      && |text| == |cat| + UnendedLines(ms, t, Latest(ms, t), c)
      && (text == cat <==> UnendedLines(ms, t, Latest(ms, t), c) == 0)
  {
    AcceptedIsCovered(ms);
    ShowText(ms, ms, sel, showEmpty, t, c);
    LinesLength(ms, t, Latest(ms, t), c);
    assert [t][..0] == [];
  }

  // ---- Reading a torn file -------------------------------------------------------------------

  /** A log is always readable, and reads back exactly, at a block boundary. */
  lemma ReadableLog(ms: seq<Message>)
    requires AllFit(ms)
    ensures HeaderOk(Log(ms))
    ensures Readable(Log(ms)) <==> Accepts(ms)
    ensures Accepts(ms) ==> MessagesIn(Log(ms)) == ms && AllWhole(Log(ms), EntriesIn(Log(ms)))
  {
    var file := Log(ms);
    assert file[..6] == MAGIC && file[6..10] == PutU32(VERSION);
    GetPutU32(VERSION);
    hide PutU32, GetU32, EncodeAll, Encode, BlockAt;
    LogRoundTrip(ms);
  }

  /** The log of `ms` followed by the first `j` bytes of the block of `m`. */
  function Torn(ms: seq<Message>, m: Message, j: nat): seq<Byte>
    requires j <= |Encode(m)|
  {
    Log(ms) + Encode(m)[..j]
  }

  /** Every way of cutting a log after its header is a torn log. */
  lemma {:induction false} CutIsTorn(ms: seq<Message>, k: nat) returns (n: nat, j: nat)
    requires HEADER_SIZE <= k < |Log(ms)|
    ensures n < |ms| && j < |Encode(ms[n])| && Log(ms)[..k] == Torn(ms[..n], ms[n], j)
  {
    hide Encode, PutU32;
    n := |ms| - 1;
    var init, m := ms[..n], ms[n];
    assert Log(ms) == Log(init) + Encode(m);
    if k < |Log(init)| {
      n, j := CutIsTorn(init, k);
      assert init[..n] == ms[..n];
    } else {
      j := k - |Log(init)|;
    }
  }

  lemma TornBlock(file: seq<Byte>, pos: nat, m: Message, j: nat)
    requires Fits(m) && j < |Encode(m)|
    requires pos + j == |file| && file[pos..] == Encode(m)[..j]
    ensures j == 0 ==> BlockAt(file, pos) == Eof
    ensures 0 < j && !(m.Data? && 17 <= j) ==> BlockAt(file, pos) == Invalid
    ensures m.Data? && 17 <= j ==>
              && BlockAt(file, pos) == Block(EntryOf(m, pos), pos + 17)
              && MessageOf(file, EntryOf(m, pos)) == m.(data := m.data[..j - 17])
  {
    hide PutU32, GetU32;
    var enc := Encode(m);
    assert forall k :: 0 <= k < j ==> file[pos + k] == enc[k] by {
      forall k | 0 <= k < j ensures file[pos + k] == enc[k] { assert file[pos..][k] == enc[..j][k]; }
    }
    if 0 < j { assert file[pos] == enc[0]; }
    if m.Data? && 17 <= j {
      assert file[pos + 1..pos + 5] == enc[1..5] == PutU32(m.task);
      assert file[pos + 5..pos + 9] == enc[5..9] == PutU32(m.inst);
      assert file[pos + 9..pos + 13] == enc[9..13] == PutU32(m.channel);
      assert file[pos + 13..pos + 17] == enc[13..17] == PutU32(|m.data|);
      GetPutU32(m.task);
      GetPutU32(m.inst);
      GetPutU32(m.channel);
      GetPutU32(|m.data|);
      assert file[pos + 17..] == enc[17..j] == m.data[..j - 17];
    }
  }

  /**
   * A log cut at an arbitrary byte opens if and only if the cut is a block boundary or lies in the
   * data of a chunk; then it holds the blocks before the cut and, in the second case, the part of
   * the chunk that made it into the file.
   */
  lemma TornLogIsReadable(ms: seq<Message>, m: Message, j: nat)
    requires AllFit(ms) && Accepts(ms) && Fits(m) && Admissible(ms, m)
    requires j < |Encode(m)|
    ensures Readable(Torn(ms, m, j)) <==> j == 0 || (m.Data? && 17 <= j)
    ensures j == 0 ==> MessagesIn(Torn(ms, m, j)) == ms
    ensures m.Data? && 17 <= j ==> MessagesIn(Torn(ms, m, j)) == ms + [m.(data := m.data[..j - 17])]
  {
    hide Encode, EncodeAll, BlockAt, PutU32, GetU32, Header, Accepts, EntriesOf;
    var file := Torn(ms, m, j);
    var pos := |Log(ms)|;
    var es := EntriesOf(ms, HEADER_SIZE);
    ReadableLog(ms);
    assert HeaderOk(file) by { assert file[..6] == Log(ms)[..6] && file[6..10] == Log(ms)[6..10]; }
    TornScan(ms, m, j);
    if j == 0 {
      assert Decode(file, es) == ms;
    } else if m.Data? && 17 <= j {
      var cut := m.(data := m.data[..j - 17]);
      AcceptsSnoc(ms, cut);
      assert Admissible(ms, cut);
      assert Decode(file, es + [EntryOf(m, pos)]) == ms + [cut];
    }
  }

  lemma TornScan(ms: seq<Message>, m: Message, j: nat)
    requires AllFit(ms) && Fits(m) && j < |Encode(m)|
    ensures
      var file, pos, es := Torn(ms, m, j), |Log(ms)|, EntriesOf(ms, HEADER_SIZE);
      && Decode(file, es) == ms
      && (j == 0 ==> Scan(file, HEADER_SIZE) == Some(es))
      && (0 < j && !(m.Data? && 17 <= j) ==> Scan(file, HEADER_SIZE).None?)
      && (m.Data? && 17 <= j ==>
            && Scan(file, HEADER_SIZE) == Some(es + [EntryOf(m, pos)])
            && MessageOf(file, EntryOf(m, pos)) == m.(data := m.data[..j - 17]))
  {
    hide Encode, EncodeAll, BlockAt, PutU32, GetU32, Header, EntriesOf;
    var file, pos, es := Torn(ms, m, j), |Log(ms)|, EntriesOf(ms, HEADER_SIZE);
    assert file[pos..] == Encode(m)[..j];
    assert file[HEADER_SIZE..pos] == EncodeAll(ms);
    ScanBlocks(file, HEADER_SIZE, ms);
    TornBlock(file, pos, m, j);
    assert es + [] == es;
    if m.Data? && 17 <= j {
      var e := EntryOf(m, pos);
      assert Scan(file, After(e, pos + 17)) == Some([]);
      assert [e] + [] == [e];
    }
  }

  // ---- Cutting a log anywhere ----------------------------------------------------------------

  /** The part of a block that has to be in the file for the block to be read; only data may be missing. */
  function HeadSize(m: Message): nat { if m.Data? then 17 else 9 }

  /** How many blocks are read from the first `cut` bytes of the log. */
  function BlocksIn(ms: seq<Message>, cut: nat): (n: nat)
    ensures n <= |ms|
  {
    if ms == [] then 0
    else
      var init, m := ms[..|ms| - 1], ms[|ms| - 1];
      if |Log(init)| + HeadSize(m) <= cut then |ms| else BlocksIn(init, cut)
  }

  /** The cut is a block boundary or lies in the data of a chunk, not in the fixed part of a block. */
  predicate CleanCut(ms: seq<Message>, cut: nat) { cut <= |Log(ms[..BlocksIn(ms, cut)])| }

  /** The last chunk may have lost some of its data. */
  predicate ClippedTo(seen: seq<Message>, ms: seq<Message>)
  {
    && |seen| == |ms|
    && (forall k :: 0 <= k < |ms| - 1 ==> seen[k] == ms[k])
    && (ms != [] ==>
          var m, x := ms[|ms| - 1], seen[|ms| - 1];
          if m.Data? then x.Data? && x == m.(data := x.data) && x.data <= m.data else x == m)
  }

  lemma LogGrows(ms: seq<Message>)
    requires ms != []
    ensures Log(ms) == Log(ms[..|ms| - 1]) + Encode(ms[|ms| - 1])
  {
    hide Encode, Header;
    var init, m := ms[..|ms| - 1], ms[|ms| - 1];
    assert Header() + (EncodeAll(init) + Encode(m)) == Header() + EncodeAll(init) + Encode(m);
  }

  lemma {:induction false} AllBlocks(ms: seq<Message>, cut: nat)
    requires |Log(ms)| <= cut
    ensures BlocksIn(ms, cut) == |ms|
  {
    hide Encode, Log;
    if ms != [] { LogGrows(ms); }
  }

  /**
   * The first `cut` bytes of any log open if and only if the cut is clean and the blocks it leaves are
   * acceptable; then these blocks are what is read, the last one possibly clipped.
   */
  lemma {:induction false} CutIsReadable(ms: seq<Message>, cut: nat)
    requires AllFit(ms) && HEADER_SIZE <= cut <= |Log(ms)|
    ensures Readable(Log(ms)[..cut]) <==> CleanCut(ms, cut) && Accepts(ms[..BlocksIn(ms, cut)])
    ensures Readable(Log(ms)[..cut]) ==>
              var seen := MessagesIn(Log(ms)[..cut]);
              ClippedTo(seen, ms[..BlocksIn(ms, cut)]) && |Log(seen)| == cut
  {
    hide Encode, Log, Accepts, Readable, MessagesIn;
    if cut == |Log(ms)| {
      AllBlocks(ms, cut);
      assert Log(ms)[..cut] == Log(ms) && ms[..|ms|] == ms;
      ReadableLog(ms);
    } else {
      assert ms != [] by { if ms == [] { EmptyLogSize(); } }
      LogGrows(ms);
      var init, m := ms[..|ms| - 1], ms[|ms| - 1];
      if cut <= |Log(init)| {
        assert Log(ms)[..cut] == Log(init)[..cut];
        CutIsReadable(init, cut);
        assert init[..BlocksIn(init, cut)] == ms[..BlocksIn(ms, cut)];
      } else {
        CutInBlock(ms, cut);
      }
    }
  }

  lemma EmptyLogSize()
    ensures |Log([])| == HEADER_SIZE
  {
  }

  lemma CutInBlock(ms: seq<Message>, cut: nat)
    requires AllFit(ms) && ms != [] && |Log(ms[..|ms| - 1])| < cut < |Log(ms)|
    ensures Readable(Log(ms)[..cut]) <==> CleanCut(ms, cut) && Accepts(ms[..BlocksIn(ms, cut)])
    ensures Readable(Log(ms)[..cut]) ==>
              var seen := MessagesIn(Log(ms)[..cut]);
              ClippedTo(seen, ms[..BlocksIn(ms, cut)]) && |Log(seen)| == cut
  {
    hide Encode, Log, Accepts, Scan;
    LogGrows(ms);
    var init, m := ms[..|ms| - 1], ms[|ms| - 1];
    var j := cut - |Log(init)|;
    var file := Torn(init, m, j);
    assert Log(ms)[..cut] == file;
    TornScan(init, m, j);
    AllBlocks(init, cut);
    TornHeader(init, m, j);
    if m.Data? && 17 <= j {
      var clip := m.(data := m.data[..j - 17]);
      var es, e := EntriesOf(init, HEADER_SIZE), EntryOf(m, |Log(init)|);
      assert Decode(file, es + [e]) == Decode(file, es) + [clip];
      AcceptsSnoc(init, clip);
      AcceptsSnoc(init, m);
      ClippedSize(init, m, j - 17);
      assert ms == init + [m] && ms[..|ms|] == ms;
    } else {
      assert init[..|init|] == init;
    }
  }

  lemma ClippedSize(ms: seq<Message>, m: Message, n: nat)
    requires m.Data? && n <= |m.data|
    ensures |Log(ms + [m.(data := m.data[..n])])| == |Log(ms)| + 17 + n
  {
    hide Log;
    var all := ms + [m.(data := m.data[..n])];
    LogGrows(all);
    assert all[..|ms|] == ms;
  }

  lemma TornHeader(ms: seq<Message>, m: Message, j: nat)
    requires AllFit(ms) && j <= |Encode(m)|
    ensures HeaderOk(Torn(ms, m, j))
  {
    hide Encode, EncodeAll, PutU32, GetU32, Header, Accepts, Readable;
    ReadableLog(ms);
    var file := Torn(ms, m, j);
    assert file[..6] == Log(ms)[..6] && file[6..10] == Log(ms)[6..10];
  }

  // ---- What is certain to leave the buffer ---------------------------------------------------

  /** The messages up to the last End. */
  function ClosedPart(ms: seq<Message>): (r: seq<Message>)
    ensures r <= ms && (r == [] || r[|r| - 1].End?)
    ensures forall k :: |r| <= k < |ms| ==> !ms[k].End?
  {
    if ms == [] || ms[|ms| - 1].End? then ms
    else
      var r := ClosedPart(ms[..|ms| - 1]);
      assert ms[..|ms| - 1][..|r|] == ms[..|r|];
      r
  }

  predicate EndsClosed(ms: seq<Message>) { ms == [] || ms[|ms| - 1].End? }

  /**
   * The writer flushes at every End and nowhere else for certain, so it may stop with anything from
   * the closed part on in the file. That is the whole log, whatever the buffer does, if and only if
   * nothing follows the last End.
   */
  lemma ClosedPartIsAll(ms: seq<Message>)
    ensures |Log(ClosedPart(ms))| <= |Log(ms)|
    ensures |Log(ClosedPart(ms))| == |Log(ms)| <==> EndsClosed(ms)
  {
    hide Encode, Log;
    if !EndsClosed(ms) {
      LogGrows(ms);
      ClosedPartIsAll(ms[..|ms| - 1]);
    }
  }
}
