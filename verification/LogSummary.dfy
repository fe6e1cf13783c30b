/**
 * The figures of `hq log summary`, and the conservation laws that tie them to the log: every byte
 * of a channel is counted once, as current or as superseded, and so is every stream.
 */
module LogSummary {
  import opened Bytes
  import opened LogFormat
  import opened LogIndex
  import opened LogSpec

  function SizeOf(chunks: seq<ChunkInfo>): nat
  {
    if chunks == [] then 0 else SizeOf(chunks[..|chunks| - 1]) + chunks[|chunks| - 1].size
  }

  function SizeOn(info: InstanceInfo, c: U32): nat
  {
    if c < |info.channels| then SizeOf(info.channels[c]) else 0
  }

  function InfosSize(infos: TaskInfo, c: U32): nat
  {
    if infos == [] then 0 else InfosSize(infos[..|infos| - 1], c) + SizeOn(infos[|infos| - 1], c)
  }

  predicate Indexed(index: Index, ts: seq<TaskId>)
  {
    forall t :: t in ts ==> t in index && index[t] != []
  }

  /** Bytes of the newest executions of the tasks `ts`. */
  function CurrentSize(index: Index, ts: seq<TaskId>, c: U32): nat
    requires Indexed(index, ts)
  {
    if ts == [] then 0
    else
      var infos := index[ts[|ts| - 1]];
      CurrentSize(index, ts[..|ts| - 1], c) + SizeOn(infos[|infos| - 1], c)
  }

  /** Bytes of all older executions of the tasks `ts`. */
  function SupersededSize(index: Index, ts: seq<TaskId>, c: U32): nat
    requires Indexed(index, ts)
  {
    if ts == [] then 0
    else
      var infos := index[ts[|ts| - 1]];
      SupersededSize(index, ts[..|ts| - 1], c) + InfosSize(infos[..|infos| - 1], c)
  }

  function StreamCount(index: Index, ts: seq<TaskId>): nat
    requires Indexed(index, ts)
  {
    if ts == [] then 0 else StreamCount(index, ts[..|ts| - 1]) + |index[ts[|ts| - 1]]|
  }

  function OpenCount(index: Index, ts: seq<TaskId>): nat
    requires Indexed(index, ts)
  {
    if ts == [] then 0
    else
      var infos := index[ts[|ts| - 1]];
      OpenCount(index, ts[..|ts| - 1]) + if infos[|infos| - 1].finished then 0 else 1
  }

  // ---- What the log itself holds -------------------------------------------------------------

  /** All bytes announced on a channel, by whatever task and instance. */
  function ChannelBytes(es: seq<Entry>, c: U32): nat
  {
    if es == [] then 0
    else
      var e := es[|es| - 1];
      ChannelBytes(es[..|es| - 1], c) + if e.ChunkAt? && e.channel == c then e.size else 0
  }

  function StartCount(ms: seq<Message>): nat
  {
    if ms == [] then 0 else StartCount(ms[..|ms| - 1]) + if ms[|ms| - 1].Start? then 1 else 0
  }

  // ---- Every stream is listed once -----------------------------------------------------------

  function TaskStreams(t: TaskId, infos: TaskInfo): (ps: seq<Stream>)
    ensures |ps| == |infos|
  {
    seq(|infos|, k requires 0 <= k < |infos| => (t, infos[k].id))
  }

  function Streams(index: Index, ts: seq<TaskId>): (ps: seq<Stream>)
    requires Indexed(index, ts)
    ensures |ps| == StreamCount(index, ts)
  {
    if ts == [] then []
    else
      var t := ts[|ts| - 1];
      Streams(index, ts[..|ts| - 1]) + TaskStreams(t, index[t])
  }

  lemma TaskStreamsMember(t: TaskId, infos: TaskInfo, p: Stream)
    ensures p in TaskStreams(t, infos) <==> p.0 == t && HasId(infos, p.1)
  {
    var ps := TaskStreams(t, infos);
    if p in ps {
      var k :| 0 <= k < |ps| && ps[k] == p;
      assert infos[k].id == p.1;
    }
    if p.0 == t && HasId(infos, p.1) {
      var k :| 0 <= k < |infos| && infos[k].id == p.1;
      assert ps[k] == p;
    }
  }

  lemma {:induction false} StreamsAreDistinct(index: Index, ts: seq<TaskId>)
    requires Indexed(index, ts) && Distinct(ts)
    requires forall t :: t in ts ==> Increasing(index[t])
    ensures forall p :: p in Streams(index, ts) <==> p.0 in ts && HasId(index[p.0], p.1)
    ensures Distinct(Streams(index, ts))
  {
    if ts != [] {
      var n := |ts| - 1;
      var init, t := ts[..n], ts[n];
      StreamsAreDistinct(index, init);
      var a, b := Streams(index, init), TaskStreams(t, index[t]);
      forall p ensures p in b <==> p.0 == t && HasId(index[t], p.1) { TaskStreamsMember(t, index[t], p); }
      assert t !in init;
      assert ts == init + [t];
      assert Streams(index, ts) == a + b;
      hide HasId, Streams;
      forall i, j | 0 <= i < j < |a + b| ensures (a + b)[i] != (a + b)[j] {
        if i < |a| <= j { assert a[i] in a && b[j - |a|] in b; }
      }
    }
  }

  // ---- Conservation of bytes -----------------------------------------------------------------

  function StreamsSize(es: seq<Entry>, ps: seq<Stream>, c: U32): nat
  {
    if ps == [] then 0
    else
      var p := ps[|ps| - 1];
      StreamsSize(es, ps[..|ps| - 1], c) + SizeOf(ChunksOf(es, p.0, p.1, c))
  }

  lemma {:induction false} StreamsSizeAppend(es: seq<Entry>, a: seq<Stream>, b: seq<Stream>, c: U32)
    ensures StreamsSize(es, a + b, c) == StreamsSize(es, a, c) + StreamsSize(es, b, c)
  {
    if b == [] {
      assert a + b == a;
    } else {
      StreamsSizeAppend(es, a, b[..|b| - 1], c);
      assert (a + b)[..|a + b| - 1] == a + b[..|b| - 1];
    }
  }

  /** A chunk adds its size to its own stream and to no other. */
  lemma {:induction false} ChunkAddsOnce(es: seq<Entry>, e: Entry, ps: seq<Stream>, c: U32)
    requires Distinct(ps)
    ensures StreamsSize(es + [e], ps, c) == StreamsSize(es, ps, c)
            + if e.ChunkAt? && e.channel == c && (e.task, e.inst) in ps then e.size else 0
  {
    hide ChunksOf, SizeOf, Distinct;
    if ps != [] {
      var init, p := ps[..|ps| - 1], ps[|ps| - 1];
      DistinctSnoc(ps);
      ChunkAddsOnce(es, e, init, c);
      ChunkAddsSize(es, e, p, c);
      assert ps == init + [p];
    }
  }

  lemma ChunkAddsSize(es: seq<Entry>, e: Entry, p: Stream, c: U32)
    ensures SizeOf(ChunksOf(es + [e], p.0, p.1, c)) == SizeOf(ChunksOf(es, p.0, p.1, c))
            + if e.ChunkAt? && e.channel == c && (e.task, e.inst) == p then e.size else 0
  {
    hide ChunksOf;
    ChunksSnoc(es, e, p.0, p.1, c);
    var chunks, before := ChunksOf(es + [e], p.0, p.1, c), ChunksOf(es, p.0, p.1, c);
    if e.ChunkAt? && e.channel == c && (e.task, e.inst) == p {
      assert chunks[..|chunks| - 1] == before;
    } else {
      assert chunks == before;
    }
  }

  lemma {:induction false} StreamsHoldAllBytes(es: seq<Entry>, ps: seq<Stream>, c: U32)
    requires Distinct(ps)
    requires forall k :: 0 <= k < |es| && es[k].ChunkAt? ==> (es[k].task, es[k].inst) in ps
    ensures StreamsSize(es, ps, c) == ChannelBytes(es, c)
  {
    hide ChunksOf, SizeOf, Distinct, StreamsSize;
    if es == [] {
      EmptyStreams(ps, c);
    } else {
      var n := |es| - 1;
      StreamsHoldAllBytes(es[..n], ps, c);
      ChunkAddsOnce(es[..n], es[n], ps, c);
      assert es == es[..n] + [es[n]];
    }
  }

  lemma {:induction false} EmptyStreams(ps: seq<Stream>, c: U32)
    ensures StreamsSize([], ps, c) == 0
  {
    if ps != [] { EmptyStreams(ps[..|ps| - 1], c); }
  }

  lemma {:induction false} TaskSize(infos: TaskInfo, ms: seq<Message>, es: seq<Entry>, t: TaskId, c: U32)
    requires c < 2
    requires forall k :: 0 <= k < |infos| ==> infos[k] == InfoOf(ms, es, t, infos[k].id)
    ensures InfosSize(infos, c) == StreamsSize(es, TaskStreams(t, infos), c)
  {
    if infos != [] {
      var init := infos[..|infos| - 1];
      TaskSize(init, ms, es, t, c);
      assert TaskStreams(t, infos)[..|infos| - 1] == TaskStreams(t, init);
    }
  }

  lemma {:induction false} CurrentPlusSuperseded(index: Index, ms: seq<Message>, es: seq<Entry>, ts: seq<TaskId>, c: U32)
    requires c < 2 && Describes(index, ms, es) && Indexed(index, ts)
    ensures CurrentSize(index, ts, c) + SupersededSize(index, ts, c) == StreamsSize(es, Streams(index, ts), c)
  {
    hide HasId, InstancesOf, TasksOf, ChunksOf, SizeOn, TaskStreams;
    if ts != [] {
      hide StreamsSize;
      var init, t := ts[..|ts| - 1], ts[|ts| - 1];
      CurrentPlusSuperseded(index, ms, es, init, c);
      assert t in ts;
      TaskSize(index[t], ms, es, t, c);
      StreamsSizeAppend(es, Streams(index, init), TaskStreams(t, index[t]), c);
    }
  }

  lemma IndexIsIndexed(index: Index, ms: seq<Message>, es: seq<Entry>)
    requires Describes(index, ms, es)
    ensures Indexed(index, Ascending(index.Keys)) && Distinct(Ascending(index.Keys))
    ensures Ascending(index.Keys) == Ascending(TasksOf(ms))
    ensures forall t :: t in index ==> Increasing(index[t])
  {
    AscendingIsSorted(index.Keys);
    forall t | t in Ascending(index.Keys) ensures t in index && index[t] != [] {
      LastInstanceIsLatest(index, ms, es, t);
    }
  }

  /** Current plus superseded size of a channel is everything ever written on that channel. */
  lemma BytesAreConserved(index: Index, ms: seq<Message>, es: seq<Entry>, c: U32)
    requires |ms| == |es| && forall k :: 0 <= k < |ms| ==> SameBlock(ms[k], es[k])
    requires c < 2 && Accepts(ms) && Describes(index, ms, es)
    ensures Indexed(index, Ascending(index.Keys))
    ensures CurrentSize(index, Ascending(index.Keys), c) + SupersededSize(index, Ascending(index.Keys), c)
         == ChannelBytes(es, c)
  {
    var ts := Ascending(index.Keys);
    IndexIsIndexed(index, ms, es);
    CurrentPlusSuperseded(index, ms, es, ts, c);
    StreamsAreDistinct(index, ts);
    forall k | 0 <= k < |es| && es[k].ChunkAt? ensures (es[k].task, es[k].inst) in Streams(index, ts) {
      assert Admissible(ms[..k], ms[k]);
      assert Start(es[k].task, es[k].inst) in ms;
      KnownIffStarted(index, ms, es, es[k].task, es[k].inst);
    }
    StreamsHoldAllBytes(es, Streams(index, ts), c);
  }

  /** The current size is the number of bytes `cat` prints for the whole log. */
  lemma {:induction false} CurrentSizeIsCatSize(file: seq<Byte>, index: Index, es: seq<Entry>, ts: seq<TaskId>, c: U32)
    requires c < 2 && AllWhole(file, es) && Describes(index, Decode(file, es), es)
    requires Indexed(index, ts)
    ensures AllKnown(Decode(file, es), ts)
    ensures CurrentSize(index, ts, c) == |CatOf(Decode(file, es), ts, c)|
  {
    hide HasId, InstancesOf, ChunksOf, SizeOf, Bodies, DataOf, ChunksWhole, AllWhole, DescribesTask;
    var ms := Decode(file, es);
    if ts != [] {
      var init, t := ts[..|ts| - 1], ts[|ts| - 1];
      CurrentSizeIsCatSize(file, index, es, init, c);
      assert t in ts;
      assert ts == init + [t];
      LastInstanceIsLatest(index, ms, es, t);
      var i := Latest(ms, t);
      ChunksAreWhole(file, es, t, i, c);
      BodiesSize(file, ChunksOf(es, t, i, c));
      BodiesAreData(file, es, t, i, c);
    }
  }

  lemma {:induction false} BodiesSize(file: seq<Byte>, chunks: seq<ChunkInfo>)
    requires ChunksWhole(file, chunks)
    ensures SizeOf(chunks) == |Bodies(file, chunks)|
  {
    if chunks != [] { BodiesSize(file, chunks[..|chunks| - 1]); }
  }

  // ---- Conservation of streams ---------------------------------------------------------------

  function StartsIn(ms: seq<Message>): set<Stream>
  {
    set m | m in ms && m.Start? :: (m.task, m.inst)
  }

  lemma {:induction false} StartsAreCounted(ms: seq<Message>)
    requires Accepts(ms)
    ensures |StartsIn(ms)| == StartCount(ms)
  {
    if ms != [] {
      var n := |ms| - 1;
      var m := ms[n];
      assert ms == ms[..n] + [m];
      AcceptsSnoc(ms[..n], m);
      StartsAreCounted(ms[..n]);
      if m.Start? {
        assert StartsIn(ms) == StartsIn(ms[..n]) + {(m.task, m.inst)} by {
          assert m in ms;
          assert forall x :: x in ms <==> x in ms[..n] || x == m;
        }
        assert (m.task, m.inst) !in StartsIn(ms[..n]);
      } else {
        assert StartsIn(ms) == StartsIn(ms[..n]);
      }
    }
  }

  lemma {:induction false} DistinctCardinality(ps: seq<Stream>)
    requires Distinct(ps)
    ensures |set p | p in ps| == |ps|
  {
    if ps != [] {
      var init, p := ps[..|ps| - 1], ps[|ps| - 1];
      DistinctCardinality(init);
      assert (set q | q in ps) == (set q | q in init) + {p};
    }
  }

  /** The streams counted are the Start blocks of the log, so the superseded ones are starts minus tasks. */
  lemma StreamsAreConserved(index: Index, ms: seq<Message>, es: seq<Entry>)
    requires Accepts(ms) && Describes(index, ms, es)
    ensures Indexed(index, Ascending(index.Keys))
    ensures StreamCount(index, Ascending(index.Keys)) == StartCount(ms)
    ensures |index| == |TasksOf(ms)| <= StartCount(ms)
  {
    hide StreamCount, StartCount, Distinct, Describes, Accepts, HasId, Increasing, StartsIn;
    var ts := Ascending(index.Keys);
    IndexIsIndexed(index, ms, es);
    StreamsAreDistinct(index, ts);
    var ps := Streams(index, ts);
    DistinctCardinality(ps);
    StartsAreCounted(ms);
    StreamsAreStarts(index, ms, es, ts, ps);
    AtLeastOneEach(index, ts);
    hide TasksOf;
    assert |index| == |index.Keys|;
  }

  lemma StreamsAreStarts(index: Index, ms: seq<Message>, es: seq<Entry>, ts: seq<TaskId>, ps: seq<Stream>)
    requires Describes(index, ms, es) && forall t :: t in ts <==> t in index
    requires forall p :: p in ps <==> p.0 in ts && HasId(index[p.0], p.1)
    ensures (set p | p in ps) == StartsIn(ms)
  {
    hide Describes, HasId;
    forall p: Stream ensures p in ps <==> p in StartsIn(ms) {
      KnownIffStarted(index, ms, es, p.0, p.1);
      assert p in StartsIn(ms) <==> Start(p.0, p.1) in ms;
    }
  }

  lemma {:induction false} AtLeastOneEach(index: Index, ts: seq<TaskId>)
    requires Indexed(index, ts)
    ensures |ts| <= StreamCount(index, ts)
  {
    if ts != [] {
      assert ts[|ts| - 1] in ts;
      AtLeastOneEach(index, ts[..|ts| - 1]);
    }
  }

  /** The open streams counted are the tasks whose newest execution has not been closed. */
  lemma {:induction false} OpenTasks(index: Index, ms: seq<Message>, es: seq<Entry>, ts: seq<TaskId>)
    requires Describes(index, ms, es) && Indexed(index, ts) && Distinct(ts) && AllKnown(ms, ts)
    ensures OpenCount(index, ts) == |set t | t in ts && !Finished(ms, t, Latest(ms, t))|
  {
    hide Describes, Finished, Latest, TasksOf, InstancesOf, Distinct, ChunksOf;
    if ts != [] {
      var init, t := ts[..|ts| - 1], ts[|ts| - 1];
      assert Distinct(init) && t !in init by { DistinctSnoc(ts); }
      assert AllKnown(ms, init) && Indexed(index, init);
      OpenTasks(index, ms, es, init);
      assert t in ts;
      LastInstanceIsLatest(index, ms, es, t);
      OpenSnoc(ms, ts);
    }
  }

  lemma DistinctSnoc<T>(s: seq<T>)
    requires s != [] && Distinct(s)
    ensures Distinct(s[..|s| - 1]) && s[|s| - 1] !in s[..|s| - 1]
  {
  }

  lemma OpenSnoc(ms: seq<Message>, ts: seq<TaskId>)
    requires ts != [] && AllKnown(ms, ts) && AllKnown(ms, ts[..|ts| - 1]) && ts[|ts| - 1] !in ts[..|ts| - 1]
    ensures
      var init, t := ts[..|ts| - 1], ts[|ts| - 1];
      && t in ts
      && |set u | u in ts && !Finished(ms, u, Latest(ms, u))|
         == |set u | u in init && !Finished(ms, u, Latest(ms, u))| + if Finished(ms, t, Latest(ms, t)) then 0 else 1
  {
    hide Finished, Latest, TasksOf;
    var init, t := ts[..|ts| - 1], ts[|ts| - 1];
    assert ts == init + [t];
    var a := set u | u in init && !Finished(ms, u, Latest(ms, u));
    assert (set u | u in ts && !Finished(ms, u, Latest(ms, u))) == a + if Finished(ms, t, Latest(ms, t)) then {} else {t};
  }
}
