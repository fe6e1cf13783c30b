/**
 * The two-level index of a log (task, then instances in increasing order, then channel), stated
 * against the plain sequence of messages the log holds.
 */
module LogIndex {
  import opened Bytes
  import opened LogFormat

  datatype ChunkInfo = ChunkInfo(position: nat, size: U32)

  datatype InstanceInfo = InstanceInfo(id: InstanceId, channels: seq<seq<ChunkInfo>>, finished: bool)

  type TaskInfo = seq<InstanceInfo>

  type Index = map<TaskId, TaskInfo>

  // ---- What a sequence of messages means -----------------------------------------------------

  /** `make_index` lets `m` follow `before`. */
  predicate Admissible(before: seq<Message>, m: Message)
  {
    match m
    case Start(t, i) => Start(t, i) !in before
    case Data(t, i, c, _) => c < 2 && Start(t, i) in before
    case End(t, i) => Start(t, i) in before
  }

  predicate Accepts(ms: seq<Message>)
  {
    forall k :: 0 <= k < |ms| ==> Admissible(ms[..k], ms[k])
  }

  function TasksOf(ms: seq<Message>): set<TaskId>
  {
    set m | m in ms && m.Start? :: m.task
  }

  function InstancesOf(ms: seq<Message>, t: TaskId): set<InstanceId>
  {
    set m | m in ms && m.Start? && m.task == t :: m.inst
  }

  /** The newest execution of a task: instance ids grow with every new execution. */
  function Latest(ms: seq<Message>, t: TaskId): (i: InstanceId)
    requires t in TasksOf(ms)
    ensures i in InstancesOf(ms, t) && forall j :: j in InstancesOf(ms, t) ==> j <= i
  {
    TaskHasInstance(ms, t);
    Max(InstancesOf(ms, t))
  }

  lemma TaskHasInstance(ms: seq<Message>, t: TaskId)
    requires t in TasksOf(ms)
    ensures InstancesOf(ms, t) != {}
  {
    var m :| m in ms && m.Start? && m.task == t;
    assert m.inst in InstancesOf(ms, t);
  }

  predicate Finished(ms: seq<Message>, t: TaskId, i: InstanceId)
  {
    End(t, i) in ms
  }

  predicate IsData(m: Message, t: TaskId, i: InstanceId, c: U32)
  {
    m.Data? && m.task == t && m.inst == i && m.channel == c
  }

  /** Everything the instance wrote on the channel, in arrival order. */
  function DataOf(ms: seq<Message>, t: TaskId, i: InstanceId, c: U32): seq<Byte>
  {
    if ms == [] then []
    else
      var m := ms[|ms| - 1];
      DataOf(ms[..|ms| - 1], t, i, c) + if IsData(m, t, i, c) then m.data else []
  }

  // ---- The index -----------------------------------------------------------------------------

  function ChunksOf(es: seq<Entry>, t: TaskId, i: InstanceId, c: U32): seq<ChunkInfo>
  {
    if es == [] then []
    else
      var e := es[|es| - 1];
      ChunksOf(es[..|es| - 1], t, i, c)
      + if e.ChunkAt? && e.task == t && e.inst == i && e.channel == c then [ChunkInfo(e.pos, e.size)] else []
  }

  function InfoOf(ms: seq<Message>, es: seq<Entry>, t: TaskId, i: InstanceId): InstanceInfo
  {
    InstanceInfo(i, [ChunksOf(es, t, i, 0), ChunksOf(es, t, i, 1)], Finished(ms, t, i))
  }

  predicate Increasing(infos: TaskInfo)
  {
    forall j, k :: 0 <= j < k < |infos| ==> infos[j].id < infos[k].id
  }

  predicate HasId(infos: TaskInfo, i: InstanceId)
  {
    exists k :: 0 <= k < |infos| && infos[k].id == i
  }

  predicate DescribesTask(infos: TaskInfo, ms: seq<Message>, es: seq<Entry>, t: TaskId)
  {
    && Increasing(infos)
    && (forall k :: 0 <= k < |infos| ==> infos[k] == InfoOf(ms, es, t, infos[k].id))
    && (forall i :: HasId(infos, i) <==> i in InstancesOf(ms, t))
  }

  /** The index is exactly the one the messages `ms`, found as the entries `es`, call for. */
  predicate Describes(index: Index, ms: seq<Message>, es: seq<Entry>)
  {
    && index.Keys == TasksOf(ms)
    && forall t :: t in index ==> DescribesTask(index[t], ms, es, t)
  }

  // ---- Operations on one task's instances ----------------------------------------------------

  /** `instance` / `instance_mut`: the first instance with the given id. */
  function Find(infos: TaskInfo, id: InstanceId): (r: Option<nat>)
    ensures r.Some? <==> HasId(infos, id)
    ensures r.Some? ==> r.value < |infos| && infos[r.value].id == id
  {
    if infos == [] then None
    else if infos[0].id == id then Some(0)
    else
      var r := Find(infos[1..], id);
      assert HasId(infos, id) <==> HasId(infos[1..], id) by {
        if HasId(infos, id) {
          var k :| 0 <= k < |infos| && infos[k].id == id;
          assert infos[1..][k - 1].id == id;
        }
        if HasId(infos[1..], id) {
          var k :| 0 <= k < |infos[1..]| && infos[1..][k].id == id;
          assert infos[k + 1].id == id;
        }
      }
      if r.None? then None else Some(r.value + 1)
  }

  /** Where a binary search in an increasing list finds the id, or the place to insert it. */
  function Slot(infos: TaskInfo, id: InstanceId): (k: nat)
    requires Increasing(infos)
    ensures k <= |infos|
    ensures forall j :: 0 <= j < k ==> infos[j].id < id
    ensures forall j :: k <= j < |infos| ==> id <= infos[j].id
  {
    if infos == [] || id <= infos[0].id then 0 else 1 + Slot(infos[1..], id)
  }

  /** `new_instance`: keeps the list increasing and refuses an id that is already there. */
  function NewInstance(infos: TaskInfo, id: InstanceId): (r: Option<TaskInfo>)
    requires Increasing(infos)
    ensures r.None? <==> HasId(infos, id)
    ensures r.Some? ==> Increasing(r.value)
  {
    var k := Slot(infos, id);
    if k < |infos| && infos[k].id == id then None
    else Some(infos[..k] + [InstanceInfo(id, [[], []], false)] + infos[k..])
  }

  /**
   * `new_instance`, without saying where: an id already there is refused; otherwise exactly one open
   * instance without chunks is added to the others, which stay as they are, and the ids stay increasing.
   */
  lemma InstanceIsAdded(infos: TaskInfo, id: InstanceId)
    requires Increasing(infos)
    ensures NewInstance(infos, id).None? <==> HasId(infos, id)
    ensures NewInstance(infos, id).Some? ==>
              && Increasing(NewInstance(infos, id).value)
              && multiset(NewInstance(infos, id).value) == multiset(infos) + multiset{InstanceInfo(id, [[], []], false)}
  {
    hide Increasing, HasId;
    assert infos == infos[..Slot(infos, id)] + infos[Slot(infos, id)..];
  }

  function AddChunk(info: InstanceInfo, c: U32, chunk: ChunkInfo): InstanceInfo
    requires c < |info.channels|
  {
    info.(channels := info.channels[c := info.channels[c] + [chunk]])
  }

  // ---- Each message keeps the index described ------------------------------------------------

  lemma AcceptsSnoc(ms: seq<Message>, m: Message)
    ensures Accepts(ms + [m]) <==> Accepts(ms) && Admissible(ms, m)
  {
    var all := ms + [m];
    assert all[..|ms|] == ms;
    assert forall k :: 0 <= k < |ms| ==> all[..k] == ms[..k];
    if Accepts(all) {
      assert Admissible(all[..|ms|], all[|ms|]);
      forall k | 0 <= k < |ms| ensures Admissible(ms[..k], ms[k]) { assert Admissible(all[..k], all[k]); }
    }
  }

  /**
   * The logs that can be read, place by place: no execution starts twice, data comes on channel 0 or 1,
   * and data and the end come after the start.
   */
  lemma AcceptsMeans(ms: seq<Message>)
    ensures Accepts(ms) <==>
            forall k :: 0 <= k < |ms| ==>
              match ms[k]
              case Start(t, i) => forall j :: 0 <= j < k ==> ms[j] != Start(t, i)
              case Data(t, i, c, _) => (c == 0 || c == 1) && exists j :: 0 <= j < k && ms[j] == Start(t, i)
              case End(t, i) => exists j :: 0 <= j < k && ms[j] == Start(t, i)
  {
    forall k, m | 0 <= k < |ms| ensures m in ms[..k] <==> exists j :: 0 <= j < k && ms[j] == m {
      if j :| 0 <= j < k && ms[j] == m { assert ms[..k][j] == m; }
    }
  }

  /** Acceptance is prefix-closed: a log may be read at any block boundary. */
  lemma AcceptsPrefix(ms: seq<Message>, n: nat)
    requires Accepts(ms) && n <= |ms|
    ensures Accepts(ms[..n])
  {
    forall k | 0 <= k < n ensures Admissible(ms[..n][..k], ms[..n][k]) {
      assert ms[..n][..k] == ms[..k];
      assert Admissible(ms[..k], ms[k]);
    }
  }

  lemma InstancesSnoc(ms: seq<Message>, m: Message, t: TaskId)
    ensures InstancesOf(ms + [m], t) == InstancesOf(ms, t) + if m.Start? && m.task == t then {m.inst} else {}
    ensures TasksOf(ms + [m]) == TasksOf(ms) + if m.Start? then {m.task} else {}
  {
    assert forall x :: x in ms + [m] <==> x in ms || x == m;
    if m.Start? {
      assert m in ms + [m];
      assert m.task in TasksOf(ms + [m]);
      assert m.task == t ==> m.inst in InstancesOf(ms + [m], t);
    }
  }

  lemma ChunksSnoc(es: seq<Entry>, e: Entry, t: TaskId, i: InstanceId, c: U32)
    ensures ChunksOf(es + [e], t, i, c) == ChunksOf(es, t, i, c)
            + if e.ChunkAt? && e.task == t && e.inst == i && e.channel == c then [ChunkInfo(e.pos, e.size)] else []
  {
    assert (es + [e])[..|es|] == es;
  }

  /** The entry and the message are the same block. */
  predicate SameBlock(m: Message, e: Entry)
  {
    match e
    case StartAt(t, i) => m == Start(t, i)
    case ChunkAt(t, i, c, _, _) => IsData(m, t, i, c)
    case EndAt(t, i) => m == End(t, i)
  }

  /** Chunks of an instance exist only after its start. */
  lemma {:induction false} NoChunksBeforeStart(ms: seq<Message>, es: seq<Entry>, t: TaskId, i: InstanceId, c: U32)
    requires |ms| == |es| && forall k :: 0 <= k < |ms| ==> SameBlock(ms[k], es[k])
    requires Accepts(ms) && Start(t, i) !in ms
    ensures ChunksOf(es, t, i, c) == [] && !Finished(ms, t, i)
  {
    if ms != [] {
      var n := |ms| - 1;
      assert ms == ms[..n] + [ms[n]];
      AcceptsSnoc(ms[..n], ms[n]);
      NoChunksBeforeStart(ms[..n], es[..n], t, i, c);
      assert es == es[..n] + [es[n]];
      ChunksSnoc(es[..n], es[n], t, i, c);
    }
  }

  lemma InfoSnoc(ms: seq<Message>, es: seq<Entry>, m: Message, e: Entry, t: TaskId, i: InstanceId)
    requires SameBlock(m, e)
    ensures InfoOf(ms + [m], es + [e], t, i) ==
            (if m.task != t || m.inst != i || m.Start? then InfoOf(ms, es, t, i)
             else if m.End? then InfoOf(ms, es, t, i).(finished := true)
             else if m.channel < 2 then AddChunk(InfoOf(ms, es, t, i), m.channel, ChunkInfo(e.pos, e.size))
             else InfoOf(ms, es, t, i))
  {
    ChunksSnoc(es, e, t, i, 0);
    ChunksSnoc(es, e, t, i, 1);
    assert Finished(ms + [m], t, i) <==> Finished(ms, t, i) || m == End(t, i);
    var a, b := ChunksOf(es, t, i, 0), ChunksOf(es, t, i, 1);
    if m.Data? && m.task == t && m.inst == i && m.channel < 2 {
      var chunk := ChunkInfo(e.pos, e.size);
      assert [a, b][m.channel := [a, b][m.channel] + [chunk]]
          == if m.channel == 0 then [a + [chunk], b] else [a, b + [chunk]];
      assert a + [] == a && b + [] == b;
    } else {
      assert a + [] == a && b + [] == b;
    }
  }

  /** `entry(task).or_insert`: the instances known so far, none for a new task. */
  function InfosOf(index: Index, t: TaskId): TaskInfo { if t in index then index[t] else [] }

  lemma EntryDescribed(index: Index, ms: seq<Message>, es: seq<Entry>, t: TaskId)
    requires Describes(index, ms, es)
    ensures DescribesTask(InfosOf(index, t), ms, es, t)
  {
    if t !in index {
      forall j ensures j !in InstancesOf(ms, t) {
        assert j in InstancesOf(ms, t) ==> t in TasksOf(ms);
      }
    }
  }

  /** A Start block keeps the index exact: the instance lands in its place among the sorted ones. */
  lemma StartKeepsDescribes(index: Index, ms: seq<Message>, es: seq<Entry>, t: TaskId, i: InstanceId)
    requires |ms| == |es| && forall k :: 0 <= k < |ms| ==> SameBlock(ms[k], es[k])
    requires Accepts(ms) && Describes(index, ms, es)
    ensures Increasing(InfosOf(index, t))
    ensures NewInstance(InfosOf(index, t), i).Some? <==> Admissible(ms, Start(t, i))
    ensures NewInstance(InfosOf(index, t), i).Some? ==>
              Describes(index[t := NewInstance(InfosOf(index, t), i).value], ms + [Start(t, i)], es + [StartAt(t, i)])
  {
    var infos, m, e := InfosOf(index, t), Start(t, i), StartAt(t, i);
    EntryDescribed(index, ms, es, t);
    assert HasId(infos, i) <==> i in InstancesOf(ms, t);
    assert i in InstancesOf(ms, t) <==> m in ms;
    if NewInstance(infos, i).Some? {
      InsertedTask(infos, ms, es, t, i);
      InstancesSnoc(ms, m, t);
      forall u | u in index && u != t ensures DescribesTask(index[u], ms + [m], es + [e], u) {
        OtherTaskUnchanged(index[u], ms, es, m, e, u);
      }
      hide DescribesTask, TasksOf, InstancesOf, NewInstance, Accepts;
      var r := NewInstance(infos, i).value;
      assert index[t := r].Keys == TasksOf(ms + [m]);
    }
  }

  lemma InsertedTask(infos: TaskInfo, ms: seq<Message>, es: seq<Entry>, t: TaskId, i: InstanceId)
    requires |ms| == |es| && forall k :: 0 <= k < |ms| ==> SameBlock(ms[k], es[k])
    requires Accepts(ms) && Start(t, i) !in ms
    requires DescribesTask(infos, ms, es, t) && !HasId(infos, i)
    ensures DescribesTask(NewInstance(infos, i).value, ms + [Start(t, i)], es + [StartAt(t, i)], t)
  {
    hide HasId, InstancesOf, ChunksOf, Finished, Accepts, NewInstance, InfoOf;
    var m, e := Start(t, i), StartAt(t, i);
    InstancesSnoc(ms, m, t);
    forall j ensures InfoOf(ms + [m], es + [e], t, j) == InfoOf(ms, es, t, j) {
      InfoSnoc(ms, es, m, e, t, j);
    }
    NewInfo(ms, es, t, i);
    InsertedInfos(infos, i);
  }

  lemma NewInfo(ms: seq<Message>, es: seq<Entry>, t: TaskId, i: InstanceId)
    requires |ms| == |es| && forall k :: 0 <= k < |ms| ==> SameBlock(ms[k], es[k])
    requires Accepts(ms) && Start(t, i) !in ms
    ensures InfoOf(ms, es, t, i) == InstanceInfo(i, [[], []], false)
  {
    hide ChunksOf, Accepts, Finished;
    NoChunksBeforeStart(ms, es, t, i, 0);
    NoChunksBeforeStart(ms, es, t, i, 1);
  }

  lemma InsertedInfos(infos: TaskInfo, i: InstanceId)
    requires Increasing(infos) && !HasId(infos, i)
    ensures
      var r := NewInstance(infos, i).value;
      && (forall k :: 0 <= k < |r| ==> r[k] == InstanceInfo(i, [[], []], false) || r[k] in infos)
      && (forall j :: HasId(r, j) <==> HasId(infos, j) || j == i)
  {
    hide HasId, Increasing;
    var r := NewInstance(infos, i).value;
    forall j ensures HasId(r, j) <==> HasId(infos, j) || j == i {
      InsertedIds(infos, Slot(infos, i), InstanceInfo(i, [[], []], false), j);
    }
  }

  /** A block of one task says nothing about another. */
  lemma OtherTaskUnchanged(infos: TaskInfo, ms: seq<Message>, es: seq<Entry>, m: Message, e: Entry, u: TaskId)
    requires SameBlock(m, e) && m.task != u
    requires DescribesTask(infos, ms, es, u)
    ensures DescribesTask(infos, ms + [m], es + [e], u)
  {
    InstancesSnoc(ms, m, u);
    forall j ensures InfoOf(ms + [m], es + [e], u, j) == InfoOf(ms, es, u, j) {
      InfoSnoc(ms, es, m, e, u, j);
    }
  }

  lemma InsertedIds(infos: TaskInfo, k: nat, x: InstanceInfo, j: InstanceId)
    requires k <= |infos|
    ensures HasId(infos[..k] + [x] + infos[k..], j) <==> HasId(infos, j) || j == x.id
  {
    var r := infos[..k] + [x] + infos[k..];
    if HasId(infos, j) {
      var p :| 0 <= p < |infos| && infos[p].id == j;
      assert r[if p < k then p else p + 1].id == j;
    }
    if j == x.id { assert r[k].id == j; }
    if HasId(r, j) && j != x.id {
      var p :| 0 <= p < |r| && r[p].id == j;
      assert infos[if p < k then p else p - 1].id == j;
    }
  }

  /** What a Chunk or End block does to the instance it names. */
  function Updated(info: InstanceInfo, m: Message, e: Entry): InstanceInfo
    requires SameBlock(m, e) && !m.Start? && (m.Data? ==> m.channel < |info.channels|)
  {
    if m.End? then info.(finished := true) else AddChunk(info, m.channel, ChunkInfo(e.pos, e.size))
  }

  /** A Chunk or End block updates the one instance it names and leaves every other as it was. */
  lemma UpdateKeepsDescribes(index: Index, ms: seq<Message>, es: seq<Entry>, m: Message, e: Entry, k: nat)
    requires SameBlock(m, e) && !m.Start? && (m.Data? ==> m.channel < 2)
    requires Describes(index, ms, es)
    requires m.task in index && k < |index[m.task]| && index[m.task][k].id == m.inst
    ensures |index[m.task][k].channels| == 2
    ensures Describes(index[m.task := index[m.task][k := Updated(index[m.task][k], m, e)]], ms + [m], es + [e])
  {
    var t := m.task;
    assert index[t][k] == InfoOf(ms, es, t, m.inst);
    UpdatedTask(index[t], ms, es, m, e, k);
    InstancesSnoc(ms, m, t);
    forall u | u in index && u != t ensures DescribesTask(index[u], ms + [m], es + [e], u) {
      OtherTaskUnchanged(index[u], ms, es, m, e, u);
    }
  }

  lemma UpdatedTask(infos: TaskInfo, ms: seq<Message>, es: seq<Entry>, m: Message, e: Entry, k: nat)
    requires SameBlock(m, e) && !m.Start? && (m.Data? ==> m.channel < 2)
    requires DescribesTask(infos, ms, es, m.task)
    requires k < |infos| && infos[k].id == m.inst && |infos[k].channels| == 2
    ensures DescribesTask(infos[k := Updated(infos[k], m, e)], ms + [m], es + [e], m.task)
  {
    var t, r := m.task, infos[k := Updated(infos[k], m, e)];
    InstancesSnoc(ms, m, t);
    forall j ensures HasId(r, j) <==> HasId(infos, j) {
      SameIds(infos, r, j);
    }
    forall p | 0 <= p < |r| ensures r[p] == InfoOf(ms + [m], es + [e], t, r[p].id) {
      InfoSnoc(ms, es, m, e, t, infos[p].id);
      assert infos[p] == InfoOf(ms, es, t, infos[p].id);
      assert p != k ==> infos[p].id != m.inst;
    }
  }

  lemma SameIds(a: TaskInfo, b: TaskInfo, j: InstanceId)
    requires |a| == |b| && forall p :: 0 <= p < |a| ==> a[p].id == b[p].id
    ensures HasId(a, j) <==> HasId(b, j)
  {
    if HasId(a, j) {
      var p :| 0 <= p < |a| && a[p].id == j;
      assert b[p].id == j;
    }
  }

  /** The described index finds an instance exactly when it was started. */
  lemma KnownIffStarted(index: Index, ms: seq<Message>, es: seq<Entry>, t: TaskId, i: InstanceId)
    requires Describes(index, ms, es)
    ensures t in index && HasId(index[t], i) <==> Start(t, i) in ms
  {
    assert Start(t, i) in ms <==> i in InstancesOf(ms, t);
    assert Start(t, i) in ms ==> t in TasksOf(ms);
  }

  // ---- What the index says about a task ------------------------------------------------------

  /** `last_instance` is the newest execution. */
  lemma LastInstanceIsLatest(index: Index, ms: seq<Message>, es: seq<Entry>, t: TaskId)
    requires Describes(index, ms, es) && t in index
    ensures index[t] != [] && index[t][|index[t]| - 1] == InfoOf(ms, es, t, Latest(ms, t))
  {
    var infos := index[t];
    var i := Latest(ms, t);
    assert HasId(infos, i);
    var k :| 0 <= k < |infos| && infos[k].id == i;
    var last := infos[|infos| - 1];
    assert HasId(infos, last.id);
    assert last.id in InstancesOf(ms, t);
  }

  /** A described index is unique, so the description says everything about it. */
  lemma DescribesIsExact(a: Index, b: Index, ms: seq<Message>, es: seq<Entry>)
    requires Describes(a, ms, es) && Describes(b, ms, es)
    ensures a == b
  {
    forall t | t in a ensures a[t] == b[t] {
      assert forall i :: HasId(a[t], i) <==> HasId(b[t], i);
      IncreasingIsUnique(a[t], b[t]);
      forall k | 0 <= k < |a[t]| ensures a[t][k] == b[t][k] {
        assert a[t][k] == InfoOf(ms, es, t, a[t][k].id);
        assert b[t][k] == InfoOf(ms, es, t, b[t][k].id);
      }
    }
  }

  lemma {:induction false} IncreasingIsUnique(a: TaskInfo, b: TaskInfo)
    requires Increasing(a) && Increasing(b)
    requires forall i :: HasId(a, i) <==> HasId(b, i)
    ensures |a| == |b| && forall k :: 0 <= k < |a| ==> a[k].id == b[k].id
  {
    if a == [] {
      assert b != [] ==> HasId(b, b[0].id);
    } else {
      hide HasId, Increasing;
      SameGreatest(a, b);
      var a', b' := a[..|a| - 1], b[..|b| - 1];
      assert Increasing(a') && Increasing(b') by { InitIncreasing(a); InitIncreasing(b); }
      forall i ensures HasId(a', i) <==> HasId(b', i) {
        InitIds(a, i);
        InitIds(b, i);
      }
      IncreasingIsUnique(a', b');
    }
  }

  lemma InitIncreasing(a: TaskInfo)
    requires Increasing(a) && a != []
    ensures Increasing(a[..|a| - 1])
  {
  }

  lemma SameGreatest(a: TaskInfo, b: TaskInfo)
    requires Increasing(a) && Increasing(b) && a != []
    requires forall i :: HasId(a, i) <==> HasId(b, i)
    ensures b != [] && a[|a| - 1].id == b[|b| - 1].id
  {
    var x := a[|a| - 1].id;
    assert HasId(a, x);
    var q :| 0 <= q < |b| && b[q].id == x;
    var y := b[|b| - 1].id;
    assert HasId(b, y);
    var p :| 0 <= p < |a| && a[p].id == y;
  }

  lemma InitIds(a: TaskInfo, i: InstanceId)
    requires Increasing(a) && a != []
    ensures HasId(a[..|a| - 1], i) <==> HasId(a, i) && i != a[|a| - 1].id
  {
    var init := a[..|a| - 1];
    if HasId(a, i) && i != a[|a| - 1].id {
      var p :| 0 <= p < |a| && a[p].id == i;
      assert init[p].id == i;
    }
    if HasId(init, i) {
      var p :| 0 <= p < |init| && init[p].id == i;
      assert a[p].id == i;
    }
  }
}
