/**
 * The server's state: jobs, the sparse index from backend task ids to jobs, id assignment at
 * submission, and the processing of backend messages. Panics of the source are explicit results.
 */
module ServerModel {
  import opened Bytes
  import opened IntArray
  import opened JobModel

  datatype Server = Server(jobs: map<JobId, Job>, bases: map<TakoId, JobId>, jobCounter: nat, taskCounter: nat,
                           workers: map<WorkerId, bool>)

  function NewServer(): Server { Server(map[], map[], 1, 1, map[]) }

  /** Result of processing a message: a panic, or the new state and the stream control messages sent. */
  datatype Out = Crash | Out(v: Server, sent: seq<Control>)

  // ---- The sparse index ----------------------------------------------------------------------

  lemma {:induction false} GreatestNatExists(s: set<nat>)
    requires s != {}
    ensures exists x: nat :: x in s && forall y :: y in s ==> y <= x
    decreases |s|
  {
    var x: nat :| x in s;
    var rest := s - {x};
    if rest == {} {
      forall y | y in s ensures y <= x { assert y !in rest; }
    } else {
      GreatestNatExists(rest);
      var m: nat :| m in rest && forall y :: y in rest ==> y <= m;
      var greatest := if x < m then m else x;
      forall y | y in s ensures y <= greatest {
        if y != x { assert y in rest; }
      }
      assert greatest in s;
    }
  }

  /** `range(..=t).rev().next()`: the greatest key not above `t`. */
  function Floor(keys: set<nat>, t: nat): (r: Option<nat>)
    ensures r.None? ==> forall k :: k in keys ==> t < k
    ensures r.Some? ==> r.value in keys && r.value <= t && forall k :: k in keys && k <= t ==> k <= r.value
  {
    var below := set k | k in keys && k <= t;
    if below == {} then
      assert forall k :: k in keys ==> k in below || t < k;
      None
    else
      GreatestNatExists(below);
      var x: nat :| x in below && forall y :: y in below ==> y <= x;
      assert forall k :: k in keys && k <= t ==> k in below;
      Some(x)
  }

  /** `get_job_mut_by_tako_task_id` */
  function JobOf(v: Server, t: TakoId): (r: Option<JobId>)
    ensures r.Some? ==> r.value in v.jobs
  {
    var b := Floor(v.bases.Keys, t);
    if b.None? then None
    else
      var id := v.bases[b.value];
      if id in v.jobs && t < v.jobs[id].base + NTasks(v.jobs[id]) then Some(id) else None
  }

  /** The state of a task as the server sees it, through the sparse index. */
  function View(v: Server, t: TakoId): Option<TaskState>
  {
    var id := JobOf(v, t);
    if id.Some? && t in Tasks(v.jobs[id.value]) then Some(Tasks(v.jobs[id.value])[t]) else None
  }

  // ---- The invariant -------------------------------------------------------------------------

  ghost predicate JobsOk(v: Server)
  {
    && 1 <= v.jobCounter && 1 <= v.taskCounter
    && (forall id :: id in v.jobs <==> 1 <= id < v.jobCounter)
    && (forall id :: id in v.jobs ==> v.jobs[id].jobId == id && JobInv(v.jobs[id])
                                      && v.jobs[id].base + NTasks(v.jobs[id]) <= v.taskCounter)
  }

  /** The blocks of backend ids of different jobs follow one another in the order of the job ids. */
  predicate Ordered(v: Server)
  {
    forall a, b :: a in v.jobs && b in v.jobs && a < b ==> v.jobs[a].base + NTasks(v.jobs[a]) <= v.jobs[b].base
  }

  predicate BasesOk(v: Server)
  {
    && (forall id :: id in v.jobs ==> v.jobs[id].base in v.bases && v.bases[v.jobs[id].base] == id)
    && (forall b :: b in v.bases ==> v.bases[b] in v.jobs && v.jobs[v.bases[b]].base == b)
  }

  ghost predicate ServerInv(v: Server) { JobsOk(v) && Ordered(v) && BasesOk(v) }

  lemma NewServerInv()
    ensures ServerInv(NewServer())
  {
  }

  /**
   * The sparse lookup agrees with the full map from tasks to jobs: it finds a job exactly for the
   * ids of the job's own tasks, also next to gaps between the blocks.
   */
  lemma LookupIsExact(v: Server, t: TakoId, id: JobId)
    requires ServerInv(v)
    ensures JobOf(v, t) == Some(id) <==> id in v.jobs && t in Tasks(v.jobs[id])
  {
    hide Tasks, Counted, AllTerminal;
    if id in v.jobs && t in Tasks(v.jobs[id]) {
      var j := v.jobs[id];
      assert JobInv(j);
      var f := Floor(v.bases.Keys, t);
      assert f.Some? && j.base <= f.value;
      var other := v.bases[f.value];
      assert v.jobs[other].base == f.value;
      assert other == id;
    }
    if JobOf(v, t) == Some(id) {
      assert JobInv(v.jobs[id]);
      var f := Floor(v.bases.Keys, t);
      assert v.bases[f.value] == id;
    }
  }

  predicate Known(v: Server, t: TakoId) { View(v, t).Some? }

  lemma ViewOf(v: Server, t: TakoId, id: JobId)
    requires ServerInv(v) && id in v.jobs && t in Tasks(v.jobs[id])
    ensures JobOf(v, t) == Some(id) && View(v, t) == Some(Tasks(v.jobs[id])[t])
  {
    LookupIsExact(v, t, id);
  }

  lemma KnownJob(v: Server, t: TakoId)
    requires ServerInv(v) && Known(v, t)
    ensures JobOf(v, t).Some? && JobOf(v, t).value in v.jobs && t in Tasks(v.jobs[JobOf(v, t).value])
  {
  }

  // ---- Submission ----------------------------------------------------------------------------

  datatype JobType = Simple | Array(ranges: seq<IntRange>)

  datatype SubmitRequest = SubmitRequest(jobType: JobType, maxFails: Option<nat>, hasLog: bool, entries: Option<seq<string>>)

  predicate IterableType(jt: JobType) { jt.Array? ==> Iterable(jt.ranges) }

  /** An array without empty ranges and without any wrap-around. */
  predicate SoundType(jt: JobType)
  {
    jt.Array? ==> jt.ranges != [] && WellFormed(jt.ranges) && SpanSum(jt.ranges) < 0x1_0000_0000
  }

  /** The number of backend ids `handle_submit` reserves. */
  function Reserved(jt: JobType): nat { if jt.Array? then IdCount(jt.ranges) else 1 }

  /** Consecutive ids from `base` on for the elements of a sequence. */
  function Numbered<T>(base: nat, xs: seq<T>): (m: map<nat, T>)
    ensures |m| == |xs|
    ensures forall t :: t in m <==> base <= t < base + |xs|
    ensures forall t :: t in m ==> m[t] == xs[t - base]
  {
    if xs == [] then map[] else Numbered(base, xs[..|xs| - 1])[base + |xs| - 1 := xs[|xs| - 1]]
  }

  function NewTasks(ids: seq<U32>): (r: seq<TaskInfo>)
    ensures |r| == |ids|
    ensures forall k :: 0 <= k < |r| ==> r[k] == TaskInfo(Waiting, ids[k])
  {
    if ids == [] then [] else NewTasks(ids[..|ids| - 1]) + [TaskInfo(Waiting, ids[|ids| - 1])]
  }

  /** `Job::new` */
  function NewJob(r: SubmitRequest, id: JobId, base: TakoId): Job
    requires IterableType(r.jobType)
  {
    var jt := r.jobType;
    var state :=
      if jt.Simple? || IdCount(jt.ranges) == 1 then SingleTask(Waiting)
      else
        ManyTasks(Numbered(base, NewTasks(Iter(jt.ranges))));
    Job(id, base, r.maxFails, r.hasLog, r.entries, Counters(0, 0, 0, 0), state, None)
  }

  /** A task as it is sent to the backend. */
  datatype TaskDef = TaskDef(id: TakoId, taskId: U32, entry: Option<string>)

  /** The task definitions: ids of the array, consecutive backend ids and, if given, entries, as far as all reach. */
  function TaskDefs(jt: JobType, base: TakoId, entries: Option<seq<string>>): seq<TaskDef>
    requires IterableType(jt)
  {
    if jt.Simple? then [TaskDef(base, 0, None)]
    else
      var ids := Iter(jt.ranges);
      if entries.None? then seq(|ids|, k requires 0 <= k < |ids| => TaskDef(base + k, ids[k], None))
      else
        var n := if |entries.value| < |ids| then |entries.value| else |ids|;
        seq(n, k requires 0 <= k < n => TaskDef(base + k, ids[k], Some(entries.value[k])))
  }

  datatype Submitted = SubmitCrash | Submitted(v: Server, id: JobId, defs: seq<TaskDef>)

  /** The part of `handle_submit` that holds the state: new ids, task definitions, `add_job`. */
  function Submit(v: Server, r: SubmitRequest): Submitted
    requires IterableType(r.jobType)
  {
    var id, base := v.jobCounter, v.taskCounter;
    var job := NewJob(r, id, base);
    if base in v.bases || id in v.jobs then SubmitCrash
    else Submitted(v.(jobs := v.jobs[id := job], bases := v.bases[base := id],
                      jobCounter := id + 1, taskCounter := base + Reserved(r.jobType)),
                   id, TaskDefs(r.jobType, base, r.entries))
  }

  /** The job has at least one task and no more tasks than ids reserved for it. */
  predicate KeepsIds(jt: JobType)
    requires IterableType(jt)
  {
    jt.Array? ==> IdCount(jt.ranges) == 1 || 1 <= |Iter(jt.ranges)| <= IdCount(jt.ranges)
  }

  /** Submissions the server handles: as above, and no more task definitions than ids reserved either. */
  predicate Fitting(jt: JobType)
  {
    IterableType(jt) && KeepsIds(jt) && (jt.Array? ==> |Iter(jt.ranges)| <= IdCount(jt.ranges))
  }

  lemma SoundIsFitting(jt: JobType)
    requires SoundType(jt)
    ensures Fitting(jt) && Reserved(jt) > 0
    ensures jt.Array? ==> 1 <= |Iter(jt.ranges)| <= Reserved(jt)
    ensures jt.Array? && IdCount(jt.ranges) == 1 ==> |Iter(jt.ranges)| == 1
  {
    if jt.Array? { SpanCoversIds(jt.ranges); }
  }

  /** A new job waits with all its tasks; it is a proper job if and only if its ids can be kept. */
  lemma NewJobInv(r: SubmitRequest, id: JobId, base: TakoId)
    requires IterableType(r.jobType)
    ensures
      var j := NewJob(r, id, base);
      && (JobInv(j) && NTasks(j) <= Reserved(r.jobType) <==> KeepsIds(r.jobType))
      && (forall t :: t in Tasks(j) ==> Tasks(j)[t].Waiting?)
  {
    hide Numbered, NewTasks, Iter, Counted, AllTerminal;
    var j := NewJob(r, id, base);
    NewJobCounts(r, id, base);
    if KeepsIds(r.jobType) { assert j.base in Tasks(j); }
  }

  lemma NewJobCounts(r: SubmitRequest, id: JobId, base: TakoId)
    requires IterableType(r.jobType)
    ensures
      var j := NewJob(r, id, base);
      Counted(j) && j.completion.None? && (forall t :: t in Tasks(j) ==> Tasks(j)[t].Waiting?)
      && (AllTerminal(j) <==> Tasks(j) == map[])
  {
    hide Numbered, NewTasks, Iter;
    var j := NewJob(r, id, base);
    assert forall t :: t in Tasks(j) ==> Tasks(j)[t].Waiting?;
    forall st | st != StatusWaiting ensures Count(Tasks(j), st) == 0 {
      assert InStatus(Tasks(j), st) == {};
    }
    if Tasks(j) != map[] {
      var t :| t in Tasks(j);
      assert !Terminal(Tasks(j)[t]);
    }
  }

  /**
   * A submission never trips the assertions of `add_job` and leaves all other jobs as they were. It
   * keeps the invariant, with disjoint blocks of ids, if and only if the array has at least one id and
   * not more than `id_count` says.
   */
  lemma SubmitKeeps(v: Server, r: SubmitRequest)
    requires ServerInv(v) && IterableType(r.jobType)
    ensures Submit(v, r).Submitted?
    ensures
      var v' := Submit(v, r).v;
      && (ServerInv(v') <==> KeepsIds(r.jobType)) && v'.workers == v.workers
      && (forall id :: id in v.jobs ==> id in v'.jobs && v'.jobs[id] == v.jobs[id])
      && v'.jobs.Keys == v.jobs.Keys + {Submit(v, r).id} && Submit(v, r).id !in v.jobs
  {
    hide ServerInv, NewJob, Tasks, Counted, JobInv, KeepsIds, NTasks, Reserved, TaskDefs, IterableType;
    var j := NewJob(r, v.jobCounter, v.taskCounter);
    NewJobInv(r, v.jobCounter, v.taskCounter);
    NewJobFields(r, v.jobCounter, v.taskCounter);
    FreshIds(v);
    if KeepsIds(r.jobType) {
      AddJobKeeps(v, j, Reserved(r.jobType));
    } else {
      AddedJobInv(Submit(v, r).v, j.jobId);
    }
  }

  /**
   * What a submission adds: a job under the next id whose tasks, all waiting, have the ids of the array
   * and consecutive backend ids from the next free one on; the next free id moves on by one, or by the
   * sum of the spans modulo 2^32.
   */
  lemma SubmitExact(v: Server, r: SubmitRequest)
    requires ServerInv(v) && IterableType(r.jobType)
    ensures
      var o, jt := Submit(v, r), r.jobType;
      && o.Submitted? && o.id == v.jobCounter && o.v.jobCounter == v.jobCounter + 1
      && o.v.taskCounter == v.taskCounter + (if jt.Simple? then 1 else SpanSum(jt.ranges) % 0x1_0000_0000)
      && o.id in o.v.jobs && var j := o.v.jobs[o.id];
      && j == Job(o.id, v.taskCounter, r.maxFails, r.hasLog, r.entries, Counters(0, 0, 0, 0), j.state, None)
      && (jt.Simple? || SpanSum(jt.ranges) % 0x1_0000_0000 == 1 ==> Tasks(j) == map[v.taskCounter := Waiting])
      && (jt.Array? && SpanSum(jt.ranges) % 0x1_0000_0000 != 1 ==>
            && (forall t :: t in Tasks(j) <==> v.taskCounter <= t < v.taskCounter + |Iter(jt.ranges)|)
            && (forall t :: t in Tasks(j) ==> Tasks(j)[t] == Waiting && JobTaskIds(j)[t] == Iter(jt.ranges)[t - v.taskCounter]))
  {
    hide ServerInv, Numbered, NewTasks, Iter, TaskDefs;
    FreshIds(v);
  }

  /** A new server counts jobs and tasks from one. */
  lemma FirstSubmission(r: SubmitRequest)
    requires IterableType(r.jobType)
    ensures
      var o := Submit(NewServer(), r);
      o.Submitted? && o.id == 1 && o.v.jobs.Keys == {1} && o.v.jobs[1].base == 1 && o.v.workers == map[]
  {
    hide Numbered, NewTasks, Iter, TaskDefs;
  }

  lemma AddedJobInv(v: Server, id: JobId)
    requires id in v.jobs
    ensures ServerInv(v) ==> JobInv(v.jobs[id]) && v.jobs[id].base + NTasks(v.jobs[id]) <= v.taskCounter
  {
    hide JobInv, NTasks;
  }

  lemma BasesBelow(v: Server, b: TakoId)
    requires ServerInv(v) && b in v.bases
    ensures b < v.taskCounter
  {
    hide Tasks, Counted, AllTerminal;
    var j := v.jobs[v.bases[b]];
    assert JobInv(j);
  }

  /** The next base id and the next job id are not in use. */
  lemma FreshIds(v: Server)
    requires ServerInv(v)
    ensures v.jobCounter !in v.jobs && v.taskCounter !in v.bases
  {
    if v.taskCounter in v.bases { BasesBelow(v, v.taskCounter); }
  }

  lemma AddJobKeeps(v: Server, j: Job, reserved: nat)
    requires ServerInv(v) && JobInv(j) && NTasks(j) <= reserved
    requires j.jobId == v.jobCounter && j.base == v.taskCounter
    ensures ServerInv(v.(jobs := v.jobs[j.jobId := j], bases := v.bases[j.base := j.jobId],
                         jobCounter := j.jobId + 1, taskCounter := j.base + reserved))
  {
    hide JobInv, NTasks;
    FreshIds(v);
    var v' := v.(jobs := v.jobs[j.jobId := j], bases := v.bases[j.base := j.jobId],
                 jobCounter := j.jobId + 1, taskCounter := j.base + reserved);
    assert JobsOk(v');
    forall a, b | a in v'.jobs && b in v'.jobs && a < b ensures v'.jobs[a].base + NTasks(v'.jobs[a]) <= v'.jobs[b].base {
      assert a in v.jobs;
      if b == j.jobId {
        assert v.jobs[a].base + NTasks(v.jobs[a]) <= v.taskCounter;
      }
    }
    forall b | b in v'.bases ensures v'.bases[b] in v'.jobs && v'.jobs[v'.bases[b]].base == b {
      if b != j.base { assert v.bases[b] in v.jobs; }
    }
  }

  lemma NewJobFields(r: SubmitRequest, id: JobId, base: TakoId)
    requires IterableType(r.jobType)
    ensures
      var j := NewJob(r, id, base);
      && j.jobId == id && j.base == base && j.maxFails == r.maxFails && j.hasLog == r.hasLog && j.entries == r.entries
      && j.completion.None? && j.counters.failed == 0
  {
  }

  /** The next submission trips the assertion if and only if the one before it reserved no id. */
  lemma EmptySubmissionCollides(v: Server, r: SubmitRequest, next: SubmitRequest)
    requires ServerInv(v) && IterableType(r.jobType) && IterableType(next.jobType)
    ensures Submit(v, r).Submitted?
    ensures Submit(Submit(v, r).v, next) == SubmitCrash <==> Reserved(r.jobType) == 0
  {
    hide JobInv, NewJob;
    FreshIds(v);
    forall b | b in v.bases ensures b < v.taskCounter { BasesBelow(v, b); }
    assert forall id :: id in v.jobs ==> id < v.jobCounter;
  }

  /** Such a submission is made from an empty file of lines. */
  lemma EmptyFileCollides(v: Server, maxFails: Option<nat>, hasLog: bool, next: SubmitRequest)
    requires ServerInv(v) && IterableType(next.jobType)
    ensures
      var r := SubmitRequest(Array([IntRange(0, 0, 1)]), maxFails, hasLog, Some([]));
      Submit(v, r).Submitted? && Submit(Submit(v, r).v, next) == SubmitCrash
  {
    hide ServerInv;
    var rs := [IntRange(0, 0, 1)];
    assert rs[..0] == [];
    assert IdCount(rs) == 0;
    EmptySubmissionCollides(v, SubmitRequest(Array(rs), maxFails, hasLog, Some([])), next);
  }

  // ---- Task definitions and job map ----------------------------------------------------------

  /** The task ids of the definitions by backend id; the backend ids are consecutive from the base id. */
  function DefMap(defs: seq<TaskDef>, base: TakoId): (m: map<TakoId, U32>)
    ensures forall t :: t in m <==> base <= t < base + |defs|
    ensures forall t :: t in m ==> m[t] == defs[t - base].taskId
  {
    if defs == [] then map[] else DefMap(defs[..|defs| - 1], base)[base + |defs| - 1 := defs[|defs| - 1].taskId]
  }

  lemma DefsAre(jt: JobType, base: TakoId, entries: Option<seq<string>>)
    requires IterableType(jt)
    ensures
      var defs := TaskDefs(jt, base, entries);
      if jt.Simple? then defs == [TaskDef(base, 0, None)]
      else
        && |defs| == (if entries.Some? && |entries.value| < |Iter(jt.ranges)| then |entries.value| else |Iter(jt.ranges)|)
        && forall k :: 0 <= k < |defs| ==>
             && defs[k].id == base + k && defs[k].taskId == Iter(jt.ranges)[k]
             && defs[k].entry == if entries.Some? then Some(entries.value[k]) else None
  {
    hide Iter;
  }

  /**
   * The definitions sent to the backend match the job's own map id for id if and only if there is
   * an entry for every task and the job is not a one-element array whose id is not zero: such a job
   * is kept as a single task and forgets its task id.
   */
  lemma DefsMatchJob(r: SubmitRequest, id: JobId, base: TakoId)
    requires SoundType(r.jobType)
    ensures IterableType(r.jobType)
    ensures
      var jt := r.jobType;
      var enough := jt.Array? && r.entries.Some? ==> |Iter(jt.ranges)| <= |r.entries.value|;
      var keepsId := jt.Array? && IdCount(jt.ranges) == 1 ==> Iter(jt.ranges)[0] == 0;
      JobTaskIds(NewJob(r, id, base)) == DefMap(TaskDefs(jt, base, r.entries), base) <==> enough && keepsId
  {
    hide NewJob, JobTaskIds, Iter, TaskDefs, SoundType, Reserved, DefMap;
    var jt := r.jobType;
    SoundIsFitting(jt);
    var defs := TaskDefs(jt, base, r.entries);
    var all, m := JobTaskIds(NewJob(r, id, base)), DefMap(defs, base);
    DefsAre(jt, base, r.entries);
    NewJobIds(r, id, base);
    if jt.Array? {
      var ids := Iter(jt.ranges);
      if r.entries.Some? && |r.entries.value| < |ids| {
        assert base + |r.entries.value| in all && base + |r.entries.value| !in m;
      } else if IdCount(jt.ranges) == 1 {
        assert m[base] == ids[0] && all[base] == 0;
        assert ids[0] == 0 ==> m == map[base := 0];
      } else {
        assert all.Keys == m.Keys;
        assert forall t :: t in m ==> m[t] == ids[t - base] == all[t];
      }
    } else {
      assert m == map[base := 0];
    }
  }

  /** The task ids a new job remembers. */
  lemma NewJobIds(r: SubmitRequest, id: JobId, base: TakoId)
    requires IterableType(r.jobType)
    ensures
      var ids := JobTaskIds(NewJob(r, id, base));
      if r.jobType.Simple? || IdCount(r.jobType.ranges) == 1 then ids == map[base := 0]
      else
        var xs := Iter(r.jobType.ranges);
        && (forall t :: t in ids <==> base <= t < base + |xs|)
        && forall t :: t in ids ==> ids[t] == xs[t - base]
  {
    hide Numbered, NewTasks, Iter, IdCount;
  }
}
