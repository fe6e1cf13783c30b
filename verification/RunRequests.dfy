/**
 * What clients get from the server in every run: a resubmission selects exactly the tasks it asks
 * for, and the wait command adds up the final counters of the jobs it waits for.
 */
module RunRequests {
  import opened Bytes
  import opened IntArray
  import opened JobModel
  import opened JobStatus
  import opened ServerModel
  import opened ServerSteps
  import opened Backend
  import opened ServerTheorems
  import opened ClientRequests
  import WaitLoop

  // ---- Task ids over whole runs --------------------------------------------------------------

  predicate DistinctSubmits(run: seq<Action>)
  {
    forall k :: 0 <= k < |run| && run[k].SubmitJob? ==> DistinctType(run[k].r.jobType)
  }

  /** No two tasks of the job have the same task id, and none has the largest one. */
  predicate GoodIds(ids: map<TakoId, U32>)
  {
    && (forall t, u :: t in ids && u in ids && ids[t] == ids[u] ==> t == u)
    && forall t :: t in ids ==> ids[t] < MAX_U32
  }

  lemma GoodIdsOfTasks(j: Job)
    requires j.state.ManyTasks? && GoodIds(JobTaskIds(j))
    ensures DistinctIds(j.state.tasks)
    ensures forall t :: t in j.state.tasks ==> j.state.tasks[t].taskId < MAX_U32
  {
    var m, ids := j.state.tasks, JobTaskIds(j);
    assert forall t :: t in m ==> t in ids && ids[t] == m[t].taskId;
  }

  lemma NewJobGoodIds(r: SubmitRequest, id: JobId, base: TakoId)
    requires DistinctType(r.jobType)
    ensures GoodIds(JobTaskIds(NewJob(r, id, base)))
  {
    hide Iter, JobTaskIds, NewJob;
    NewJobIds(r, id, base);
    var ids := JobTaskIds(NewJob(r, id, base));
    if r.jobType.Array? && IdCount(r.jobType.ranges) != 1 {
      var xs := Iter(r.jobType.ranges);
      forall t | t in ids ensures ids[t] < MAX_U32 { IterBelow(r.jobType.ranges, xs[t - base]); }
    }
  }

  lemma {:induction false} ProcessAllKeys(v: Server, ts: seq<TakoId>, c: Change, now: Date)
    requires ProcessAll(v, ts, c, now).Out?
    ensures ProcessAll(v, ts, c, now).v.jobs.Keys == v.jobs.Keys
  {
    hide Transit, JobOf;
    if ts != [] { ProcessAllKeys(v, ts[..|ts| - 1], c, now); }
  }

  lemma {:induction false} CancelAllKeys(v: Server, id: JobId, ts: seq<TakoId>, now: Date)
    requires CancelAll(v, id, ts, now).Out?
    ensures CancelAll(v, id, ts, now).v.jobs.Keys == v.jobs.Keys
  {
    hide SetCancel;
    if ts != [] { CancelAllKeys(v, id, ts[..|ts| - 1], now); }
  }

  /** Only a submission adds a job. */
  lemma JobsComeFromSubmissions(s: Sys, a: Action)
    requires Enabled(s, a) && Next(s, a).Some? && !a.SubmitJob?
    ensures Next(s, a).value.v.jobs.Keys == s.v.jobs.Keys
  {
    hide Transit, JobOf, SetCancel, ProcessAll, CancelAll, ToCancel, Enumerates, SetPhases, Cancelables;
    if a.Receive? && s.fromTako[0].LostWorker? && s.fromTako[0].w in s.v.workers {
      var w := s.fromTako[0].w;
      ProcessAllKeys(s.v.(workers := s.v.workers[w := false]), s.fromTako[0].ts, ToWaiting, 0);
    }
    if a.Wake? { CancelAllKeys(s.v, s.woken[a.k].job, s.delivered[a.k].ts, a.now); }
  }

  ghost predicate AllGoodIds(v: Server) { forall id :: id in v.jobs ==> GoodIds(JobTaskIds(v.jobs[id])) }

  lemma SubmitGoodIds(s: Sys, r: SubmitRequest)
    requires Enabled(s, SubmitJob(r)) && Next(s, SubmitJob(r)).Some? && DistinctType(r.jobType) && AllGoodIds(s.v)
    ensures AllGoodIds(Next(s, SubmitJob(r)).value.v)
  {
    hide NewJob, GoodIds, JobTaskIds, TaskDefs, Reserved, Fitting, Iter;
    NewJobGoodIds(r, s.v.jobCounter, s.v.taskCounter);
  }

  lemma EvolvedGoodIds(v: Server, v': Server)
    requires AllGoodIds(v) && Evolves(v, v') && v'.jobs.Keys == v.jobs.Keys
    ensures AllGoodIds(v')
  {
    hide GoodIds, JobTaskIds, Tasks, NTasks;
  }

  /** Task ids are assigned once: in every run no job ever has two tasks with the same id. */
  lemma {:induction false} RunTaskIds(run: seq<Action>)
    requires Exec(Initial(), run).At? && DistinctSubmits(run)
    ensures AllGoodIds(Exec(Initial(), run).s.v)
  {
    hide Inv, Enabled, Next, Evolves, GoodIds, JobTaskIds, DistinctType;
    if run != [] {
      var init, a := run[..|run| - 1], run[|run| - 1];
      RunTaskIds(init);
      RunNeverPanics(init);
      var before := Exec(Initial(), init).s;
      if a.SubmitJob? {
        SubmitGoodIds(before, a.r);
      } else {
        SafeStep(before, a);
        JobsComeFromSubmissions(before, a);
        EvolvedGoodIds(before.v, Exec(Initial(), run).s.v);
      }
    }
  }

  /**
   * In every reachable state, resubmitting a job asks for its tasks in the named statuses, or for all
   * of them without a filter: a single task as a simple job, those of an array job as an array whose
   * ids are exactly theirs, ascending and in maximal ranges, whatever the iteration order of the job's
   * map. There is nothing to do exactly when no task is asked for. Limit and entries are kept, the log
   * is not.
   */
  lemma RunResubmits(run: seq<Action>, id: JobId, filter: Option<set<Status>>, order: seq<TakoId>)
    requires Exec(Initial(), run).At? && DistinctSubmits(run) && id in Exec(Initial(), run).s.v.jobs
    requires
      var j := Exec(Initial(), run).s.v.jobs[id];
      j.state.ManyTasks? ==> Visits(order, j.state.tasks)
    ensures
      var j := Exec(Initial(), run).s.v.jobs[id];
      var q := ResubmitRequest(j, filter, order);
      && (q.None? <==> forall t :: t in Tasks(j) ==> filter.Some? && !HasOneOf(filter.value, Tasks(j)[t]))
      && (q.Some? ==>
            && q.value.maxFails == j.maxFails && q.value.entries == j.entries && !q.value.hasLog
            && (j.state.SingleTask? ==> q.value.jobType == Simple)
            && (j.state.ManyTasks? ==>
                  && q.value.jobType.Array? && SoundType(q.value.jobType) && DistinctType(q.value.jobType)
                  && var ids, m := Iter(q.value.jobType.ranges), j.state.tasks;
                  && StrictlyAscending(ids) && Maximal(q.value.jobType.ranges)
                  && forall x :: x in ids <==>
                       exists t :: t in m && m[t].taskId == x && (filter.None? || HasOneOf(filter.value, m[t].state))))
  {
    hide Exec, DistinctSubmits, GoodIds, JobTaskIds, ResubmitRequest, Iter, SoundType, Maximal, HasOneOf, Tasks, Distinct;
    RunTaskIds(run);
    var j := Exec(Initial(), run).s.v.jobs[id];
    if j.state.SingleTask? {
      SingleRequest(j, filter, order);
    } else {
      GoodIdsOfTasks(j);
      ArrayRequest(j, filter, order);
    }
  }

  lemma SingleRequest(j: Job, filter: Option<set<Status>>, order: seq<TakoId>)
    requires j.state.SingleTask?
    ensures
      var q := ResubmitRequest(j, filter, order);
      && (q.None? <==> forall t :: t in Tasks(j) ==> filter.Some? && !HasOneOf(filter.value, Tasks(j)[t]))
      && (q.Some? ==> q.value == SubmitRequest(Simple, j.maxFails, false, j.entries))
  {
    hide ResubmitType, HasOneOf;
    ResubmitSingle(j, filter, order);
    assert Tasks(j)[j.base] == j.state.state;
  }

  lemma ArrayRequest(j: Job, filter: Option<set<Status>>, order: seq<TakoId>)
    requires j.state.ManyTasks? && DistinctIds(j.state.tasks) && Visits(order, j.state.tasks)
    requires forall t :: t in j.state.tasks ==> j.state.tasks[t].taskId < MAX_U32
    ensures
      var q, m := ResubmitRequest(j, filter, order), j.state.tasks;
      && (q.None? <==> forall t :: t in Tasks(j) ==> filter.Some? && !HasOneOf(filter.value, Tasks(j)[t]))
      && (q.Some? ==>
            && q.value.jobType.Array? && q.value == SubmitRequest(q.value.jobType, j.maxFails, false, j.entries)
            && SoundType(q.value.jobType) && DistinctType(q.value.jobType)
            && StrictlyAscending(Iter(q.value.jobType.ranges)) && Maximal(q.value.jobType.ranges)
            && forall x :: x in Iter(q.value.jobType.ranges) <==>
                 exists t :: t in m && m[t].taskId == x && (filter.None? || HasOneOf(filter.value, m[t].state)))
  {
    hide ResubmitType, Iter, SoundType, Maximal, HasOneOf, MatchingIds, DistinctIds, Visits;
    ResubmitSelects(j, filter, order);
    assert forall t :: t in j.state.tasks ==> t in Tasks(j) && Tasks(j)[t] == j.state.tasks[t].state;
  }

  // ---- Waiting -------------------------------------------------------------------------------

  ghost predicate Reaches(run: seq<Action>, n: nat) { n <= |run| && Exec(Initial(), run[..n]).At? }

  ghost function ServerAt(run: seq<Action>, n: nat): Server
    requires Reaches(run, n)
  {
    Exec(Initial(), run[..n]).s.v
  }

  lemma EachLineStays(j: Job, j': Job)
    requires EachLine(j) && SameJob(j, j')
    ensures EachLine(j')
  {
    var ids, ids' := JobTaskIds(j), JobTaskIds(j');
    assert ids == ids';
    assert forall t :: t in j'.state.tasks <==> t in ids;
    assert forall t :: t in j'.state.tasks ==> j'.state.tasks[t].taskId == ids[t];
  }

  /**
   * At any later moment of any run, resubmitting a job that was made from a file of different lines
   * pairs every selected task with its own line if and only if the selected tasks are the first ones.
   */
  lemma RunEntries(run: seq<Action>, n: nat, id: JobId, filter: Option<set<Status>>, order: seq<TakoId>, base: TakoId)
    requires Exec(Initial(), run).At? && Reaches(run, n) && id in ServerAt(run, n).jobs
    requires EachLine(ServerAt(run, n).jobs[id]) && Distinct(ServerAt(run, n).jobs[id].entries.value)
    ensures
      var v := Exec(Initial(), run).s.v;
      && id in v.jobs && EachLine(v.jobs[id])
      && var j := v.jobs[id];
      (Visits(order, j.state.tasks) && ResubmitRequest(j, filter, order).Some? ==>
         var r := ResubmitRequest(j, filter, order).value;
         && IterableType(r.jobType)
         && (KeepsEntries(j, TaskDefs(r.jobType, base, r.entries)) <==> FirstOnes(MatchingIds(j.state.tasks, filter))))
  {
    hide Exec, EachLine, ResubmitRequest, KeepsEntries, FirstOnes, MatchingIds, TaskDefs, Tasks, NTasks, JobTaskIds, Distinct;
    RunEvolves(run, n);
    var early, late := ServerAt(run, n).jobs[id], Exec(Initial(), run).s.v.jobs[id];
    assert JobEvolves(early, late);
    EachLineStays(early, late);
    LinesAreMany(late);
    if Visits(order, late.state.tasks) && ResubmitRequest(late, filter, order).Some? {
      ResubmittedEntries(late, filter, order, base);
    }
  }

  lemma EqualTasks(j: Job, j': Job)
    requires Counted(j) && Counted(j') && JobEvolves(j, j') && AllTerminal(j)
    ensures j'.counters == j.counters && AllTerminal(j')
  {
    hide Count, NTasks, JobTaskIds;
    assert Tasks(j') == Tasks(j);
  }

  /**
   * What polls see of a job over a run: it stays under its id, with its number of tasks, and once it
   * is seen terminated its counters are final.
   */
  lemma RunPolls(run: seq<Action>, a: nat, b: nat, id: JobId)
    requires Exec(Initial(), run).At? && a <= b <= |run|
    ensures Reaches(run, a) && Reaches(run, b)
    ensures id in ServerAt(run, a).jobs ==>
              && id in ServerAt(run, b).jobs
              && var early, late := MakeJobInfo(ServerAt(run, a).jobs[id]), MakeJobInfo(ServerAt(run, b).jobs[id]);
                 && early.id == id && late.id == id && late.nTasks == early.nTasks
                 && (Terminated(early) ==> late == early)
  {
    hide Exec, Tasks, NTasks, Counted, AllTerminal, Terminated, StatusOf, FiveRules;
    RunEvolves(run, b);
    RunEvolves(run[..b], a);
    assert run[..b][..a] == run[..a];
    if id in ServerAt(run, a).jobs {
      var j, j' := ServerAt(run, a).jobs[id], ServerAt(run, b).jobs[id];
      assert JobEvolves(j, j');
      RunCounts(run[..a], id);
      RunCounts(run[..b], id);
      StatusIsFiveRules(j);
      RunJobId(run[..a], id);
      if AllTerminal(j) { EqualTasks(j, j'); }
    }
  }

  lemma RunJobId(run: seq<Action>, id: JobId)
    requires Exec(Initial(), run).At? && id in Exec(Initial(), run).s.v.jobs
    ensures Exec(Initial(), run).s.v.jobs[id].jobId == id
  {
    hide Exec, JobInv;
    RunNeverPanics(run);
    JobInvOf(Exec(Initial(), run).s.v, id);
  }

  ghost function SnapshotOf(v: Server): WaitLoop.Snapshot
  {
    map id: U32 | id in v.jobs :: MakeJobInfo(v.jobs[id])
  }

  /** The polls see the server at some later moments of the run, in whatever order. */
  ghost predicate PollsOf(run: seq<Action>, a: nat, polls: seq<WaitLoop.Snapshot>, cuts: seq<nat>)
  {
    |polls| == |cuts| &&
    forall k :: 0 <= k < |cuts| ==> a <= cuts[k] && Reaches(run, cuts[k]) && polls[k] == SnapshotOf(ServerAt(run, cuts[k]))
  }

  /** The jobs waited for, as the server knew them when the command began. */
  ghost predicate JobsAt(run: seq<Action>, a: nat, jobs: seq<JobInfo>)
  {
    Reaches(run, a) && WaitLoop.DistinctJobs(jobs) && WaitLoop.SmallIds(jobs)
    && forall j :: j in jobs ==> j.id in ServerAt(run, a).jobs && j == MakeJobInfo(ServerAt(run, a).jobs[j.id])
  }

  lemma {:induction false} SizesAt(jobs: seq<JobInfo>, id: U32)
    requires WaitLoop.SmallIds(jobs) && id in WaitLoop.SizesOf(jobs)
    ensures exists j :: j in jobs && j.id == id && WaitLoop.SizesOf(jobs)[id] == j.nTasks
  {
    var init, last := jobs[..|jobs| - 1], jobs[|jobs| - 1];
    assert jobs == init + [last];
    if last.id == id {
      assert last in jobs;
    } else {
      SizesAt(init, id);
      var j :| j in init && j.id == id && WaitLoop.SizesOf(init)[id] == j.nTasks;
      assert j in jobs;
    }
  }

  /** The answers of the server over a run are what the wait loop relies on. */
  lemma PollsAreSnapshots(run: seq<Action>, a: nat, jobs: seq<JobInfo>, polls: seq<WaitLoop.Snapshot>, cuts: seq<nat>, k: nat)
    requires Exec(Initial(), run).At? && JobsAt(run, a, jobs) && PollsOf(run, a, polls, cuts) && k < |polls|
    ensures WaitLoop.SmallIds(WaitLoop.Unfinished(jobs))
    ensures WaitLoop.SnapshotOk(polls[k], WaitLoop.SizesOf(WaitLoop.Unfinished(jobs)))
  {
    hide Exec, WaitLoop.SizesOf, WaitLoop.Unfinished, MakeJobInfo;
    var left := WaitLoop.Unfinished(jobs);
    forall id | id in WaitLoop.SizesOf(left)
      ensures
        && id in polls[k] && polls[k][id].id == id && polls[k][id].nTasks == WaitLoop.SizesOf(left)[id]
        && WaitLoop.Unsigned(polls[k][id].counters)
    {
      SizesAt(left, id);
      var j :| j in left && j.id == id && WaitLoop.SizesOf(left)[id] == j.nTasks;
      assert j in jobs;
      RunPolls(run, a, cuts[k], id);
      RunUnsigned(run, cuts[k], id);
    }
  }

  lemma RunUnsigned(run: seq<Action>, n: nat, id: JobId)
    requires Reaches(run, n) && id in ServerAt(run, n).jobs
    ensures WaitLoop.Unsigned(MakeJobInfo(ServerAt(run, n).jobs[id]).counters)
  {
    hide Exec, Tasks, NTasks, StatusOf, FiveRules;
    RunCounts(run[..n], id);
  }

  /**
   * The wait command against any run of the server: when it ends, it has added, for every job it
   * waited for, exactly the counters the job has from then on, and these account for every task.
   */
  method WaitOverRun(jobs: seq<JobInfo>, polls: seq<WaitLoop.Snapshot>, ghost run: seq<Action>, ghost a: nat, ghost cuts: seq<nat>)
    returns (r: WaitLoop.WaitResult, counters: Counters, ghost final: map<U32, Counters>)
    requires Exec(Initial(), run).At? && JobsAt(run, a, jobs) && PollsOf(run, a, polls, cuts)
    ensures WaitLoop.SmallIds(WaitLoop.Unfinished(jobs))
    ensures r.NothingToWaitFor? <==> WaitLoop.Unfinished(jobs) == []
    ensures r.ConnectionLost? ==>
              exists id :: id in WaitLoop.IdsOf(WaitLoop.Unfinished(jobs)) &&
                           forall k :: 0 <= k < |polls| ==> id in polls[k] && !Terminated(polls[k][id])
    ensures !r.NothingToWaitFor? && !r.ConnectionLost? ==>
              && final.Keys == WaitLoop.IdsOf(WaitLoop.Unfinished(jobs))
              && counters == WaitLoop.Total(final, final.Keys)
              && WaitLoop.DoneTasks(counters) == WaitLoop.TasksOf(WaitLoop.Unfinished(jobs))
    ensures !r.NothingToWaitFor? && !r.ConnectionLost? ==>
              forall id :: id in final ==>
                && id in Exec(Initial(), run).s.v.jobs
                && Terminated(MakeJobInfo(Exec(Initial(), run).s.v.jobs[id]))
                && final[id] == Exec(Initial(), run).s.v.jobs[id].counters
    ensures !r.NothingToWaitFor? && !r.ConnectionLost? ==>
              && var v := Exec(Initial(), run).s.v;
              && (r.SomeFailed? <==> exists id :: id in final && SomeTaskFailed(v, id))
              && (r.SomeCanceled? <==> (forall id :: id in final ==> !SomeTaskFailed(v, id))
                                       && exists id :: id in final && SomeTaskCanceled(v, id))
              && (r.AllFinished? <==> forall id, t :: id in final && t in Tasks(v.jobs[id]) ==> Tasks(v.jobs[id])[t].Finished?)
  {
    hide Exec, WaitLoop.SizesOf, WaitLoop.Unfinished, WaitLoop.SnapshotOk, WaitLoop.Total, WaitLoop.TasksOf, JobsAt, PollsOf, Terminated;
    NamesAreSmall(run, a, jobs);
    forall k | 0 <= k < |polls| ensures WaitLoop.SnapshotOk(polls[k], WaitLoop.SizesOf(WaitLoop.Unfinished(jobs))) {
      PollsAreSnapshots(run, a, jobs, polls, cuts, k);
    }
    r, counters, final := WaitLoop.WaitForJobs(jobs, polls);
    if !r.NothingToWaitFor? && !r.ConnectionLost? {
      forall id | id in final
        ensures
          && id in Exec(Initial(), run).s.v.jobs
          && Terminated(MakeJobInfo(Exec(Initial(), run).s.v.jobs[id]))
          && final[id] == Exec(Initial(), run).s.v.jobs[id].counters
      {
        AddedIsFinal(run, a, polls, cuts, id, final[id]);
      }
      EndStates(run, final);
      assert r.AllFinished? <==> !r.SomeFailed? && !r.SomeCanceled?;
    }
  }

  predicate SomeTaskFailed(v: Server, id: JobId)
  {
    id in v.jobs && exists t :: t in Tasks(v.jobs[id]) && Tasks(v.jobs[id])[t].Failed?
  }

  predicate SomeTaskCanceled(v: Server, id: JobId)
  {
    id in v.jobs && exists t :: t in Tasks(v.jobs[id]) && Tasks(v.jobs[id])[t].Canceled?
  }

  /** What the final counters say about the tasks of the jobs. */
  lemma EndStates(run: seq<Action>, final: map<U32, Counters>)
    requires Exec(Initial(), run).At?
    requires forall id :: id in final ==>
               && id in Exec(Initial(), run).s.v.jobs
               && Terminated(MakeJobInfo(Exec(Initial(), run).s.v.jobs[id]))
               && final[id] == Exec(Initial(), run).s.v.jobs[id].counters
    ensures
      var v := Exec(Initial(), run).s.v;
      && (forall id :: id in final ==> (final[id].failed > 0 <==> SomeTaskFailed(v, id)) && final[id].failed >= 0)
      && (forall id :: id in final ==> (final[id].canceled > 0 <==> SomeTaskCanceled(v, id)))
      && ((forall id, t :: id in final && t in Tasks(v.jobs[id]) ==> Tasks(v.jobs[id])[t].Finished?)
          <==> forall id :: id in final ==> !SomeTaskFailed(v, id) && !SomeTaskCanceled(v, id))
  {
    hide Exec, Tasks, Terminated, SomeTaskFailed, SomeTaskCanceled, Counted, Count;
    var v := Exec(Initial(), run).s.v;
    forall id | id in final
      ensures (final[id].failed > 0 <==> SomeTaskFailed(v, id)) && final[id].failed >= 0
      ensures final[id].canceled > 0 <==> SomeTaskCanceled(v, id)
      ensures (forall t :: t in Tasks(v.jobs[id]) ==> Tasks(v.jobs[id])[t].Finished?)
              <==> !SomeTaskFailed(v, id) && !SomeTaskCanceled(v, id)
    {
      RunCounts(run, id);
      StatusIsFiveRules(v.jobs[id]);
      EndedTasks(v, id);
    }
  }

  lemma EndedTasks(v: Server, id: JobId)
    requires id in v.jobs && Counted(v.jobs[id]) && AllTerminal(v.jobs[id])
    ensures
      var j := v.jobs[id];
      && (j.counters.failed > 0 <==> SomeTaskFailed(v, id)) && j.counters.failed >= 0
      && (j.counters.canceled > 0 <==> SomeTaskCanceled(v, id))
      && ((forall t :: t in Tasks(j) ==> Tasks(j)[t].Finished?)
          <==> !SomeTaskFailed(v, id) && !SomeTaskCanceled(v, id))
  {
    hide Tasks, Count;
    CountPositive(Tasks(v.jobs[id]), StatusFailed);
    CountPositive(Tasks(v.jobs[id]), StatusCanceled);
  }

  lemma NamesAreSmall(run: seq<Action>, a: nat, jobs: seq<JobInfo>)
    requires JobsAt(run, a, jobs)
    ensures WaitLoop.DistinctJobs(jobs) && WaitLoop.SmallIds(jobs) && WaitLoop.SmallIds(WaitLoop.Unfinished(jobs))
  {
  }

  lemma AddedIsFinal(run: seq<Action>, a: nat, polls: seq<WaitLoop.Snapshot>, cuts: seq<nat>, id: U32, c: Counters)
    requires Exec(Initial(), run).At? && PollsOf(run, a, polls, cuts) && WaitLoop.AddedOnce(polls, |polls|, id, c)
    ensures id in Exec(Initial(), run).s.v.jobs
    ensures Terminated(MakeJobInfo(Exec(Initial(), run).s.v.jobs[id])) && c == Exec(Initial(), run).s.v.jobs[id].counters
  {
    hide Exec, Terminated;
    var i: nat :| i < |polls| && WaitLoop.TerminatesAt(polls, id, i) && polls[i][id].counters == c;
    RunPolls(run, cuts[i], |run|, id);
    assert run[..|run|] == run;
  }
}
