/** The server's mutable state; every method is proved against the step on values it performs. */
module ServerObject {
  import opened Bytes
  import opened JobModel
  import opened JobObject
  import opened ServerModel
  import opened ServerSteps

  class State {
    var jobs: map<JobId, JobObject>
    var bases: map<TakoId, JobId>
    var jobCounter: nat
    var taskCounter: nat
    var workers: map<WorkerId, bool>

    /** Every job is stored under its own id, hence no two entries are the same object. */
    ghost predicate Valid()
      reads this, jobs.Values
    {
      forall id :: id in jobs ==> jobs[id].jobId == id
    }

    ghost function View(): Server
      reads this, jobs.Values
    {
      Server(map id | id in jobs :: jobs[id].View(), bases, jobCounter, taskCounter, workers)
    }

    constructor ()
      ensures Valid() && View() == NewServer()
    {
      jobs, bases, jobCounter, taskCounter, workers := map[], map[], 1, 1, map[];
    }

    method NewJobId() returns (id: JobId)
      requires Valid()
      modifies this`jobCounter
      ensures Valid() && id == old(jobCounter) && View() == old(View()).(jobCounter := id + 1)
    {
      id := jobCounter;
      jobCounter := jobCounter + 1;
    }

    method NewTaskId(count: nat) returns (id: TakoId)
      requires Valid()
      modifies this`taskCounter
      ensures Valid() && id == old(taskCounter) && View() == old(View()).(taskCounter := id + count)
    {
      id := taskCounter;
      taskCounter := taskCounter + count;
    }

    /** `add_job`; its two assertions are the preconditions. */
    method AddJob(job: JobObject)
      requires Valid() && job.base !in bases && job.jobId !in jobs
      modifies this`jobs, this`bases
      ensures Valid()
      ensures View() == old(View()).(jobs := old(View()).jobs[job.jobId := old(job.View())],
                                     bases := old(View()).bases[job.base := job.jobId])
    {
      bases := bases[job.base := job.jobId];
      jobs := jobs[job.jobId := job];
      assert View().jobs.Keys == old(View()).jobs.Keys + {job.jobId};
    }

    /** The locked part of `handle_submit`. */
    method SubmitJob(r: SubmitRequest) returns (id: JobId, defs: seq<TaskDef>)
      requires Valid() && IterableType(r.jobType) && Submit(View(), r).Submitted?
      modifies this
      ensures Valid() && Submit(old(View()), r) == Submitted(View(), id, defs)
    {
      id := NewJobId();
      var base := NewTaskId(Reserved(r.jobType));
      defs := TaskDefs(r.jobType, base, r.entries);
      var job := new JobObject(NewJob(r, id, base));
      NewJobFields(r, id, base);
      AddJob(job);
    }

    /** `get_job_mut_by_tako_task_id` */
    method FindJob(t: TakoId) returns (id: Option<JobId>)
      requires Valid()
      ensures id == JobOf(View(), t)
    {
      var b := Floor(bases.Keys, t);
      if b.None? { return None; }
      var j := bases[b.value];
      if j !in jobs { return None; }
      assert View().jobs[j] == jobs[j].View();
      id := if t < jobs[j].base + NTasks(jobs[j].View()) then Some(j) else None;
    }

    /** Only one job object changes, so only its entry of the view does. */
    twostate lemma OneJobChanged(id: JobId)
      requires old(Valid()) && id in jobs && jobs == old(jobs) && bases == old(bases) && workers == old(workers)
      requires jobCounter == old(jobCounter) && taskCounter == old(taskCounter)
      requires forall i :: i in jobs && i != id ==> jobs[i].View() == old(jobs[i].View())
      ensures View() == old(View()).(jobs := old(View()).jobs[id := jobs[id].View()])
    {
      assert View().jobs.Keys == old(View()).jobs.Keys;
    }

    /** One task update of the backend: `process_task_update`, and the first half of `process_task_failed`. */
    method ProcessTaskChange(t: TakoId, c: Change, now: Date) returns (sent: seq<Control>)
      requires Valid() && ProcessTask(View(), t, c, now).Out?
      modifies jobs.Values
      ensures Valid() && jobs == old(jobs)
      ensures ProcessTask(old(View()), t, c, now) == Out(View(), sent)
    {
      hide JobOf, SetRunning, SetWaiting, SetFinished, SetFailed, SetCancel;
      var found := FindJob(t);
      var id := found.value;
      var job := jobs[id];
      assert View().jobs[id] == job.View();
      sent := ChangeJob(job, t, c, now);
      OneJobChanged(id);
    }

    /** `process_worker_new` */
    method ProcessWorkerNew(w: WorkerId)
      requires Valid() && w !in workers
      modifies this`workers
      ensures Valid() && WorkerNew(old(View()), w) == Out(View(), [])
    {
      workers := workers[w := true];
    }

    /** `process_worker_lost`: all tasks that ran on the worker go back to waiting. */
    method ProcessWorkerLost(w: WorkerId, ts: seq<TakoId>) returns (sent: seq<Control>)
      requires Valid() && WorkerLost(View(), w, ts).Out?
      modifies this`workers, jobs.Values
      ensures Valid() && WorkerLost(old(View()), w, ts) == Out(View(), sent)
    {
      hide ProcessTask;
      workers := workers[w := false];
      ghost var v1 := View();
      assert v1 == old(View()).(workers := old(View()).workers[w := false]);
      sent := [];
      assert ts[..0] == [];
      for k := 0 to |ts|
        invariant Valid() && jobs == old(jobs)
        invariant ProcessAll(v1, ts[..k], ToWaiting, 0) == Out(View(), sent)
      {
        assert ts[..k + 1][..k] == ts[..k];
        PrefixOut(v1, ts, k + 1);
        var more := ProcessTaskChange(ts[k], ToWaiting, 0);
        sent := sent + more;
      }
      assert ts[..|ts|] == ts;
    }

    /**
     * The end of a cancel callback or of a client's cancel request: every task the backend reports
     * as canceled is marked so.
     */
    method ApplyCancel(id: JobId, ts: seq<TakoId>, now: Date) returns (sent: seq<Control>)
      requires Valid() && CancelAll(View(), id, ts, now).Out?
      modifies jobs.Values
      ensures Valid() && CancelAll(old(View()), id, ts, now) == Out(View(), sent)
    {
      hide SetCancel;
      ghost var v0 := View();
      sent := [];
      assert ts[..0] == [];
      for k := 0 to |ts|
        invariant Valid() && jobs == old(jobs) && id in jobs
        invariant CancelAll(v0, id, ts[..k], now) == Out(View(), sent)
      {
        label before:
        assert ts[..k + 1][..k] == ts[..k];
        CancelPrefixOut(v0, id, ts, k + 1, now);
        assert View().jobs[id] == jobs[id].View();
        var more := jobs[id].SetCancelState(ts[k], now);
        OneJobChanged@before(id);
        sent := sent + more;
      }
      assert ts[..|ts|] == ts;
    }

    /**
     * `process_task_failed`: if the job now has more failed tasks than its limit says, its waiting and
     * running tasks are to be canceled; otherwise nothing is.
     */
    method ProcessTaskFailed(t: TakoId, error: string, now: Date, order: seq<TakoId>)
      returns (sent: seq<Control>, cancel: seq<TakoId>)
      requires Valid() && ProcessTask(View(), t, ToFailed(error), now).Out?
      requires JobOf(ProcessTask(View(), t, ToFailed(error), now).v, t).Some?
      requires
        var after := ProcessTask(View(), t, ToFailed(error), now).v;
        Distinct(order) && forall u :: u in order <==> u in Tasks(after.jobs[JobOf(after, t).value])
      modifies jobs.Values
      ensures Valid() && ProcessTask(old(View()), t, ToFailed(error), now) == Out(View(), sent)
      ensures Distinct(cancel) && forall u :: u in cancel <==> u in ToCancel(View(), t)
      ensures ServerInv(old(View())) ==>
                forall id :: id in View().jobs && t in Tasks(View().jobs[id]) ==>
                  var j := View().jobs[id];
                  if j.maxFails.Some? && Count(Tasks(j), StatusFailed) > j.maxFails.value
                  then forall u :: u in cancel <==> u in Tasks(j) && (Tasks(j)[u].Waiting? || Tasks(j)[u].Running?)
                  else cancel == []
    {
      hide ProcessTask, JobOf, NonFinished, ServerInv, Tasks, Count;
      sent := ProcessTaskChange(t, ToFailed(error), now);
      var found := FindJob(t);
      var job := jobs[found.value];
      assert View().jobs[found.value] == job.View();
      cancel := [];
      if job.maxFails.Some? && job.counters.failed > job.maxFails.value {
        cancel := job.NonFinishedTaskIds(order);
      }
      if ServerInv(old(View())) { FailureAnswer(old(View()), t, error, now, cancel); }
    }
  }

  /** Dispatches a change to the job's own method. */
  method ChangeJob(job: JobObject, t: TakoId, c: Change, now: Date) returns (sent: seq<Control>)
    requires Transit(job.View(), t, c, now).Done?
    modifies job
    ensures Transit(old(job.View()), t, c, now) == Done(job.View(), sent)
  {
    sent := [];
    match c
    case ToRunning(w) => job.SetRunningState(t, w, now);
    case ToWaiting => job.SetWaitingState(t);
    case ToFinished => sent := job.SetFinishedState(t, now);
    case ToFailed(e) => sent := job.SetFailedState(t, e, now);
    case ToCanceled => sent := job.SetCancelState(t, now);
  }

  lemma {:induction false} PrefixOut(v: Server, ts: seq<TakoId>, n: nat)
    requires n <= |ts| && ProcessAll(v, ts, ToWaiting, 0).Out?
    ensures ProcessAll(v, ts[..n], ToWaiting, 0).Out?
  {
    hide ProcessTask;
    if n < |ts| {
      var init := ts[..|ts| - 1];
      PrefixOut(v, init, n);
      assert init[..n] == ts[..n];
    } else {
      assert ts[..n] == ts;
    }
  }

  lemma {:induction false} CancelPrefixOut(v: Server, id: JobId, ts: seq<TakoId>, n: nat, now: Date)
    requires n <= |ts| && CancelAll(v, id, ts, now).Out?
    ensures CancelAll(v, id, ts[..n], now).Out?
  {
    hide SetCancel;
    if n < |ts| {
      var init := ts[..|ts| - 1];
      CancelPrefixOut(v, id, init, n, now);
      assert init[..n] == ts[..n];
    } else {
      assert ts[..n] == ts;
    }
  }
}
