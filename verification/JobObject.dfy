/** The server's mutable job record; every method is proved against the transition it performs. */
module JobObject {
  import opened Bytes
  import opened IntArray
  import opened JobModel

  class JobObject {
    const jobId: JobId
    const base: TakoId
    const maxFails: Option<nat>
    const hasLog: bool
    const entries: Option<seq<string>>
    var counters: Counters
    var state: JobState
    var completion: Option<Date>

    /** The job as a value. */
    function View(): Job
      reads this
    {
      Job(jobId, base, maxFails, hasLog, entries, counters, state, completion)
    }

    constructor (j: Job)
      ensures View() == j
    {
      jobId, base, maxFails, hasLog, entries := j.jobId, j.base, j.maxFails, j.hasLog, j.entries;
      counters, state, completion := j.counters, j.state, j.completion;
    }

    method GetTaskState(t: TakoId) returns (s: TaskState)
      requires t in Tasks(View())
      ensures s == Tasks(View())[t]
    {
      match state
      case SingleTask(s0) => s := s0;
      case ManyTasks(m) => s := m[t].state;
    }

    method PutTaskState(t: TakoId, s: TaskState)
      requires t in Tasks(View())
      modifies this`state
      ensures View() == SetTask(old(View()), t, s)
    {
      match state
      case SingleTask(_) => state := SingleTask(s);
      case ManyTasks(m) => state := ManyTasks(m[t := m[t].(state := s)]);
    }

    method SetRunningState(t: TakoId, w: WorkerId, now: Date)
      requires t in Tasks(View())
      modifies this`state, this`counters
      ensures SetRunning(old(View()), t, w, now) == Done(View(), [])
    {
      var s := GetTaskState(t);
      if s.Waiting? {
        PutTaskState(t, Running(w, now));
        counters := counters.(running := counters.running + 1);
      }
    }

    method CheckTerminated(now: Date) returns (sent: seq<Control>)
      modifies this`completion
      ensures CheckTermination(old(View()), now) == Done(View(), sent)
    {
      sent := [];
      if IsTerminated(View()) {
        completion := Some(now);
        if hasLog { sent := [Unregister(jobId)]; }
      }
    }

    method SetWaitingState(t: TakoId)
      requires SetWaiting(View(), t).Done?
      modifies this`state, this`counters
      ensures SetWaiting(old(View()), t) == Done(View(), [])
    {
      PutTaskState(t, Waiting);
      counters := counters.(running := counters.running - 1);
    }

    method SetFinishedState(t: TakoId, now: Date) returns (sent: seq<Control>)
      requires SetFinished(View(), t, now).Done?
      modifies this`state, this`counters, this`completion
      ensures SetFinished(old(View()), t, now) == Done(View(), sent)
    {
      var s := GetTaskState(t);
      PutTaskState(t, Finished(s.worker, s.startDate, now));
      counters := counters.(running := counters.running - 1, finished := counters.finished + 1);
      sent := CheckTerminated(now);
    }

    method SetFailedState(t: TakoId, error: string, now: Date) returns (sent: seq<Control>)
      requires SetFailed(View(), t, error, now).Done?
      modifies this`state, this`counters, this`completion
      ensures SetFailed(old(View()), t, error, now) == Done(View(), sent)
    {
      var s := GetTaskState(t);
      PutTaskState(t, Failed(s.worker, s.startDate, now, error));
      counters := counters.(running := counters.running - 1, failed := counters.failed + 1);
      sent := CheckTerminated(now);
    }

    method SetCancelState(t: TakoId, now: Date) returns (sent: seq<Control>)
      requires SetCancel(View(), t, now).Done?
      modifies this`state, this`counters, this`completion
      ensures SetCancel(old(View()), t, now) == Done(View(), sent)
    {
      var s := GetTaskState(t);
      PutTaskState(t, Canceled);
      if s.Running? { counters := counters.(running := counters.running - 1); }
      counters := counters.(canceled := counters.canceled + 1);
      sent := CheckTerminated(now);
    }

    /** `non_finished_task_ids`: collects, each once, the tasks that are neither finished, failed nor canceled. */
    method NonFinishedTaskIds(order: seq<TakoId>) returns (ids: seq<TakoId>)
      requires Distinct(order) && forall t :: t in order <==> t in Tasks(View())
      ensures Distinct(ids) && forall t :: t in ids <==> t in NonFinished(View())
    {
      ids := [];
      for k := 0 to |order|
        invariant Distinct(ids) && forall t :: t in ids <==> t in order[..k] && t in NonFinished(View())
      {
        assert order[k] in order && order[k] !in order[..k];
        var s := GetTaskState(order[k]);
        match s
        case Waiting => ids := ids + [order[k]];
        case Running(_, _) => ids := ids + [order[k]];
        case _ =>
      }
      assert order[..|order|] == order;
    }
  }
}
