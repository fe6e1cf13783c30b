/** The status of a job: computed from counters by the client, defined by five rules on its tasks. */
module JobStatus {
  import opened Bytes
  import opened JobModel

  /** What a client learns about a job. */
  datatype JobInfo = JobInfo(id: JobId, nTasks: nat, counters: Counters)

  function MakeJobInfo(j: Job): JobInfo { JobInfo(j.jobId, NTasks(j), j.counters) }

  /** `job_status`; None when its final assertion fails. */
  function StatusOf(info: JobInfo): Option<Status>
  {
    if info.counters.running > 0 then Some(StatusRunning)
    else if NWaiting(info.counters, info.nTasks) > 0 then Some(StatusWaiting)
    else if info.counters.canceled > 0 then Some(StatusCanceled)
    else if info.counters.failed > 0 then Some(StatusFailed)
    else if info.counters.finished == info.nTasks then Some(StatusFinished)
    else None
  }

  /** `is_terminated` of the client */
  predicate Terminated(info: JobInfo)
  {
    info.counters.running == 0 && NWaiting(info.counters, info.nTasks) == 0
  }

  /** The documented rules for the state of a job, the first that matches applies. */
  function FiveRules(m: map<TakoId, TaskState>): Status
  {
    if exists t :: t in m && m[t].Running? then StatusRunning
    else if exists t :: t in m && !Terminal(m[t]) then StatusWaiting
    else if exists t :: t in m && m[t].Canceled? then StatusCanceled
    else if exists t :: t in m && m[t].Failed? then StatusFailed
    else StatusFinished
  }

  /** The status computed from the counters is the documented one, and its assertion holds. */
  lemma StatusIsFiveRules(j: Job)
    requires Counted(j)
    ensures StatusOf(MakeJobInfo(j)) == Some(FiveRules(Tasks(j)))
    ensures Terminated(MakeJobInfo(j)) <==> AllTerminal(j)
  {
    hide Count, Tasks;
    var m := Tasks(j);
    WaitingIsCounted(j);
    TasksSize(j);
    CountsPartition(m);
    CountPositive(m, StatusWaiting);
    CountPositive(m, StatusRunning);
    CountPositive(m, StatusFailed);
    CountPositive(m, StatusCanceled);
    assert forall t :: t in m ==> (m[t].Running? <==> TaskStatus(m[t]) == StatusRunning);
    assert forall t :: t in m ==> (m[t].Canceled? <==> TaskStatus(m[t]) == StatusCanceled);
    assert forall t :: t in m ==> (m[t].Failed? <==> TaskStatus(m[t]) == StatusFailed);
  }
}
