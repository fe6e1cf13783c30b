/** A job and the states of its tasks: the value the server keeps, and what each transition does. */
module JobModel {
  import opened Bytes
  import opened IntArray

  type TakoId = nat
  type JobId = nat
  type WorkerId = nat
  type Date = nat

  datatype TaskState =
    | Waiting
    | Running(worker: WorkerId, startDate: Date)
    | Finished(worker: WorkerId, startDate: Date, endDate: Date)
    | Failed(worker: WorkerId, startDate: Date, endDate: Date, error: string)
    | Canceled

  datatype Status = StatusWaiting | StatusRunning | StatusFinished | StatusFailed | StatusCanceled

  /** `task_status` */
  function TaskStatus(s: TaskState): Status
  {
    match s
    case Waiting => StatusWaiting
    case Running(_, _) => StatusRunning
    case Finished(_, _, _) => StatusFinished
    case Failed(_, _, _, _) => StatusFailed
    case Canceled => StatusCanceled
  }

  predicate Terminal(s: TaskState) { s.Finished? || s.Failed? || s.Canceled? }

  datatype TaskInfo = TaskInfo(state: TaskState, taskId: U32)

  datatype JobState = SingleTask(state: TaskState) | ManyTasks(tasks: map<TakoId, TaskInfo>)

  datatype Counters = Counters(running: int, finished: int, failed: int, canceled: int)

  /** What the server knows about a job, as far as its tasks are concerned. */
  datatype Job = Job(jobId: JobId, base: TakoId, maxFails: Option<nat>, hasLog: bool, entries: Option<seq<string>>,
                     counters: Counters, state: JobState, completion: Option<Date>)

  /** Messages to the stream server. */
  datatype Control = Register(job: JobId) | Unregister(job: JobId)

  /** A transition either panics or yields the new job and the messages sent on the way. */
  datatype Outcome = Panic | Done(job: Job, sent: seq<Control>)

  /** The states of the job's tasks by backend id. */
  function Tasks(j: Job): map<TakoId, TaskState>
  {
    match j.state
    case SingleTask(s) => map[j.base := s]
    case ManyTasks(m) => map t | t in m :: m[t].state
  }

  /** The task ids the job remembers, by backend id; a single task has none of its own. */
  function JobTaskIds(j: Job): map<TakoId, U32>
  {
    match j.state
    case SingleTask(_) => map[j.base := 0]
    case ManyTasks(m) => map t | t in m :: m[t].taskId
  }

  /** `n_tasks` */
  function NTasks(j: Job): nat
  {
    match j.state
    case SingleTask(_) => 1
    case ManyTasks(m) => |m|
  }

  /** `n_waiting_tasks` */
  function NWaiting(c: Counters, nTasks: nat): int
  {
    nTasks - c.running - c.finished - c.failed - c.canceled
  }

  predicate IsTerminated(j: Job) { j.counters.running == 0 && NWaiting(j.counters, NTasks(j)) == 0 }

  /** The job with the state of one task replaced, as through `get_task_state_mut`. */
  function SetTask(j: Job, t: TakoId, s: TaskState): Job
    requires t in Tasks(j)
  {
    match j.state
    case SingleTask(_) => j.(state := SingleTask(s))
    case ManyTasks(m) => j.(state := ManyTasks(m[t := m[t].(state := s)]))
  }

  /** `check_termination` */
  function CheckTermination(j: Job, now: Date): Outcome
  {
    if IsTerminated(j) then Done(j.(completion := Some(now)), if j.hasLog then [Unregister(j.jobId)] else [])
    else Done(j, [])
  }

  function SetRunning(j: Job, t: TakoId, w: WorkerId, now: Date): Outcome
  {
    if t !in Tasks(j) then Panic
    else if Tasks(j)[t].Waiting? then
      Done(SetTask(j, t, Running(w, now)).(counters := j.counters.(running := j.counters.running + 1)), [])
    else Done(j, [])
  }

  function SetWaiting(j: Job, t: TakoId): Outcome
  {
    if t !in Tasks(j) || !Tasks(j)[t].Running? then Panic
    else Done(SetTask(j, t, Waiting).(counters := j.counters.(running := j.counters.running - 1)), [])
  }

  function SetFinished(j: Job, t: TakoId, now: Date): Outcome
  {
    if t !in Tasks(j) || !Tasks(j)[t].Running? then Panic
    else
      var s, c := Tasks(j)[t], j.counters;
      CheckTermination(SetTask(j, t, Finished(s.worker, s.startDate, now))
                       .(counters := c.(running := c.running - 1, finished := c.finished + 1)), now)
  }

  function SetFailed(j: Job, t: TakoId, error: string, now: Date): Outcome
  {
    if t !in Tasks(j) || !Tasks(j)[t].Running? then Panic
    else
      var s, c := Tasks(j)[t], j.counters;
      CheckTermination(SetTask(j, t, Failed(s.worker, s.startDate, now, error))
                       .(counters := c.(running := c.running - 1, failed := c.failed + 1)), now)
  }

  function SetCancel(j: Job, t: TakoId, now: Date): Outcome
  {
    if t !in Tasks(j) || Terminal(Tasks(j)[t]) then Panic
    else
      var c := j.counters;
      var running := if Tasks(j)[t].Running? then c.running - 1 else c.running;
      CheckTermination(SetTask(j, t, Canceled).(counters := c.(running := running, canceled := c.canceled + 1)), now)
  }

  /** `non_finished_task_ids`, as a set: the map is iterated in no particular order. */
  function NonFinished(j: Job): set<TakoId> { set t | t in Tasks(j) && !Terminal(Tasks(j)[t]) }

  // ---- The invariant of a job ----------------------------------------------------------------

  function InStatus(m: map<TakoId, TaskState>, st: Status): set<TakoId>
  {
    set t | t in m && TaskStatus(m[t]) == st
  }

  function Count(m: map<TakoId, TaskState>, st: Status): nat { |InStatus(m, st)| }

  /** The counters summarise the task states. */
  predicate Counted(j: Job)
  {
    && j.counters.running == Count(Tasks(j), StatusRunning)
    && j.counters.finished == Count(Tasks(j), StatusFinished)
    && j.counters.failed == Count(Tasks(j), StatusFailed)
    && j.counters.canceled == Count(Tasks(j), StatusCanceled)
  }

  predicate AllTerminal(j: Job) { forall t :: t in Tasks(j) ==> Terminal(Tasks(j)[t]) }

  /** The tasks occupy an interval of backend ids starting at the base id. */
  ghost predicate Contiguous(j: Job)
  {
    NTasks(j) > 0 && forall t :: t in Tasks(j) <==> j.base <= t < j.base + NTasks(j)
  }

  ghost predicate JobInv(j: Job)
  {
    && Contiguous(j) && Counted(j)
    && (j.completion.Some? <==> AllTerminal(j))
  }

  lemma TasksSize(j: Job)
    ensures |Tasks(j)| == NTasks(j)
  {
    if j.state.ManyTasks? { assert Tasks(j).Keys == j.state.tasks.Keys; }
  }

  lemma SetTaskTasks(j: Job, t: TakoId, s: TaskState)
    requires t in Tasks(j)
    ensures Tasks(SetTask(j, t, s)) == Tasks(j)[t := s]
    ensures NTasks(SetTask(j, t, s)) == NTasks(j) && JobTaskIds(SetTask(j, t, s)) == JobTaskIds(j)
  {
    if j.state.ManyTasks? {
      var m := j.state.tasks;
      assert m[t := m[t].(state := s)].Keys == m.Keys;
    }
  }

  // ---- Counting ------------------------------------------------------------------------------

  /** Changing one task moves it from one count to another. */
  lemma CountUpdate(m: map<TakoId, TaskState>, t: TakoId, s: TaskState, st: Status)
    requires t in m
    ensures Count(m[t := s], st) == Count(m, st)
            - (if TaskStatus(m[t]) == st then 1 else 0) + (if TaskStatus(s) == st then 1 else 0)
  {
    hide InStatus, TaskStatus;
    var a, b := InStatus(m, st), InStatus(m[t := s], st);
    InStatusUpdate(m, t, s, st);
    RemovedSize(a, t);
    RemovedSize(b, t);
  }

  lemma InStatusUpdate(m: map<TakoId, TaskState>, t: TakoId, s: TaskState, st: Status)
    requires t in m
    ensures InStatus(m[t := s], st) - {t} == InStatus(m, st) - {t}
    ensures t in InStatus(m, st) <==> TaskStatus(m[t]) == st
    ensures t in InStatus(m[t := s], st) <==> TaskStatus(s) == st
  {
    hide TaskStatus;
  }

  lemma RemovedSize(a: set<TakoId>, t: TakoId)
    ensures |a| == |a - {t}| + if t in a then 1 else 0
  {
  }

  /** Every task is in exactly one of the five counts. */
  lemma CountsPartition(m: map<TakoId, TaskState>)
    ensures Count(m, StatusWaiting) + Count(m, StatusRunning) + Count(m, StatusFinished)
            + Count(m, StatusFailed) + Count(m, StatusCanceled) == |m|
  {
    hide InStatus;
    var w, r := InStatus(m, StatusWaiting), InStatus(m, StatusRunning);
    var f, x, c := InStatus(m, StatusFinished), InStatus(m, StatusFailed), InStatus(m, StatusCanceled);
    StatusesPartition(m);
    DisjointSize(w, r);
    DisjointSize(w + r, f);
    DisjointSize(w + r + f, x);
    DisjointSize(w + r + f + x, c);
    assert |m.Keys| == |m|;
  }

  lemma StatusesPartition(m: map<TakoId, TaskState>)
    ensures
      var w, r := InStatus(m, StatusWaiting), InStatus(m, StatusRunning);
      var f, x, c := InStatus(m, StatusFinished), InStatus(m, StatusFailed), InStatus(m, StatusCanceled);
      m.Keys == w + r + f + x + c && w !! r && w + r !! f && w + r + f !! x && w + r + f + x !! c
  {
    assert forall t :: t in m ==> TaskStatus(m[t]) in {StatusWaiting, StatusRunning, StatusFinished, StatusFailed, StatusCanceled};
  }

  lemma DisjointSize(a: set<TakoId>, b: set<TakoId>)
    requires a !! b
    ensures |a + b| == |a| + |b|
  {
  }

  lemma CountPositive(m: map<TakoId, TaskState>, st: Status)
    ensures Count(m, st) > 0 <==> exists t :: t in m && TaskStatus(m[t]) == st
  {
    if exists t :: t in m && TaskStatus(m[t]) == st {
      var t :| t in m && TaskStatus(m[t]) == st;
      assert t in InStatus(m, st);
    }
    if Count(m, st) > 0 {
      var t :| t in InStatus(m, st);
    }
  }

  /** The waiting count computed by subtraction is the number of waiting tasks; it never underflows. */
  lemma WaitingIsCounted(j: Job)
    requires Counted(j)
    ensures NWaiting(j.counters, NTasks(j)) == Count(Tasks(j), StatusWaiting)
    ensures IsTerminated(j) <==> AllTerminal(j)
  {
    hide Count, Tasks;
    TasksSize(j);
    var m := Tasks(j);
    CountsPartition(m);
    CountPositive(m, StatusWaiting);
    CountPositive(m, StatusRunning);
    assert IsTerminated(j) <==> Count(m, StatusRunning) == 0 && Count(m, StatusWaiting) == 0;
    assert forall t :: t in m ==> (Terminal(m[t]) <==> TaskStatus(m[t]) != StatusWaiting && TaskStatus(m[t]) != StatusRunning);
  }

  // ---- Transitions keep the invariant --------------------------------------------------------

  /** The counters after a task went from one status to another. */
  function Recount(c: Counters, from: Status, to: Status): Counters
  {
    var d := (st: Status) => (if to == st then 1 else 0) - (if from == st then 1 else 0);
    Counters(c.running + d(StatusRunning), c.finished + d(StatusFinished),
             c.failed + d(StatusFailed), c.canceled + d(StatusCanceled))
  }

  lemma RecountKeepsCounted(j: Job, t: TakoId, s: TaskState)
    requires Counted(j) && t in Tasks(j)
    ensures Counted(SetTask(j, t, s).(counters := Recount(j.counters, TaskStatus(Tasks(j)[t]), TaskStatus(s))))
  {
    hide Count, TaskStatus;
    SetTaskTasks(j, t, s);
    CountUpdate(Tasks(j), t, s, StatusRunning);
    CountUpdate(Tasks(j), t, s, StatusFinished);
    CountUpdate(Tasks(j), t, s, StatusFailed);
    CountUpdate(Tasks(j), t, s, StatusCanceled);
    var j' := SetTask(j, t, s).(counters := Recount(j.counters, TaskStatus(Tasks(j)[t]), TaskStatus(s)));
    assert Tasks(j') == Tasks(SetTask(j, t, s));
  }

  /** What a transition of one task leaves in place. */
  predicate SameJob(j: Job, j': Job)
  {
    && j'.jobId == j.jobId && j'.base == j.base && j'.maxFails == j.maxFails && j'.hasLog == j.hasLog
    && j'.entries == j.entries
    && NTasks(j') == NTasks(j) && j'.state.SingleTask? == j.state.SingleTask? && JobTaskIds(j') == JobTaskIds(j)
  }

  /**
   * The outcome of a legal transition of task `t` to state `s`: the other tasks are untouched, and
   * the stream is unregistered exactly when the job has just been completed.
   */
  ghost predicate Transition(j: Job, t: TakoId, s: TaskState, o: Outcome, now: Date)
    requires t in Tasks(j)
  {
    && o.Done? && SameJob(j, o.job) && JobInv(o.job)
    && Tasks(o.job) == Tasks(j)[t := s]
    && o.job.completion == (if AllTerminal(o.job) then Some(now) else None)
    && o.sent == (if AllTerminal(o.job) && j.hasLog then [Unregister(j.jobId)] else [])
  }

  /** A job with a task that is not terminal has no completion date. */
  lemma OpenJob(j: Job, t: TakoId)
    requires JobInv(j) && t in Tasks(j) && !Terminal(Tasks(j)[t])
    ensures j.completion.None?
  {
  }

  lemma RecountedTask(j: Job, t: TakoId, s: TaskState)
    requires JobInv(j) && t in Tasks(j)
    ensures
      var j' := SetTask(j, t, s).(counters := Recount(j.counters, TaskStatus(Tasks(j)[t]), TaskStatus(s)));
      && SameJob(j, j') && Contiguous(j') && Counted(j')
      && Tasks(j') == Tasks(j)[t := s] && j'.completion == j.completion
  {
    hide Counted;
    RecountKeepsCounted(j, t, s);
    SetTaskTasks(j, t, s);
    var j' := SetTask(j, t, s).(counters := Recount(j.counters, TaskStatus(Tasks(j)[t]), TaskStatus(s)));
    assert Tasks(j') == Tasks(SetTask(j, t, s));
  }

  lemma TerminationChecked(j: Job, now: Date)
    requires Contiguous(j) && Counted(j) && j.completion.None?
    ensures
      var o := CheckTermination(j, now);
      && o.Done? && SameJob(j, o.job) && Tasks(o.job) == Tasks(j) && JobInv(o.job)
      && o.job.completion == (if AllTerminal(o.job) then Some(now) else None)
      && o.sent == (if AllTerminal(o.job) && j.hasLog then [Unregister(j.jobId)] else [])
  {
    hide Count;
    WaitingIsCounted(j);
    var o := CheckTermination(j, now);
    assert Tasks(o.job) == Tasks(j);
  }

  lemma RunningKeeps(j: Job, t: TakoId, w: WorkerId, now: Date)
    requires JobInv(j) && t in Tasks(j)
    ensures
      var o := SetRunning(j, t, w, now);
      if Tasks(j)[t].Waiting? then Transition(j, t, Running(w, now), o, now) else o == Done(j, [])
  {
    hide Count, Tasks;
    if Tasks(j)[t].Waiting? {
      RecountedTask(j, t, Running(w, now));
      OpenJob(j, t);
      var o := SetRunning(j, t, w, now);
      assert !Terminal(Tasks(o.job)[t]);
    }
  }

  lemma WaitingKeeps(j: Job, t: TakoId, now: Date)
    requires JobInv(j) && t in Tasks(j) && Tasks(j)[t].Running?
    ensures Transition(j, t, Waiting, SetWaiting(j, t), now)
  {
    hide Count, Tasks;
    RecountedTask(j, t, Waiting);
    OpenJob(j, t);
    assert !Terminal(Tasks(SetWaiting(j, t).job)[t]);
  }

  lemma FinishedKeeps(j: Job, t: TakoId, now: Date)
    requires JobInv(j) && t in Tasks(j) && Tasks(j)[t].Running?
    ensures var s := Tasks(j)[t]; Transition(j, t, Finished(s.worker, s.startDate, now), SetFinished(j, t, now), now)
  {
    hide Count, Tasks, CheckTermination, Counted;
    var s, c := Tasks(j)[t], j.counters;
    var s' := Finished(s.worker, s.startDate, now);
    RecountedTask(j, t, s');
    OpenJob(j, t);
    TerminationChecked(SetTask(j, t, s').(counters := c.(running := c.running - 1, finished := c.finished + 1)), now);
  }

  lemma FailedKeeps(j: Job, t: TakoId, error: string, now: Date)
    requires JobInv(j) && t in Tasks(j) && Tasks(j)[t].Running?
    ensures var s := Tasks(j)[t]; Transition(j, t, Failed(s.worker, s.startDate, now, error), SetFailed(j, t, error, now), now)
  {
    hide Count, Tasks, CheckTermination, Counted;
    var s, c := Tasks(j)[t], j.counters;
    var s' := Failed(s.worker, s.startDate, now, error);
    RecountedTask(j, t, s');
    OpenJob(j, t);
    TerminationChecked(SetTask(j, t, s').(counters := c.(running := c.running - 1, failed := c.failed + 1)), now);
  }

  lemma CancelKeeps(j: Job, t: TakoId, now: Date)
    requires JobInv(j) && t in Tasks(j) && !Terminal(Tasks(j)[t])
    ensures Transition(j, t, Canceled, SetCancel(j, t, now), now)
  {
    hide Count, Tasks, CheckTermination, Counted;
    var c := j.counters;
    var running := if Tasks(j)[t].Running? then c.running - 1 else c.running;
    RecountedTask(j, t, Canceled);
    OpenJob(j, t);
    TerminationChecked(SetTask(j, t, Canceled).(counters := c.(running := running, canceled := c.canceled + 1)), now);
  }
}
