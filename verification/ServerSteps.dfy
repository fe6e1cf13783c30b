/**
 * What the server does with a message from the backend, on values, and what every such step keeps:
 * the invariants of all jobs, terminal states, completion dates and stream registrations.
 */
module ServerSteps {
  import opened Bytes
  import opened JobModel
  import opened ServerModel

  /** The transitions of a task the server performs. */
  datatype Change = ToRunning(w: WorkerId) | ToWaiting | ToFinished | ToFailed(error: string) | ToCanceled

  function Transit(j: Job, t: TakoId, c: Change, now: Date): Outcome
  {
    match c
    case ToRunning(w) => SetRunning(j, t, w, now)
    case ToWaiting => SetWaiting(j, t)
    case ToFinished => SetFinished(j, t, now)
    case ToFailed(e) => SetFailed(j, t, e, now)
    case ToCanceled => SetCancel(j, t, now)
  }

  /** The state a transition leads to; None where the source panics. */
  function NextState(s: TaskState, c: Change, now: Date): Option<TaskState>
  {
    match c
    case ToRunning(w) => if s.Waiting? then Some(Running(w, now)) else Some(s)
    case ToWaiting => if s.Running? then Some(Waiting) else None
    case ToFinished => if s.Running? then Some(Finished(s.worker, s.startDate, now)) else None
    case ToFailed(e) => if s.Running? then Some(Failed(s.worker, s.startDate, now, e)) else None
    case ToCanceled => if Terminal(s) then None else Some(Canceled)
  }

  function Put(v: Server, id: JobId, o: Outcome): Out
  {
    if o.Panic? then Crash else Out(v.(jobs := v.jobs[id := o.job]), o.sent)
  }

  /** The state of a task after the transition, as far as it is legal. */
  function Changed(v: Server, t: TakoId, c: Change, now: Date): Option<TaskState>
  {
    if View(v, t).Some? then NextState(View(v, t).value, c, now) else None
  }

  /** One task named by the backend: the job is found through the sparse index, and must be found. */
  function ProcessTask(v: Server, t: TakoId, c: Change, now: Date): Out
  {
    var id := JobOf(v, t);
    if id.None? then Crash else Put(v, id.value, Transit(v.jobs[id.value], t, c, now))
  }

  function ProcessAll(v: Server, ts: seq<TakoId>, c: Change, now: Date): Out
  {
    if ts == [] then Out(v, [])
    else
      var before := ProcessAll(v, ts[..|ts| - 1], c, now);
      if before.Crash? then Crash
      else
        var o := ProcessTask(before.v, ts[|ts| - 1], c, now);
        if o.Crash? then Crash else Out(o.v, before.sent + o.sent)
  }

  /** The answer to a cancel request: the job is known by its id, every reported task is canceled. */
  function CancelAll(v: Server, id: JobId, ts: seq<TakoId>, now: Date): Out
  {
    if id !in v.jobs then Crash
    else if ts == [] then Out(v, [])
    else
      var before := CancelAll(v, id, ts[..|ts| - 1], now);
      if before.Crash? || id !in before.v.jobs then Crash
      else
        var o := Put(before.v, id, SetCancel(before.v.jobs[id], ts[|ts| - 1], now));
        if o.Crash? then Crash else Out(o.v, before.sent + o.sent)
  }

  /** `process_worker_new` */
  function WorkerNew(v: Server, w: WorkerId): Out
  {
    if w in v.workers then Crash else Out(v.(workers := v.workers[w := true]), [])
  }

  /** `process_worker_lost` */
  function WorkerLost(v: Server, w: WorkerId, ts: seq<TakoId>): Out
  {
    if w !in v.workers then Crash
    else ProcessAll(v.(workers := v.workers[w := false]), ts, ToWaiting, 0)
  }

  predicate Exceeded(j: Job) { j.maxFails.Some? && j.counters.failed > j.maxFails.value }

  /** The tasks `process_task_failed` asks the backend to cancel: all open ones once too many failed. */
  function ToCancel(v: Server, t: TakoId): set<TakoId>
  {
    var id := JobOf(v, t);
    if id.Some? && Exceeded(v.jobs[id.value]) then NonFinished(v.jobs[id.value]) else {}
  }

  // ---- What a step keeps ---------------------------------------------------------------------

  predicate JobEvolves(j: Job, j': Job)
  {
    && SameJob(j, j') && Tasks(j).Keys == Tasks(j').Keys
    && (forall t :: t in Tasks(j) && Terminal(Tasks(j)[t]) ==> Tasks(j')[t] == Tasks(j)[t])
    && (j.completion.Some? ==> j'.completion == j.completion)
  }

  /** Terminal states, completion dates and the shape of jobs are there to stay. */
  predicate Evolves(v: Server, v': Server)
  {
    v.jobs.Keys <= v'.jobs.Keys && forall id :: id in v.jobs ==> JobEvolves(v.jobs[id], v'.jobs[id])
  }

  lemma EvolvesTrans(a: Server, b: Server, c: Server)
    requires Evolves(a, b) && Evolves(b, c)
    ensures Evolves(a, c)
  {
    hide Tasks, Terminal, SameJob;
    forall id | id in a.jobs ensures JobEvolves(a.jobs[id], c.jobs[id]) {
      JobEvolvesTrans(a.jobs[id], b.jobs[id], c.jobs[id]);
    }
  }

  lemma JobEvolvesTrans(a: Job, b: Job, c: Job)
    requires JobEvolves(a, b) && JobEvolves(b, c)
    ensures JobEvolves(a, c)
  {
    hide Tasks, NTasks;
    forall t | t in Tasks(a) && Terminal(Tasks(a)[t]) ensures Tasks(c)[t] == Tasks(a)[t] {
      assert t in Tasks(b) && Tasks(b)[t] == Tasks(a)[t];
    }
  }

  /** The jobs whose stream is registered. */
  function Registered(v: Server): set<JobId>
  {
    set id | id in v.jobs && v.jobs[id].hasLog && v.jobs[id].completion.None?
  }

  /** The registrations of the stream server after some control messages; None if an assertion fails. */
  function Replay(regs: set<JobId>, sent: seq<Control>): Option<set<JobId>>
  {
    if sent == [] then Some(regs)
    else
      var r := Replay(regs, sent[..|sent| - 1]);
      if r.None? then None
      else match sent[|sent| - 1]
           case Register(id) => if id in r.value then None else Some(r.value + {id})
           case Unregister(id) => if id in r.value then Some(r.value - {id}) else None
  }

  lemma {:induction false} ReplayAppend(regs: set<JobId>, a: seq<Control>, b: seq<Control>)
    ensures Replay(regs, a + b) == if Replay(regs, a).None? then None else Replay(Replay(regs, a).value, b)
  {
    if b == [] {
      assert a + b == a;
    } else {
      ReplayAppend(regs, a, b[..|b| - 1]);
      assert (a + b)[..|a + b| - 1] == a + b[..|b| - 1];
    }
  }

  /** The stream was registered and not unregistered since. */
  predicate OpenIn(sent: seq<Control>, id: JobId)
  {
    exists j :: 0 <= j < |sent| && sent[j] == Register(id) && Unregister(id) !in sent[j..]
  }

  /** What the stream server asserts about a message: it registers a stream that is not open, or closes an open one. */
  predicate Orderly(sent: seq<Control>, k: nat)
    requires k < |sent|
  {
    match sent[k]
    case Register(id) => !OpenIn(sent[..k], id)
    case Unregister(id) => OpenIn(sent[..k], id)
  }

  lemma OpenSnoc(sent: seq<Control>, x: Control, id: JobId)
    ensures OpenIn(sent + [x], id) <==> x == Register(id) || (OpenIn(sent, id) && x != Unregister(id))
  {
    hide OpenIn;
    if x == Register(id) {
      OpensLast(sent, id);
    } else if x == Unregister(id) {
      ClosesLast(sent, id);
    } else {
      OtherLast(sent, x, id);
    }
  }

  lemma OpensLast(sent: seq<Control>, id: JobId)
    ensures OpenIn(sent + [Register(id)], id)
  {
    var all := sent + [Register(id)];
    assert all[|sent|] == Register(id) && all[|sent|..] == [Register(id)];
  }

  lemma ClosesLast(sent: seq<Control>, id: JobId)
    ensures !OpenIn(sent + [Unregister(id)], id)
  {
    var all := sent + [Unregister(id)];
    forall j | 0 <= j < |all| ensures Unregister(id) in all[j..] {
      assert all[j..][|sent| - j] == Unregister(id);
    }
  }

  lemma OtherLast(sent: seq<Control>, x: Control, id: JobId)
    requires x.job != id
    ensures OpenIn(sent + [x], id) <==> OpenIn(sent, id)
  {
    var all := sent + [x];
    forall j | 0 <= j < |sent| ensures all[j] == sent[j] && (Unregister(id) in all[j..] <==> Unregister(id) in sent[j..]) {
      assert all[j..] == sent[j..] + [x];
    }
    if OpenIn(sent, id) {
      var j :| 0 <= j < |sent| && sent[j] == Register(id) && Unregister(id) !in sent[j..];
      assert all[j] == Register(id) && Unregister(id) !in all[j..];
    }
  }

  lemma OrderlySnoc(sent: seq<Control>, x: Control)
    ensures (forall k :: 0 <= k < |sent + [x]| ==> Orderly(sent + [x], k)) <==>
            (forall k :: 0 <= k < |sent| ==> Orderly(sent, k)) && (if x.Register? then !OpenIn(sent, x.job) else OpenIn(sent, x.job))
  {
    hide OpenIn;
    var all := sent + [x];
    assert all[..|sent|] == sent;
    forall k | 0 <= k < |sent| ensures Orderly(all, k) <==> Orderly(sent, k) { assert all[..k] == sent[..k]; }
    assert Orderly(all, |sent|) <==> if x.Register? then !OpenIn(sent, x.job) else OpenIn(sent, x.job);
    if forall k :: 0 <= k < |all| ==> Orderly(all, k) {
      assert forall k :: 0 <= k < |sent| ==> Orderly(all, k);
    }
  }

  /** The assertions hold for a sequence of messages exactly if each message is in order; the open streams are then known. */
  lemma {:induction false} ReplayMeans(sent: seq<Control>)
    ensures Replay({}, sent).Some? <==> forall k :: 0 <= k < |sent| ==> Orderly(sent, k)
    ensures Replay({}, sent).Some? ==> forall id :: id in Replay({}, sent).value <==> OpenIn(sent, id)
  {
    if sent != [] {
      hide OpenIn;
      var init, x := sent[..|sent| - 1], sent[|sent| - 1];
      ReplayMeans(init);
      assert sent == init + [x];
      OrderlySnoc(init, x);
      forall id ensures OpenIn(sent, id) <==> x == Register(id) || (OpenIn(init, id) && x != Unregister(id)) { OpenSnoc(init, x, id); }
    }
  }

  /** A step of the server that touches only task states. */
  ghost predicate Stepped(v: Server, v': Server, sent: seq<Control>)
  {
    && ServerInv(v') && Evolves(v, v') && v'.jobs.Keys == v.jobs.Keys
    && v'.workers == v.workers && v'.jobCounter == v.jobCounter && v'.taskCounter == v.taskCounter
    && Replay(Registered(v), sent) == Some(Registered(v'))
  }

  lemma SteppedTrans(a: Server, b: Server, c: Server, s1: seq<Control>, s2: seq<Control>)
    requires Stepped(a, b, s1) && Stepped(b, c, s2)
    ensures Stepped(a, c, s1 + s2)
  {
    hide ServerInv, Evolves, Registered, Replay;
    EvolvesTrans(a, b, c);
    ReplayAppend(Registered(a), s1, s2);
  }

  lemma SteppedRefl(v: Server)
    requires ServerInv(v)
    ensures Stepped(v, v, [])
  {
    hide ServerInv;
  }

  // ---- One task ------------------------------------------------------------------------------

  /** A transition succeeds exactly where the table of states allows it, and changes only that task. */
  lemma TransitKeeps(j: Job, t: TakoId, c: Change, now: Date)
    requires JobInv(j) && t in Tasks(j)
    ensures
      var o, s := Transit(j, t, c, now), NextState(Tasks(j)[t], c, now);
      && (o.Done? <==> s.Some?)
      && (s.Some? ==>
            && SameJob(j, o.job) && JobInv(o.job) && Tasks(o.job) == Tasks(j)[t := s.value]
            && o.job.completion == (if j.completion.Some? then j.completion
                                    else if AllTerminal(o.job) then Some(now) else None)
            && o.sent == (if j.completion.None? && AllTerminal(o.job) && j.hasLog then [Unregister(j.jobId)] else []))
  {
    hide Tasks, Counted, SetTask, CheckTermination;
    match c
    case ToRunning(w) =>
      RunningKeeps(j, t, w, now);
      if Tasks(j)[t].Waiting? { OpenJob(j, t); } else { assert Tasks(j)[t := Tasks(j)[t]] == Tasks(j); }
    case ToWaiting => if Tasks(j)[t].Running? { WaitingKeeps(j, t, now); OpenJob(j, t); }
    case ToFinished => if Tasks(j)[t].Running? { FinishedKeeps(j, t, now); OpenJob(j, t); }
    case ToFailed(e) => if Tasks(j)[t].Running? { FailedKeeps(j, t, e, now); OpenJob(j, t); }
    case ToCanceled => if !Terminal(Tasks(j)[t]) { CancelKeeps(j, t, now); OpenJob(j, t); }
  }

  /** Replacing a job by a later version of itself keeps the invariant of the server. */
  lemma PutKeeps(v: Server, id: JobId, j': Job)
    requires ServerInv(v) && id in v.jobs && JobInv(j') && SameJob(v.jobs[id], j')
    ensures ServerInv(v.(jobs := v.jobs[id := j']))
    ensures forall t :: JobOf(v.(jobs := v.jobs[id := j']), t) == JobOf(v, t)
  {
    hide JobInv, NTasks;
  }

  lemma TransitEvolves(j: Job, t: TakoId, c: Change, now: Date)
    requires JobInv(j) && t in Tasks(j) && NextState(Tasks(j)[t], c, now).Some?
    ensures JobEvolves(j, Transit(j, t, c, now).job)
  {
    hide Tasks, Transit, JobInv, NTasks, JobTaskIds, AllTerminal;
    TransitKeeps(j, t, c, now);
  }

  lemma ProcessTaskKeeps(v: Server, t: TakoId, c: Change, now: Date)
    requires ServerInv(v) && Changed(v, t, c, now).Some?
    ensures
      var o := ProcessTask(v, t, c, now);
      && o.Out? && Stepped(v, o.v, o.sent)
      && forall u :: View(o.v, u) == if u == t then Changed(v, t, c, now) else View(v, u)
  {
    hide ServerInv, JobOf, NextState, Stepped, Transit, Tasks;
    KnownJob(v, t);
    PutTask(v, JobOf(v, t).value, t, c, now);
  }

  lemma PutTask(v: Server, id: JobId, t: TakoId, c: Change, now: Date)
    requires ServerInv(v) && id in v.jobs && t in Tasks(v.jobs[id])
    requires NextState(Tasks(v.jobs[id])[t], c, now).Some?
    ensures
      var o := Put(v, id, Transit(v.jobs[id], t, c, now));
      && o.Out? && Stepped(v, o.v, o.sent)
      && forall u :: View(o.v, u) == if u == t then NextState(Tasks(v.jobs[id])[t], c, now) else View(v, u)
  {
    hide ServerInv, JobInv, JobOf, NextState, Transit, Evolves, Registered, Replay, View, SameJob, JobEvolves;
    JobInvOf(v, id);
    var j := v.jobs[id];
    TransitKeeps(j, t, c, now);
    TransitEvolves(j, t, c, now);
    var o := Transit(j, t, c, now);
    CompletionShows(o.job);
    PutKeeps(v, id, o.job);
    PutEvolves(v, id, o.job);
    SameJobFields(j, o.job);
    PutRegistered(v, id, o.job, o.sent);
    forall u ensures View(Put(v, id, o).v, u) == if u == t then NextState(Tasks(j)[t], c, now) else View(v, u) {
      PutView(v, id, t, o.job, NextState(Tasks(j)[t], c, now).value, u);
    }
  }

  lemma JobInvOf(v: Server, id: JobId)
    requires ServerInv(v) && id in v.jobs
    ensures JobInv(v.jobs[id]) && v.jobs[id].jobId == id
  {
    hide JobInv;
  }

  lemma CompletionShows(j: Job)
    requires JobInv(j)
    ensures j.completion.Some? <==> AllTerminal(j)
  {
  }

  lemma SameJobFields(j: Job, j': Job)
    requires SameJob(j, j')
    ensures j'.hasLog == j.hasLog && j'.jobId == j.jobId
  {
  }

  lemma PutEvolves(v: Server, id: JobId, j': Job)
    requires id in v.jobs && JobEvolves(v.jobs[id], j')
    ensures Evolves(v, v.(jobs := v.jobs[id := j']))
  {
    hide Tasks, Terminal;
  }

  lemma PutView(v: Server, id: JobId, t: TakoId, j': Job, s: TaskState, u: TakoId)
    requires ServerInv(v) && id in v.jobs && t in Tasks(v.jobs[id]) && JobInv(j') && SameJob(v.jobs[id], j')
    requires Tasks(j') == Tasks(v.jobs[id])[t := s]
    ensures View(v.(jobs := v.jobs[id := j']), u) == if u == t then Some(s) else View(v, u)
  {
    hide ServerInv, JobInv, JobOf, SameJob, Tasks;
    PutKeeps(v, id, j');
    ViewOf(v, t, id);
    var v' := v.(jobs := v.jobs[id := j']);
    assert JobOf(v', u) == JobOf(v, u);
    if JobOf(v, u) == Some(id) {
      assert v'.jobs[id] == j';
    } else if JobOf(v, u).Some? {
      assert v'.jobs[JobOf(v, u).value] == v.jobs[JobOf(v, u).value];
    }
  }

  lemma PutRegistered(v: Server, id: JobId, j': Job, sent: seq<Control>)
    requires ServerInv(v) && id in v.jobs && JobInv(j') && SameJob(v.jobs[id], j')
    requires v.jobs[id].completion.Some? ==> j'.completion == v.jobs[id].completion && sent == []
    requires v.jobs[id].completion.None? ==>
               sent == if j'.completion.Some? && j'.hasLog then [Unregister(id)] else []
    ensures Replay(Registered(v), sent) == Some(Registered(v.(jobs := v.jobs[id := j'])))
  {
    hide ServerInv, JobInv;
    var v' := v.(jobs := v.jobs[id := j']);
    if sent == [] {
      assert Registered(v') == Registered(v);
    } else {
      assert sent[..0] == [];
      assert id in Registered(v);
      assert Registered(v') == Registered(v) - {id};
    }
  }

  // ---- The limit of failures -----------------------------------------------------------------

  /** A change that does not panic has found its task in a state it starts from. */
  lemma OutIsChanged(v: Server, t: TakoId, c: Change, now: Date)
    requires ServerInv(v) && ProcessTask(v, t, c, now).Out?
    ensures Changed(v, t, c, now).Some?
  {
    hide ServerInv, JobInv, JobOf, Transit, NextState, Tasks;
    var id := JobOf(v, t).value;
    LookupIsExact(v, t, id);
    JobInvOf(v, id);
    TransitKeeps(v.jobs[id], t, c, now);
  }

  /**
   * What a failed task makes the server cancel, on the states of the job's tasks: its waiting and
   * running tasks if more tasks have failed than its limit says, and nothing otherwise.
   */
  lemma FailureLimit(v: Server, t: TakoId, id: JobId)
    requires ServerInv(v) && id in v.jobs && t in Tasks(v.jobs[id])
    ensures
      var j := v.jobs[id];
      if j.maxFails.Some? && Count(Tasks(j), StatusFailed) > j.maxFails.value
      then forall u :: u in ToCancel(v, t) <==> u in Tasks(j) && (Tasks(j)[u].Waiting? || Tasks(j)[u].Running?)
      else ToCancel(v, t) == {}
  {
    hide ServerInv, JobOf, Tasks, Count;
    LookupIsExact(v, t, id);
    JobInvOf(v, id);
  }

  /** The same for the list a failure report is answered with. */
  lemma FailureAnswer(v: Server, t: TakoId, e: string, now: Date, cancel: seq<TakoId>)
    requires ServerInv(v) && ProcessTask(v, t, ToFailed(e), now).Out?
    requires forall u :: u in cancel <==> u in ToCancel(ProcessTask(v, t, ToFailed(e), now).v, t)
    ensures
      var after := ProcessTask(v, t, ToFailed(e), now).v;
      forall id :: id in after.jobs && t in Tasks(after.jobs[id]) ==>
        var j := after.jobs[id];
        if j.maxFails.Some? && Count(Tasks(j), StatusFailed) > j.maxFails.value
        then forall u :: u in cancel <==> u in Tasks(j) && (Tasks(j)[u].Waiting? || Tasks(j)[u].Running?)
        else cancel == []
  {
    hide ServerInv, ProcessTask, ToCancel, Tasks, Count, Changed, Evolves, Registered, Replay;
    OutIsChanged(v, t, ToFailed(e), now);
    ProcessTaskKeeps(v, t, ToFailed(e), now);
    var after := ProcessTask(v, t, ToFailed(e), now).v;
    forall id | id in after.jobs && t in Tasks(after.jobs[id])
      ensures
        var j := after.jobs[id];
        if j.maxFails.Some? && Count(Tasks(j), StatusFailed) > j.maxFails.value
        then forall u :: u in cancel <==> u in Tasks(j) && (Tasks(j)[u].Waiting? || Tasks(j)[u].Running?)
        else cancel == []
    {
      FailureLimit(after, t, id);
      if cancel != [] { assert cancel[0] in cancel; }
    }
  }

  // ---- Several tasks -------------------------------------------------------------------------

  /** Tasks that are all in a state the transition starts from can be processed one after another. */
  lemma {:induction false} ProcessAllKeeps(v: Server, ts: seq<TakoId>, c: Change, now: Date)
    requires ServerInv(v) && Distinct(ts)
    requires forall t :: t in ts ==> Changed(v, t, c, now).Some?
    ensures
      var o := ProcessAll(v, ts, c, now);
      && o.Out? && Stepped(v, o.v, o.sent)
      && forall u :: View(o.v, u) == if u in ts then Changed(v, u, c, now) else View(v, u)
  {
    hide ServerInv, Stepped, View, Changed, ProcessTask, Distinct;
    assert ts != [] ==> Distinct(ts[..|ts| - 1]) && ts[|ts| - 1] !in ts[..|ts| - 1] by { DistinctInit(ts); }
    if ts == [] {
      SteppedRefl(v);
    } else {
      var init, t := ts[..|ts| - 1], ts[|ts| - 1];
      ProcessAllKeeps(v, init, c, now);
      var mid := ProcessAll(v, init, c, now);
      assert t in ts && t !in init;
      assert Changed(mid.v, t, c, now) == Changed(v, t, c, now) by { SameChange(v, mid.v, t, c, now); }
      assert ServerInv(mid.v) by { SteppedInv(v, mid.v, mid.sent); }
      ProcessTaskKeeps(mid.v, t, c, now);
      var o := ProcessTask(mid.v, t, c, now);
      SteppedTrans(v, mid.v, o.v, mid.sent, o.sent);
      forall u ensures View(o.v, u) == if u in ts then Changed(v, u, c, now) else View(v, u) {
        assert u in ts <==> u in init || u == t;
      }
    }
  }

  lemma SameChange(v: Server, v': Server, t: TakoId, c: Change, now: Date)
    requires View(v', t) == View(v, t)
    ensures Changed(v', t, c, now) == Changed(v, t, c, now)
  {
    hide View;
  }

  lemma DistinctInit(ts: seq<TakoId>)
    requires Distinct(ts)
    ensures ts != [] ==> Distinct(ts[..|ts| - 1]) && ts[|ts| - 1] !in ts[..|ts| - 1]
  {
  }

  lemma SteppedInv(v: Server, v': Server, sent: seq<Control>)
    requires Stepped(v, v', sent)
    ensures ServerInv(v') && v'.jobs.Keys == v.jobs.Keys
    ensures forall id :: id in v.jobs ==> JobEvolves(v.jobs[id], v'.jobs[id])
  {
  }

  /** The answer to a cancel request, for tasks of one job none of which has ended yet. */
  lemma {:induction false} CancelAllKeeps(v: Server, id: JobId, ts: seq<TakoId>, now: Date)
    requires ServerInv(v) && id in v.jobs && Distinct(ts)
    requires forall t :: t in ts ==> t in Tasks(v.jobs[id]) && !Terminal(Tasks(v.jobs[id])[t])
    ensures
      var o := CancelAll(v, id, ts, now);
      && o.Out? && Stepped(v, o.v, o.sent)
      && forall u :: View(o.v, u) == if u in ts then Some(Canceled) else View(v, u)
  {
    hide ServerInv, Stepped, View, SetCancel, Tasks, Terminal, SameJob, JobOf, Distinct;
    DistinctInit(ts);
    if ts == [] {
      SteppedRefl(v);
    } else {
      var init, t := ts[..|ts| - 1], ts[|ts| - 1];
      CancelAllKeeps(v, id, init, now);
      var mid := CancelAll(v, id, init, now);
      assert t in ts && t !in init;
      SteppedInv(v, mid.v, mid.sent);
      ViewOf(v, t, id);
      assert t in Tasks(mid.v.jobs[id]);
      ViewOf(mid.v, t, id);
      PutTask(mid.v, id, t, ToCanceled, now);
      var o := Put(mid.v, id, SetCancel(mid.v.jobs[id], t, now));
      SteppedTrans(v, mid.v, o.v, mid.sent, o.sent);
      assert ts == init + [t];
    }
  }

  /** The number of tasks a client is told were already finished does not underflow. */
  lemma CanceledAtMostAll(j: Job, ts: seq<TakoId>)
    requires Distinct(ts) && forall t :: t in ts ==> t in Tasks(j)
    ensures |ts| <= NTasks(j)
  {
    TasksSize(j);
    DistinctSize(ts, Tasks(j).Keys);
  }

  lemma {:induction false} DistinctSize(ts: seq<TakoId>, s: set<TakoId>)
    requires Distinct(ts) && forall t :: t in ts ==> t in s
    ensures |ts| <= |s|
  {
    if ts != [] {
      var init, t := ts[..|ts| - 1], ts[|ts| - 1];
      assert t in ts && t !in init;
      DistinctSize(init, s - {t});
    }
  }
}
