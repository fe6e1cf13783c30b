/** The theorems about every run of the server with its backend. */
module ServerTheorems {
  import opened Bytes
  import opened JobModel
  import opened JobStatus
  import opened ServerModel
  import opened ServerSteps
  import opened Backend
  import opened Mirror
  import opened ServerRun
  import opened ServerSafety
  import opened Pairing

  ghost predicate Inv(s: Sys)
  {
    MirrorInv(s) && RequestInv(s) && WorkerInv(s) && ControlInv(s) && CoverInv(s) && PairInv(s)
  }

  lemma InitialInv()
    ensures Inv(Initial())
  {
    var s := Initial();
    NewServerInv();
    forall t ensures !Known(s.v, t) {}
    assert Registered(s.v) == {};
  }

  /** What one action does: no panic, the invariant again, and jobs that only move forward. */
  ghost predicate GoodStep(s: Sys, a: Action)
    requires Enabled(s, a)
  {
    Next(s, a).Some? && Inv(Next(s, a).value) && Evolves(s.v, Next(s, a).value.v)
  }

  lemma SubmitStep(s: Sys, r: SubmitRequest)
    requires Inv(s) && Enabled(s, SubmitJob(r))
    ensures GoodStep(s, SubmitJob(r))
  {
    hide TaskInv, RequestInv, Submit, Evolves, Registered, Replay, CoverInv, ControlInv, Queued, Matched;
    SubmitKeepsMirror(s.v, s.delivered, s.fromTako, s.tako, r);
    SubmitKeepsRequests(s, r);
    SubmitKeepsControl(s, r);
    SubmittedFields(s.v, r);
    var s' := Next(s, SubmitJob(r)).value;
    assert CoverInv(s') by { SubmitKeepsCover(s, r); }
    assert WorkerInv(s') by { SameWorkers(s, s'); }
  }

  lemma SameWorkers(s: Sys, s': Sys)
    requires WorkerInv(s) && s'.v.workers == s.v.workers && s'.fromTako == s.fromTako
    requires s'.nextWorker == s.nextWorker && s'.alive == s.alive
    ensures WorkerInv(s')
  {
    hide ReplayWorker;
    forall w: WorkerId ensures ReplayWorker(WorkerOf(s'.v, w), s'.fromTako, w) == Some(StatusIn(s', w)) {
      assert ReplayWorker(WorkerOf(s.v, w), s.fromTako, w) == Some(StatusIn(s, w));
    }
  }

  lemma SubmitKeepsCover(s: Sys, r: SubmitRequest)
    requires MirrorInv(s) && CoverInv(s) && Enabled(s, SubmitJob(r)) && Next(s, SubmitJob(r)).Some?
    ensures CoverInv(Next(s, SubmitJob(r)).value)
  {
    hide TaskInv, Submit, NonFinished, Covered, ServerInv;
    MirrorServer(s.v, s.delivered, s.fromTako, s.tako);
    SubmitKeeps(s.v, r);
    SubmittedFields(s.v, r);
    var s' := Next(s, SubmitJob(r)).value;
    forall t ensures Covered(s', t) == Covered(s, t) { SameCover(s, s', t); }
    CoverStays(s, s');
  }

  lemma SameCover(s: Sys, s': Sys, t: TakoId)
    requires s'.spawned == s.spawned && s'.toTako == s.toTako && s'.tako == s.tako && s'.refused == s.refused
    ensures Covered(s', t) == Covered(s, t)
  {
  }

  lemma RequestStep(s: Sys, a: Action)
    requires Inv(s) && Enabled(s, a) && (a.SendTasks? || a.ClientCancel? || a.RunCallback?)
    ensures GoodStep(s, a)
  {
    hide TaskInv, RequestInv, Evolves, Registered, Replay, CoverInv, NonFinished, Asked, Queued, Matched;
    var s' := Next(s, a).value;
    EvolvesRefl(s.v);
    assert RequestInv(s') && CoverInv(s') by {
      match a
      case SendTasks(j) =>
        SendTasksKeepsRequests(s, j);
        forall t | Covered(s, t) ensures Covered(s', t) { AskedAppend(s.toTako, NewTasksReq(j, s.unsent[j]), t); }
        EvolvedCover(s, s');
      case ClientCancel(j, order) =>
        if j in s.v.jobs && order != [] {
          assert RequestOk(s.v, CancelReq(j, order)) by { OrderOk(s.v, j, order); }
          CancelReqKeepsRequests(s, s', CancelReq(j, order));
          forall t | Covered(s, t) ensures Covered(s', t) { AskedAppend(s.toTako, CancelReq(j, order), t); }
          EvolvedCover(s, s');
        }
      case RunCallback(k) =>
        CallbackKeepsRequests(s, k);
        assert s.spawned[k].CancelReq? by { SpawnedCancels(s, k); }
        forall t | Covered(s, t) ensures Covered(s', t) {
          AskedAppend(s.toTako, s.spawned[k], t);
          AskedRemove(s.spawned, k, t);
        }
        EvolvedCover(s, s');
    }
    SameWorkers(s, s');
    RequestPairs(s, a);
  }

  lemma RequestPairs(s: Sys, a: Action)
    requires PairInv(s) && RequestInv(s) && Enabled(s, a) && (a.SendTasks? || a.ClientCancel? || a.RunCallback?)
    ensures PairInv(Next(s, a).value)
  {
    hide Queued, Matched, RequestInv, Enumerates, NonFinished;
    match a
    case SendTasks(j) => SendQueues(s.waiting, s.fromTako, s.toTako, Submitter(j), NewTasksReq(j, s.unsent[j]));
    case ClientCancel(j, order) => SendQueues(s.waiting, s.fromTako, s.toTako, Canceler(j), CancelReq(j, order));
    case RunCallback(k) =>
      SpawnedCancels(s, k);
      SendQueues(s.waiting, s.fromTako, s.toTako, Callback(s.spawned[k].job), s.spawned[k]);
  }

  lemma OrderOk(v: Server, j: JobId, order: seq<TakoId>)
    requires j in v.jobs && Enumerates(order, NonFinished(v.jobs[j]))
    ensures RequestOk(v, CancelReq(j, order))
  {
    hide Tasks;
  }

  lemma SpawnedCancels(s: Sys, k: nat)
    requires RequestInv(s) && k < |s.spawned|
    ensures s.spawned[k].CancelReq?
  {
    assert s.spawned[k] in s.spawned;
  }

  // ---- Messages from the backend -------------------------------------------------------------

  /** The server processed the first message of the queue, leaving requests and backend alone. */
  lemma ProcessedStep(s: Sys, s': Sys, v1: Server, sent: seq<Control>)
    requires Inv(s) && s.fromTako != []
    requires s' == s.(v := s'.v, control := s.control + sent, fromTako := s.fromTako[1..])
    requires v1.jobs == s.v.jobs && Stepped(v1, s'.v, sent) && Registered(v1) == Registered(s.v) && Evolves(s.v, v1)
    requires TaskInv(s'.v, s.delivered, s.fromTako[1..], s.tako)
    requires SameFailures(v1, s'.v)
    requires forall w: WorkerId :: FollowWorker(WorkerOf(s.v, w), s.fromTako[0], w) == Some(WorkerOf(s'.v, w))
    requires !IsAnswer(s.fromTako[0])
    ensures Inv(s') && Evolves(s.v, s'.v)
  {
    hide TaskInv, RequestInv, Registered, Replay, CoverInv, ServerInv, Evolves, Queued, Matched;
    ReadQueues(s.waiting, s.fromTako, s.toTako);
    EvolvesTrans(s.v, v1, s'.v);
    RequestsStay(s, s');
    ReplayAppend({}, s.control, sent);
    PopKeepsWorkers(s, s');
    forall t | Covered(s, t) ensures Covered(s', t) {}
    EvolvedCover(s, s');
  }

  lemma TaskEventStep(s: Sys, now: Date, order: seq<TakoId>)
    requires Inv(s) && Enabled(s, Receive(now, order)) && s.fromTako[0].TaskEvent? && !s.fromTako[0].c.ToFailed?
    ensures GoodStep(s, Receive(now, order))
  {
    hide TaskInv, RequestInv, Registered, Replay, CoverInv, ServerInv, Evolves, ProcessTask, Stepped, WorkerInv, Queued, Matched;
    TaskEventKeepsMirror(s, now);
    var e := s.fromTako[0];
    var o := ProcessTask(s.v, e.t, e.c, now);
    ProcessTaskFailures(s.v, e.t, e.c, now);
    EvolvesRefl(s.v);
    SteppedWorkers(s.v, o.v, o.sent);
    ProcessedStep(s, Next(s, Receive(now, order)).value, s.v, o.sent);
  }

  lemma SteppedWorkers(v: Server, v': Server, sent: seq<Control>)
    requires Stepped(v, v', sent)
    ensures v'.workers == v.workers && Evolves(v, v') && ServerInv(v')
    ensures Replay(Registered(v), sent) == Some(Registered(v'))
  {
  }

  /** A failure: the state is processed and, beyond the limit, a cancel callback is spawned. */
  lemma FailureStep(s: Sys, now: Date, order: seq<TakoId>)
    requires Inv(s) && Enabled(s, Receive(now, order)) && s.fromTako[0].TaskEvent? && s.fromTako[0].c.ToFailed?
    ensures GoodStep(s, Receive(now, order))
  {
    hide TaskInv, RequestInv, Registered, Replay, CoverInv, ServerInv, Evolves, ProcessTask, Stepped, WorkerInv, ToCancel, CancelSet;
    hide Queued, Matched;
    ReadQueues(s.waiting, s.fromTako, s.toTako);
    TaskEventKeepsMirror(s, now);
    FailureKeepsCover(s, now, order);
    var e := s.fromTako[0];
    var o := ProcessTask(s.v, e.t, e.c, now);
    var s' := Next(s, Receive(now, order)).value;
    SteppedWorkers(s.v, o.v, o.sent);
    SteppedKeepsControl(s, o.v, o.sent);
    var s1 := s.(v := o.v, control := s.control + o.sent, fromTako := s.fromTako[1..]);
    RequestsStay(s, s1);
    assert RequestInv(s') by {
      if ToCancel(o.v, e.t) != {} {
        CallbackOk(s, now, order);
        SpawnKeepsRequests(s1, s', CancelReq(JobOf(o.v, e.t).value, order));
      }
    }
    PopKeepsWorkers(s, s');
  }

  lemma CallbackOk(s: Sys, now: Date, order: seq<TakoId>)
    requires Enabled(s, Receive(now, order)) && s.fromTako[0].TaskEvent? && s.fromTako[0].c.ToFailed?
    requires ProcessTask(s.v, s.fromTako[0].t, s.fromTako[0].c, now).Out?
    requires ToCancel(ProcessTask(s.v, s.fromTako[0].t, s.fromTako[0].c, now).v, s.fromTako[0].t) != {}
    ensures
      var v' := ProcessTask(s.v, s.fromTako[0].t, s.fromTako[0].c, now).v;
      JobOf(v', s.fromTako[0].t).Some? && RequestOk(v', CancelReq(JobOf(v', s.fromTako[0].t).value, order))
  {
    hide ProcessTask, JobOf, Exceeded, Tasks;
    var v' := ProcessTask(s.v, s.fromTako[0].t, s.fromTako[0].c, now).v;
    OrderOk(v', JobOf(v', s.fromTako[0].t).value, order);
  }

  lemma WorkerStep(s: Sys, now: Date, order: seq<TakoId>)
    requires Inv(s) && Enabled(s, Receive(now, order)) && (s.fromTako[0].NewWorker? || s.fromTako[0].LostWorker?)
    ensures GoodStep(s, Receive(now, order))
  {
    hide TaskInv, RequestInv, Registered, Replay, CoverInv, ServerInv, Evolves, ProcessAll, Stepped, WorkerInv, Queued, Matched;
    WorkerEventIsLegal(s);
    var e := s.fromTako[0];
    if e.NewWorker? {
      var v1 := s.v.(workers := s.v.workers[e.w := true]);
      WorkersDoNotMatter(s.v, v1.workers);
      NewWorkerKeepsMirror(s, v1.workers);
      SteppedRefl(v1);
      assert s.control + [] == s.control;
      ProcessedStep(s, Next(s, Receive(now, order)).value, v1, []);
    } else {
      LostWorkerKeepsMirror(s);
      var v1 := s.v.(workers := s.v.workers[e.w := false]);
      WorkersDoNotMatter(s.v, v1.workers);
      var o := WorkerLost(s.v, e.w, e.ts);
      ProcessAllFailures(v1, e.ts, ToWaiting, 0);
      SteppedWorkers(v1, o.v, o.sent);
      ProcessedStep(s, Next(s, Receive(now, order)).value, v1, o.sent);
    }
  }

  lemma NewWorkerKeepsMirror(s: Sys, workers: map<WorkerId, bool>)
    requires MirrorInv(s) && s.fromTako != [] && s.fromTako[0].NewWorker?
    ensures ServerInv(s.v.(workers := workers))
    ensures TaskInv(s.v.(workers := workers), s.delivered, s.fromTako[1..], s.tako)
  {
    hide ServerInv, View, Mirrored, EventOk, Changed, Evolves;
    WorkersKeepMirror(s.v, workers, s.delivered, s.fromTako, s.tako);
    var v1 := s.v.(workers := workers);
    HeadRemoved(s.delivered, s.fromTako);
    EvolvesRefl(v1);
    ApplyKeeps(v1, s.delivered, s.fromTako, s.tako, |s.delivered|, v1, s.delivered, s.fromTako[1..], 0);
  }

  /** An answer is handed to the task that waits for it, which does not change any state yet. */
  lemma ResponseStep(s: Sys, now: Date, order: seq<TakoId>)
    requires Inv(s) && Enabled(s, Receive(now, order)) && IsAnswer(s.fromTako[0])
    ensures GoodStep(s, Receive(now, order))
  {
    hide TaskInv, RequestInv, Registered, Replay, CoverInv, ServerInv, Evolves, WorkerInv, Queued;
    ReadQueues(s.waiting, s.fromTako, s.toTako);
    var s' := Next(s, Receive(now, order)).value;
    EvolvesRefl(s.v);
    ResponseKeepsMirror(s, s');
    RequestsStay(s, s');
    PopKeepsWorkers(s, s');
    assert SameFailures(s.v, s'.v);
    forall t | Covered(s, t) ensures Covered(s', t) {}
    EvolvedCover(s, s');
  }

  lemma ResponseKeepsMirror(s: Sys, s': Sys)
    requires MirrorInv(s) && s.fromTako != [] && IsAnswer(s.fromTako[0])
    requires s'.v == s.v && s'.tako == s.tako && s'.fromTako == s.fromTako[1..]
    requires s'.delivered == s.delivered + (if s.fromTako[0].CancelResponse? then [s.fromTako[0]] else [])
    ensures MirrorInv(s')
  {
    hide ServerInv, View, Mirrored, EventOk, Changed, Evolves;
    var e := s.fromTako[0];
    if e.CancelResponse? {
      assert s'.delivered + s'.fromTako == s.delivered + s.fromTako;
    } else {
      assert s'.delivered == s.delivered;
      HeadRemoved(s.delivered, s.fromTako);
      EvolvesRefl(s.v);
      ApplyKeeps(s.v, s.delivered, s.fromTako, s.tako, |s.delivered|, s.v, s.delivered, s.fromTako[1..], 0);
    }
  }

  lemma WakeStep(s: Sys, k: nat, now: Date)
    requires Inv(s) && Enabled(s, Wake(k, now))
    ensures GoodStep(s, Wake(k, now))
  {
    hide TaskInv, RequestInv, Registered, Replay, CoverInv, ServerInv, Evolves, CancelAll, Stepped, WorkerInv, Queued;
    WakeKeepsMirror(s, k, now);
    WakeMatches(s.delivered, s.woken, k);
    var e := s.delivered[k];
    var o := CancelAll(s.v, e.job, e.ts, now);
    assert s.woken[k].job == e.job;
    SteppedWorkers(s.v, o.v, o.sent);
    EvolvedSize(s.v, o.v, e.job);
    var s' := Next(s, Wake(k, now)).value;
    SteppedKeepsControl(s, o.v, o.sent);
    RequestsStay(s, s');
    SameWorkers(s, s');
    CancelAllFailures(s.v, e.job, e.ts, now);
    forall t | Covered(s, t) ensures Covered(s', t) {}
    EvolvedCover(s, s');
  }

  lemma EvolvedSize(v: Server, v': Server, id: JobId)
    requires Evolves(v, v') && id in v.jobs
    ensures id in v'.jobs && NTasks(v'.jobs[id]) == NTasks(v.jobs[id])
  {
    hide Tasks, NTasks, JobTaskIds;
  }

  // ---- The backend ---------------------------------------------------------------------------

  lemma BackendStep(s: Sys, a: Action)
    requires Inv(s) && Enabled(s, a)
    requires a.StartTask? || a.ChangeTask? || a.ConnectWorker? || a.LoseWorker? || a.Serve? || a.Refuse?
    ensures GoodStep(s, a)
  {
    hide TaskInv, RequestInv, Registered, Replay, CoverInv, ServerInv, Evolves, WorkerInv, Queued, Matched;
    BackendKeepsMirror(s, a);
    BackendPairs(s, a);
    var s' := Next(s, a).value;
    EvolvesRefl(s.v);
    BackendKeepsWorkers(s, a);
    if a.Serve? {
      ServeKeepsRequests(s);
      ServeKeepsCover(s, a);
    } else if a.Refuse? {
      RefuseKeepsRequests(s);
      ServeKeepsCover(s, a);
    } else {
      RequestsStay(s, s');
      assert SameFailures(s.v, s'.v);
      BackendKeepsCovered(s, a);
      EvolvedCover(s, s');
    }
  }

  lemma BackendPairs(s: Sys, a: Action)
    requires PairInv(s) && Enabled(s, a)
    requires a.StartTask? || a.ChangeTask? || a.ConnectWorker? || a.LoseWorker? || a.Serve? || a.Refuse?
    ensures PairInv(Next(s, a).value)
  {
    hide Queued, Matched, SetPhases, Cancelables, Enumerates;
    var s' := Next(s, a).value;
    EmitQueues(s.waiting, s.fromTako, s.toTako, s'.fromTako[|s.fromTako|]);
    assert s'.fromTako == s.fromTako + [s'.fromTako[|s.fromTako|]];
  }

  /** A task the backend has ended is never started again. */
  lemma BackendKeepsCovered(s: Sys, a: Action)
    requires Enabled(s, a) && (a.StartTask? || a.ChangeTask? || a.ConnectWorker? || a.LoseWorker?)
    ensures forall t :: Covered(s, t) ==> Covered(Next(s, a).value, t)
  {
    hide Asked;
  }

  lemma BackendKeepsWorkers(s: Sys, a: Action)
    requires WorkerInv(s) && Enabled(s, a)
    requires a.StartTask? || a.ChangeTask? || a.ConnectWorker? || a.LoseWorker? || a.Serve? || a.Refuse?
    ensures WorkerInv(Next(s, a).value)
  {
    hide ReplayWorker, SetPhases, Cancelables;
    var s' := Next(s, a).value;
    var e := s'.fromTako[|s.fromTako|];
    assert s'.fromTako == s.fromTako + [e];
    EmitKeepsWorkers(s, s', e);
  }

  // ---- Every action --------------------------------------------------------------------------

  /** In every state that satisfies the invariant, every possible action is safe. */
  lemma SafeStep(s: Sys, a: Action)
    requires Inv(s) && Enabled(s, a)
    ensures GoodStep(s, a)
  {
    hide Inv, GoodStep, Enumerates, CancelSet, NonFinished;
    match a
    case SubmitJob(r) => SubmitStep(s, r);
    case SendTasks(_) => RequestStep(s, a);
    case ClientCancel(_, _) => RequestStep(s, a);
    case RunCallback(_) => RequestStep(s, a);
    case Receive(now, order) =>
      var e := s.fromTako[0];
      if e.TaskEvent? {
        if e.c.ToFailed? { FailureStep(s, now, order); } else { TaskEventStep(s, now, order); }
      } else if e.NewWorker? || e.LostWorker? {
        WorkerStep(s, now, order);
      } else {
        ResponseStep(s, now, order);
      }
    case Wake(k, now) => WakeStep(s, k, now);
    case _ => BackendStep(s, a);
  }

  // ---- Whole runs ----------------------------------------------------------------------------

  /** No run of clients, backend and delayed answers makes the server panic. */
  lemma {:induction false} RunNeverPanics(run: seq<Action>)
    ensures !Exec(Initial(), run).Panicked?
    ensures Exec(Initial(), run).At? ==> Inv(Exec(Initial(), run).s)
  {
    hide Inv, Enabled, Next;
    if run == [] {
      InitialInv();
    } else {
      var init := run[..|run| - 1];
      RunNeverPanics(init);
      var before := Exec(Initial(), init);
      if before.At? && Enabled(before.s, run[|run| - 1]) { SafeStep(before.s, run[|run| - 1]); }
    }
  }

  /**
   * Over every run: a task that has finished, failed or been canceled stays exactly as it is, a
   * completion date once set never changes, and a job never loses or gains tasks.
   */
  lemma {:induction false} RunEvolves(run: seq<Action>, n: nat)
    requires Exec(Initial(), run).At? && n <= |run|
    ensures Exec(Initial(), run[..n]).At?
    ensures Evolves(Exec(Initial(), run[..n]).s.v, Exec(Initial(), run).s.v)
  {
    hide Inv, Enabled, Next, Evolves;
    if n == |run| {
      assert run[..n] == run;
      EvolvesRefl(Exec(Initial(), run).s.v);
    } else {
      var init, a := run[..|run| - 1], run[|run| - 1];
      assert init[..n] == run[..n];
      RunEvolves(init, n);
      RunNeverPanics(init);
      var before := Exec(Initial(), init).s;
      SafeStep(before, a);
      EvolvesTrans(Exec(Initial(), run[..n]).s.v, before.v, Exec(Initial(), run).s.v);
    }
  }

  /**
   * In every reachable state every job's counters count its tasks, the status computed from them is
   * the documented one, and the completion date is there exactly when all tasks are terminal.
   */
  lemma RunCounts(run: seq<Action>, id: JobId)
    requires Exec(Initial(), run).At? && id in Exec(Initial(), run).s.v.jobs
    ensures
      var j := Exec(Initial(), run).s.v.jobs[id];
      && Counted(j) && NWaiting(j.counters, NTasks(j)) == Count(Tasks(j), StatusWaiting)
      && StatusOf(MakeJobInfo(j)) == Some(FiveRules(Tasks(j)))
      && (j.completion.Some? <==> AllTerminal(j))
  {
    hide Exec, RequestInv, WorkerInv, ControlInv, CoverInv, Mirrored, EventOk, Count, Tasks;
    RunNeverPanics(run);
    var s := Exec(Initial(), run).s;
    JobInvOf(s.v, id);
    WaitingIsCounted(s.v.jobs[id]);
    StatusIsFiveRules(s.v.jobs[id]);
  }

  /** In every reachable state the lookup by task id finds exactly the job that has the task. */
  lemma RunLookup(run: seq<Action>, t: TakoId, id: JobId)
    requires Exec(Initial(), run).At?
    ensures
      var v := Exec(Initial(), run).s.v;
      JobOf(v, t) == Some(id) <==> id in v.jobs && t in Tasks(v.jobs[id])
  {
    hide Exec, RequestInv, WorkerInv, ControlInv, CoverInv, Mirrored, EventOk;
    RunNeverPanics(run);
    LookupIsExact(Exec(Initial(), run).s.v, t, id);
  }

  /**
   * In every reachable state the server's view of a task, brought up to date by the answers and
   * messages in flight, is the backend's view.
   */
  lemma RunMirrors(run: seq<Action>, t: TakoId)
    requires Exec(Initial(), run).At?
    ensures
      var s := Exec(Initial(), run).s;
      Known(s.v, t) ==> ReplayTask(Abs(View(s.v, t).value), Chain(s), t) == Some(PhaseOf(s.tako, t))
  {
    hide Exec, RequestInv, WorkerInv, ControlInv, CoverInv, EventOk, ServerInv, View;
    RunNeverPanics(run);
    var s := Exec(Initial(), run).s;
    assert Mirrored(s.v, Chain(s), s.tako, t);
  }

  /**
   * In every reachable state the tasks of the server that wait for an answer are, in order, those whose
   * answers and then those whose requests are under way, and every woken one has the answer to the
   * request of its own job, although answers carry no id.
   */
  lemma RunPairsAnswers(run: seq<Action>)
    requires Exec(Initial(), run).At?
    ensures
      var s := Exec(Initial(), run).s;
      && WaiterTags(s.waiting) == AnswerTags(s.fromTako) + RequestTags(s.toTako)
      && |s.woken| == |s.delivered|
      && forall k :: 0 <= k < |s.woken| ==> s.delivered[k].CancelResponse? && s.woken[k].job == s.delivered[k].job
  {
    hide Exec, RequestInv, WorkerInv, ControlInv, CoverInv, TaskInv, WaiterTags, AnswerTags, RequestTags;
    RunNeverPanics(run);
  }

  /**
   * In every reachable state the server knows a worker exactly if it has ever connected, and as online
   * exactly if it is alive in the backend, unless a message about this worker is still under way.
   */
  lemma RunWorkers(run: seq<Action>, w: WorkerId)
    requires Exec(Initial(), run).At?
    requires forall e :: e in Exec(Initial(), run).s.fromTako && (e.NewWorker? || e.LostWorker?) ==> e.w != w
    ensures
      var s := Exec(Initial(), run).s;
      && (w in s.v.workers <==> w < s.nextWorker)
      && (w in s.v.workers ==> (s.v.workers[w] <==> w in s.alive))
  {
    hide Exec, RequestInv, ControlInv, CoverInv, TaskInv, ReplayWorker;
    RunNeverPanics(run);
    var s := Exec(Initial(), run).s;
    QuietWorker(WorkerOf(s.v, w), s.fromTako, w);
  }

  /**
   * Over every run the messages to the stream server satisfy its assertions: a stream is registered
   * once, unregistered at most once and only afterwards, and it is registered exactly while its job
   * is not complete.
   */
  lemma RunRegisters(run: seq<Action>)
    requires Exec(Initial(), run).At?
    ensures
      var s := Exec(Initial(), run).s;
      && Replay({}, s.control) == Some(Registered(s.v))
      && (forall k :: 0 <= k < |s.control| ==> Orderly(s.control, k))
      && (forall j, k :: 0 <= j < k < |s.control| && s.control[j].Register? ==> s.control[k] != s.control[j])
      && (forall id :: OpenIn(s.control, id) <==> id in s.v.jobs && s.v.jobs[id].hasLog && s.v.jobs[id].completion.None?)
  {
    hide Exec, RequestInv, WorkerInv, CoverInv, TaskInv, Replay, Orderly, OpenIn;
    RunNeverPanics(run);
    ReplayMeans(Exec(Initial(), run).s.control);
    RegisteredOnce(run);
  }

  /** The registered jobs exist, and none is registered twice. */
  predicate OnceEach(s: Sys)
  {
    && (forall x :: x in s.control && x.Register? ==> x.job in s.v.jobs)
    && (forall j, k :: 0 <= j < k < |s.control| && s.control[j].Register? ==> s.control[k] != s.control[j])
  }

  lemma {:induction false} RegisteredOnce(run: seq<Action>)
    requires Exec(Initial(), run).At?
    ensures OnceEach(Exec(Initial(), run).s)
  {
    if run != [] {
      hide Inv, Next, Enabled, Evolves;
      var init, a := run[..|run| - 1], run[|run| - 1];
      RegisteredOnce(init);
      RunNeverPanics(init);
      SafeStep(Exec(Initial(), init).s, a);
      OnceStep(Exec(Initial(), init).s, a);
    }
  }

  lemma OnceStep(s: Sys, a: Action)
    requires Inv(s) && OnceEach(s) && Enabled(s, a) && Next(s, a).Some? && Evolves(s.v, Next(s, a).value.v)
    ensures OnceEach(Next(s, a).value)
  {
    hide Inv, JobEvolves;
    var s' := Next(s, a).value;
    if a.SubmitJob? {
      hide Next, Enabled;
      SubmitRegisters(s, a.r);
    } else {
      hide Next, Enabled;
      var more := OnlyUnregisters(s, a);
      OnceExtends(s, s', more);
    }
  }

  lemma OnceExtends(s: Sys, s': Sys, more: seq<Control>)
    requires OnceEach(s) && s'.control == s.control + more && s.v.jobs.Keys <= s'.v.jobs.Keys
    requires forall x :: x in more ==> x.Unregister?
    ensures OnceEach(s')
  {
    forall j, k | 0 <= j < k < |s'.control| && s'.control[j].Register? ensures s'.control[k] != s'.control[j] {
      if k >= |s.control| {
        assert s'.control[k] in more;
      } else {
        assert s'.control[j] == s.control[j] && s'.control[k] == s.control[k];
      }
    }
  }

  lemma SubmitRegisters(s: Sys, r: SubmitRequest)
    requires Inv(s) && OnceEach(s) && Enabled(s, SubmitJob(r)) && Next(s, SubmitJob(r)).Some?
    requires Evolves(s.v, Next(s, SubmitJob(r)).value.v)
    ensures OnceEach(Next(s, SubmitJob(r)).value)
  {
    hide TaskInv, RequestInv, WorkerInv, CoverInv, ControlInv, PairInv, Submit, ServerInv, JobEvolves;
    MirrorServer(s.v, s.delivered, s.fromTako, s.tako);
    SubmitKeeps(s.v, r);
  }

  /** Apart from submissions, the server only ever unregisters streams. */
  lemma OnlyUnregisters(s: Sys, a: Action) returns (more: seq<Control>)
    requires Enabled(s, a) && Next(s, a).Some? && !a.SubmitJob?
    ensures Next(s, a).value.control == s.control + more && forall x :: x in more ==> x.Unregister?
  {
    hide ProcessTask, ProcessAll, CancelAll, ToCancel, CancelSet, Enumerates, Follow, Cancelables, SetPhases, NonFinished;
    more := [];
    assert s.control + more == s.control;
    match a
    case Receive(now, order) =>
      var e := s.fromTako[0];
      if e.TaskEvent? {
        more := ProcessTask(s.v, e.t, e.c, now).sent;
        ProcessSends(s.v, e.t, e.c, now);
      } else if e.LostWorker? {
        more := WorkerLost(s.v, e.w, e.ts).sent;
        ProcessAllSends(s.v.(workers := s.v.workers[e.w := false]), e.ts, ToWaiting, 0);
      }
    case Wake(k, now) =>
      more := CancelAll(s.v, s.woken[k].job, s.delivered[k].ts, now).sent;
      CancelAllSends(s.v, s.woken[k].job, s.delivered[k].ts, now);
    case _ =>
  }

  lemma TransitSends(j: Job, t: TakoId, c: Change, now: Date)
    requires Transit(j, t, c, now).Done?
    ensures forall x :: x in Transit(j, t, c, now).sent ==> x.Unregister?
  {
    hide Tasks, SetTask;
  }

  lemma ProcessSends(v: Server, t: TakoId, c: Change, now: Date)
    requires ProcessTask(v, t, c, now).Out?
    ensures forall x :: x in ProcessTask(v, t, c, now).sent ==> x.Unregister?
  {
    hide JobOf, Transit;
    TransitSends(v.jobs[JobOf(v, t).value], t, c, now);
  }

  lemma {:induction false} ProcessAllSends(v: Server, ts: seq<TakoId>, c: Change, now: Date)
    requires ProcessAll(v, ts, c, now).Out?
    ensures forall x :: x in ProcessAll(v, ts, c, now).sent ==> x.Unregister?
  {
    hide ProcessTask;
    if ts != [] {
      ProcessAllSends(v, ts[..|ts| - 1], c, now);
      ProcessSends(ProcessAll(v, ts[..|ts| - 1], c, now).v, ts[|ts| - 1], c, now);
    }
  }

  lemma {:induction false} CancelAllSends(v: Server, id: JobId, ts: seq<TakoId>, now: Date)
    requires CancelAll(v, id, ts, now).Out?
    ensures forall x :: x in CancelAll(v, id, ts, now).sent ==> x.Unregister?
  {
    hide SetCancel;
    if ts != [] {
      CancelAllSends(v, id, ts[..|ts| - 1], now);
      TransitSends(CancelAll(v, id, ts[..|ts| - 1], now).v.jobs[id], ts[|ts| - 1], ToCanceled, now);
    }
  }

  /**
   * In every reachable state the assertions of the handlers hold for what comes next: a new worker is
   * unknown, a lost one known, and the answer to a cancel request names an existing job and no more
   * tasks than it has, so that the number of tasks already finished does not underflow.
   */
  lemma RunMeetsAssertions(run: seq<Action>)
    requires Exec(Initial(), run).At?
    ensures
      var s := Exec(Initial(), run).s;
      && (s.fromTako != [] && s.fromTako[0].NewWorker? ==> s.fromTako[0].w !in s.v.workers)
      && (s.fromTako != [] && s.fromTako[0].LostWorker? ==> s.fromTako[0].w in s.v.workers)
      && (forall e :: e in s.delivered ==> e.CancelResponse? && e.job in s.v.jobs && |e.ts| <= NTasks(s.v.jobs[e.job]))
  {
    hide Exec, RequestInv, WorkerInv, ControlInv, CoverInv, TaskInv, NTasks, CancelAll, Stepped;
    RunNeverPanics(run);
    var s := Exec(Initial(), run).s;
    if s.fromTako != [] { WorkerEventIsLegal(s); }
    forall e | e in s.delivered ensures e.CancelResponse? && e.job in s.v.jobs && |e.ts| <= NTasks(s.v.jobs[e.job]) {
      var k :| 0 <= k < |s.delivered| && s.delivered[k] == e;
      WakeKeepsMirror(s, k, 0);
    }
  }

  /**
   * From the moment the failures of a job exceed its limit, in every later state each of its tasks
   * that the server still sees waiting or running has a cancel request under way or is already over
   * in the backend (or was never given to it), unless the backend refused the request.
   */
  lemma RunCancelsRest(run: seq<Action>, id: JobId, t: TakoId, m: nat)
    requires Exec(Initial(), run).At? && id in Exec(Initial(), run).s.v.jobs
    requires
      var j := Exec(Initial(), run).s.v.jobs[id];
      && j.maxFails == Some(m) && Count(Tasks(j), StatusFailed) > m
      && t in Tasks(j) && (Tasks(j)[t].Waiting? || Tasks(j)[t].Running?)
    ensures Covered(Exec(Initial(), run).s, t)
  {
    hide Exec, RequestInv, WorkerInv, ControlInv, TaskInv, Covered, Tasks, Count, StatusOf, FiveRules;
    RunNeverPanics(run);
    RunCounts(run, id);
  }

  /**
   * The converse, at every step of every run. A message from the backend makes the server issue a
   * cancel request exactly if it is a failure after which the job has more failed tasks than its
   * limit says and still has open ones; then it is one request, naming exactly these. No other
   * action issues one of its own accord.
   */
  lemma RunSpawns(run: seq<Action>, a: Action)
    requires Exec(Initial(), run).At? && Enabled(Exec(Initial(), run).s, a)
    ensures
      var s := Exec(Initial(), run).s;
      Next(s, a).Some? &&
      var s' := Next(s, a).value;
      if a.RunCallback? then
        s'.spawned == s.spawned[..a.k] + s.spawned[a.k + 1..]
      else if a.Receive? && s.fromTako[0].TaskEvent? && s.fromTako[0].c.ToFailed? then
        exists id :: id in s'.v.jobs && s.fromTako[0].t in Tasks(s'.v.jobs[id]) && SpawnedFor(s'.v.jobs[id], s.spawned, s'.spawned)
      else
        s'.spawned == s.spawned
  {
    hide Exec, Inv, Tasks, SpawnedFor;
    RunNeverPanics(run);
    var s := Exec(Initial(), run).s;
    SafeStep(s, a);
    if a.Receive? && s.fromTako[0].TaskEvent? && s.fromTako[0].c.ToFailed? {
      var id := FailureSpawns(s, a.now, a.order);
    } else {
      OthersSpawnNothing(s, a);
    }
  }

  lemma OthersSpawnNothing(s: Sys, a: Action)
    requires Enabled(s, a) && Next(s, a).Some?
    requires !(a.Receive? && s.fromTako[0].TaskEvent? && s.fromTako[0].c.ToFailed?)
    ensures Next(s, a).value.spawned == if a.RunCallback? then s.spawned[..a.k] + s.spawned[a.k + 1..] else s.spawned
  {
    hide Submit, ProcessTask, ProcessAll, CancelAll, ToCancel, CancelSet, Enumerates, Follow, Cancelables, SetPhases, NonFinished;
  }

  lemma FailureSpawns(s: Sys, now: Date, order: seq<TakoId>) returns (id: JobId)
    requires Inv(s) && Enabled(s, Receive(now, order)) && Next(s, Receive(now, order)).Some?
    requires s.fromTako[0].TaskEvent? && s.fromTako[0].c.ToFailed?
    ensures
      var s' := Next(s, Receive(now, order)).value;
      id in s'.v.jobs && s.fromTako[0].t in Tasks(s'.v.jobs[id]) && SpawnedFor(s'.v.jobs[id], s.spawned, s'.spawned)
  {
    hide TaskInv, RequestInv, WorkerInv, ControlInv, CoverInv, ProcessTask, ToCancel, Tasks, Count, JobOf, ServerInv, Stepped, SpawnedFor;
    TaskEventKeepsMirror(s, now);
    MirrorServer(s.v, s.delivered, s.fromTako, s.tako);
    var e := s.fromTako[0];
    var o := ProcessTask(s.v, e.t, e.c, now);
    SteppedWorkers(s.v, o.v, o.sent);
    id := ChangedJob(s.v, e.t, e.c, now);
    LookupIsExact(o.v, e.t, id);
    FailureLimit(o.v, e.t, id);
    JobInvOf(o.v, id);
    SpawnsOpen(o.v.jobs[id], ToCancel(o.v, e.t), order, s.spawned, Next(s, Receive(now, order)).value.spawned);
  }

  lemma ChangedJob(v: Server, t: TakoId, c: Change, now: Date) returns (id: JobId)
    requires ServerInv(v) && ProcessTask(v, t, c, now).Out? && Evolves(v, ProcessTask(v, t, c, now).v)
    ensures id in ProcessTask(v, t, c, now).v.jobs && t in Tasks(ProcessTask(v, t, c, now).v.jobs[id])
  {
    hide ServerInv, JobOf, Transit, Tasks, SameJob;
    id := JobOf(v, t).value;
    LookupIsExact(v, t, id);
    assert JobEvolves(v.jobs[id], ProcessTask(v, t, c, now).v.jobs[id]);
  }

  /** A cancel request issued by the server: the job still has more failed tasks than its limit says. */
  predicate Due(v: Server, q: Request)
  {
    && q.CancelReq? && q.job in v.jobs
    && v.jobs[q.job].maxFails.Some? && Count(Tasks(v.jobs[q.job]), StatusFailed) > v.jobs[q.job].maxFails.value
    && forall t :: t in q.ts ==> t in Tasks(v.jobs[q.job])
  }

  /** In every reachable state, each cancel request the server has issued itself is for a job over its limit. */
  lemma {:induction false} RunCancelsOnlyOver(run: seq<Action>)
    requires Exec(Initial(), run).At?
    ensures
      var s := Exec(Initial(), run).s;
      forall q :: q in s.spawned ==> Due(s.v, q)
  {
    hide Inv, Due, Next, Enabled;
    if run != [] {
      RunCancelsOnlyOver(run[..|run| - 1]);
      DueStep(run[..|run| - 1], run[|run| - 1]);
    }
  }

  lemma DueStep(run: seq<Action>, a: Action)
    requires Exec(Initial(), run).At? && Enabled(Exec(Initial(), run).s, a)
    requires forall q :: q in Exec(Initial(), run).s.spawned ==> Due(Exec(Initial(), run).s.v, q)
    ensures
      var r := Next(Exec(Initial(), run).s, a);
      r.Some? && forall q :: q in r.value.spawned ==> Due(r.value.v, q)
  {
    hide Exec, Inv, Due, Next, Evolves, SpawnedFor, Tasks, Enumerates, CancelSet, NonFinished;
    RunNeverPanics(run);
    RunSpawns(run, a);
    var s := Exec(Initial(), run).s;
    SafeStep(s, a);
    var s' := Next(s, a).value;
    if a.Receive? && s.fromTako[0].TaskEvent? && s.fromTako[0].c.ToFailed? {
      var id :| id in s'.v.jobs && SpawnedFor(s'.v.jobs[id], s.spawned, s'.spawned);
      InvServer(s', id);
      forall q | q in s'.spawned ensures Due(s'.v, q) {
        if q in s.spawned { DueStays(s.v, s'.v, q); } else { NewIsDue(s'.v, id, s.spawned, s'.spawned, q); }
      }
    } else {
      forall q | q in s'.spawned ensures Due(s'.v, q) {
        assert q in s.spawned;
        DueStays(s.v, s'.v, q);
      }
    }
  }

  lemma InvServer(s: Sys, id: JobId)
    requires Inv(s) && id in s.v.jobs
    ensures s.v.jobs[id].jobId == id
  {
    hide RequestInv, WorkerInv, ControlInv, CoverInv, TaskInv, ServerInv;
    MirrorServer(s.v, s.delivered, s.fromTako, s.tako);
    JobInvOf(s.v, id);
  }

  lemma DueStays(v: Server, v': Server, q: Request)
    requires Due(v, q) && Evolves(v, v')
    ensures Due(v', q)
  {
    hide Tasks, Count, Terminal;
    var j, j' := v.jobs[q.job], v'.jobs[q.job];
    assert JobEvolves(j, j');
    FailedStay(j, j');
  }

  lemma FailedStay(j: Job, j': Job)
    requires JobEvolves(j, j')
    ensures Count(Tasks(j), StatusFailed) <= Count(Tasks(j'), StatusFailed)
  {
    hide Tasks;
    var a, b := InStatus(Tasks(j), StatusFailed), InStatus(Tasks(j'), StatusFailed);
    assert a <= b;
    assert b == a + (b - a);
  }

  lemma NewIsDue(v: Server, id: JobId, before: seq<Request>, after: seq<Request>, q: Request)
    requires id in v.jobs && v.jobs[id].jobId == id && SpawnedFor(v.jobs[id], before, after)
    requires q in after && q !in before
    ensures Due(v, q)
  {
    hide Tasks, Count;
  }
}
