/**
 * The invariant of the server and its backend over whole runs, one part at a time: the mirror of
 * task states, the requests under way, the workers, and the registrations of streams.
 */
module ServerRun {
  import opened Bytes
  import IntArray
  import opened JobModel
  import opened ServerModel
  import opened ServerSteps
  import opened Backend
  import opened Mirror

  ghost predicate MirrorInv(s: Sys) { TaskInv(s.v, s.delivered, s.fromTako, s.tako) }

  // ---- Requests under way --------------------------------------------------------------------

  predicate RequestOk(v: Server, q: Request)
  {
    Distinct(q.ts) && q.job in v.jobs && forall t :: t in q.ts ==> t in Tasks(v.jobs[q.job])
  }

  predicate Unknown(s: Sys, j: JobId) { j in s.v.jobs && forall t :: t in Tasks(s.v.jobs[j]) ==> t !in s.tako }

  /** Requests name tasks of their own job; the tasks of a job are sent to the backend once only. */
  predicate RequestInv(s: Sys)
  {
    && (forall q :: q in s.toTako ==> RequestOk(s.v, q))
    && (forall q :: q in s.spawned ==> q.CancelReq? && RequestOk(s.v, q))
    && (forall j :: j in s.unsent ==> RequestOk(s.v, NewTasksReq(j, s.unsent[j])) && Unknown(s, j))
    && (forall q :: q in s.toTako && q.NewTasksReq? ==> Unknown(s, q.job) && q.job !in s.unsent)
    && (forall a, b :: 0 <= a < b < |s.toTako| && s.toTako[a].NewTasksReq? && s.toTako[b].NewTasksReq? ==>
          s.toTako[a].job != s.toTako[b].job)
  }

  // ---- Workers -------------------------------------------------------------------------------

  /** What the server knows about a worker: nothing, or whether it is online. */
  function WorkerOf(v: Server, w: WorkerId): Option<bool> { if w in v.workers then Some(v.workers[w]) else None }

  /** What there is to know about it in the backend. */
  function StatusIn(s: Sys, w: WorkerId): Option<bool> { if w < s.nextWorker then Some(w in s.alive) else None }

  /** What is known about a worker after an event; None where the server would panic. */
  function FollowWorker(known: Option<bool>, e: Event, w: WorkerId): Option<Option<bool>>
  {
    match e
    case NewWorker(u) => if u != w then Some(known) else if known.Some? then None else Some(Some(true))
    case LostWorker(u, _) => if u != w then Some(known) else if known.Some? then Some(Some(false)) else None
    case _ => Some(known)
  }

  function ReplayWorker(known: Option<bool>, queue: seq<Event>, w: WorkerId): Option<Option<bool>>
    decreases |queue|
  {
    if queue == [] then Some(known)
    else
      var k := FollowWorker(known, queue[0], w);
      if k.None? then None else ReplayWorker(k.value, queue[1..], w)
  }

  lemma {:induction false} ReplayWorkerSnoc(known: Option<bool>, queue: seq<Event>, e: Event, w: WorkerId)
    ensures ReplayWorker(known, queue + [e], w)
         == if ReplayWorker(known, queue, w).None? then None else FollowWorker(ReplayWorker(known, queue, w).value, e, w)
    decreases |queue|
  {
    hide FollowWorker;
    var all := queue + [e];
    assert all[0] == if queue == [] then e else queue[0];
    if queue == [] {
      assert all[1..] == [];
    } else {
      assert all[1..] == queue[1..] + [e];
      var k := FollowWorker(known, queue[0], w);
      if k.Some? { ReplayWorkerSnoc(k.value, queue[1..], e, w); }
    }
  }

  /** What the server knows about a worker does not change without an event about it. */
  lemma {:induction false} QuietWorker(known: Option<bool>, queue: seq<Event>, w: WorkerId)
    requires forall e :: e in queue && (e.NewWorker? || e.LostWorker?) ==> e.w != w
    ensures ReplayWorker(known, queue, w) == Some(known)
    decreases |queue|
  {
    if queue != [] {
      assert queue[0] in queue;
      QuietWorker(known, queue[1..], w);
    }
  }

  /** What the server knows about a worker, once the queue is processed, is how it is in the backend. */
  ghost predicate WorkerInv(s: Sys)
  {
    && (forall w: WorkerId :: ReplayWorker(WorkerOf(s.v, w), s.fromTako, w) == Some(StatusIn(s, w)))
    && (forall w :: w in s.alive ==> w < s.nextWorker)
  }

  // ---- Stream registrations ------------------------------------------------------------------

  /** The assertions of the stream server hold, and the registered jobs are the unfinished logged ones. */
  predicate ControlInv(s: Sys) { Replay({}, s.control) == Some(Registered(s.v)) }

  // ---- The mirror over all actions -----------------------------------------------------------

  /** The effect of the action on the queues of events and on the backend. */
  lemma BackendKeepsMirror(s: Sys, a: Action)
    requires MirrorInv(s) && RequestInv(s) && Enabled(s, a)
    requires a.StartTask? || a.ChangeTask? || a.ConnectWorker? || a.LoseWorker? || a.Serve? || a.Refuse?
    ensures Next(s, a).Some? && MirrorInv(Next(s, a).value)
  {
    hide ServerInv, View, RequestInv;
    match a
    case StartTask(t, w) => EmitKeeps(s.v, s.delivered, s.fromTako, s.tako, TaskEvent(t, ToRunning(w)), s.tako[t := PRunning(w)]);
    case ChangeTask(t, c) =>
      EmitKeeps(s.v, s.delivered, s.fromTako, s.tako, TaskEvent(t, c), s.tako[t := Follow(s.tako[t], c).value]);
    case ConnectWorker => EmitKeeps(s.v, s.delivered, s.fromTako, s.tako, NewWorker(s.nextWorker), s.tako);
    case LoseWorker(w, ts) =>
      EmitKeeps(s.v, s.delivered, s.fromTako, s.tako, LostWorker(w, ts), SetPhases(s.tako, ts, PWaiting));
    case Serve => ServeKeepsMirror(s);
    case Refuse => EmitKeeps(s.v, s.delivered, s.fromTako, s.tako, Refused(s.toTako[0].job), s.tako);
  }

  lemma ServeKeepsMirror(s: Sys)
    requires MirrorInv(s) && RequestInv(s) && Enabled(s, Serve)
    ensures MirrorInv(Next(s, Serve).value)
  {
    hide TaskInv, Known, Tasks, RequestInv, RequestOk, SetPhases, Cancelables;
    var q := s.toTako[0];
    HeadRequest(s);
    assert ServerInv(s.v) by { MirrorServer(s.v, s.delivered, s.fromTako, s.tako); }
    assert forall t :: t in q.ts ==> Known(s.v, t) && (q.NewTasksReq? ==> t !in s.tako) by { RequestKnown(s, q); }
    if q.NewTasksReq? {
      NewTasksKeepMirror(s.v, s.delivered, s.fromTako, s.tako, q.job, q.ts);
    } else {
      CancelKeepsMirror(s.v, s.delivered, s.fromTako, s.tako, q.job, q.ts);
    }
  }

  lemma HeadRequest(s: Sys)
    requires RequestInv(s) && s.toTako != []
    ensures RequestOk(s.v, s.toTako[0]) && (s.toTako[0].NewTasksReq? ==> Unknown(s, s.toTako[0].job))
  {
    hide RequestOk, Unknown;
    assert s.toTako[0] in s.toTako;
  }

  lemma RequestKnown(s: Sys, q: Request)
    requires ServerInv(s.v) && RequestOk(s.v, q) && (q.NewTasksReq? ==> Unknown(s, q.job))
    ensures forall t :: t in q.ts ==> Known(s.v, t) && (q.NewTasksReq? ==> t !in s.tako)
  {
    hide ServerInv, Known, Tasks;
    forall t | t in q.ts ensures Known(s.v, t) { TasksAreKnown(s.v, q.job, t); }
  }

  lemma MirrorServer(v: Server, delivered: seq<Event>, queue: seq<Event>, tako: map<TakoId, Phase>)
    requires TaskInv(v, delivered, queue, tako)
    ensures ServerInv(v)
  {
  }

  /** New tasks start out waiting in the backend, as they did in the server. */
  lemma NewTasksKeepMirror(v: Server, delivered: seq<Event>, queue: seq<Event>, tako: map<TakoId, Phase>, j: JobId, ts: seq<TakoId>)
    requires TaskInv(v, delivered, queue, tako)
    requires forall t :: t in ts ==> Known(v, t) && t !in tako
    ensures TaskInv(v, delivered, queue + [TasksAccepted(j)], SetPhases(tako, ts, PWaiting))
  {
    var tako' := SetPhases(tako, ts, PWaiting);
    hide ServerInv, View, Mirrored, SetPhases;
    forall t ensures PhaseOf(tako', t) == PhaseOf(tako, t) {}
    EmitKeeps(v, delivered, queue, tako, TasksAccepted(j), tako');
  }

  /** The backend cancels what it can and reports exactly that. */
  lemma CancelKeepsMirror(v: Server, delivered: seq<Event>, queue: seq<Event>, tako: map<TakoId, Phase>, j: JobId, ts: seq<TakoId>)
    requires TaskInv(v, delivered, queue, tako) && RequestOk(v, CancelReq(j, ts))
    requires forall t :: t in ts ==> Known(v, t)
    ensures
      var rs := Cancelables(tako, ts);
      TaskInv(v, delivered, queue + [CancelResponse(j, rs)], SetPhases(tako, rs, PCanceled))
  {
    hide ServerInv, View, Mirrored, SetPhases, Tasks, Cancelables;
    var rs := Cancelables(tako, ts);
    var tako' := SetPhases(tako, rs, PCanceled);
    CancelablesDistinct(tako, ts);
    forall t ensures FollowEvent(PhaseOf(tako, t), CancelResponse(j, rs), t) == Some(PhaseOf(tako', t)) {}
    EmitKeeps(v, delivered, queue, tako, CancelResponse(j, rs), tako');
  }

  lemma {:induction false} CancelablesDistinct(tako: map<TakoId, Phase>, ts: seq<TakoId>)
    requires Distinct(ts)
    ensures Distinct(Cancelables(tako, ts))
  {
    if ts != [] {
      CancelablesDistinct(tako, ts[..|ts| - 1]);
    }
  }

  /** A message from the backend never makes the server panic, and keeps the mirror. */
  lemma TaskEventKeepsMirror(s: Sys, now: Date)
    requires MirrorInv(s) && s.fromTako != [] && s.fromTako[0].TaskEvent?
    ensures
      var o := ProcessTask(s.v, s.fromTako[0].t, s.fromTako[0].c, now);
      o.Out? && Stepped(s.v, o.v, o.sent) && TaskInv(o.v, s.delivered, s.fromTako[1..], s.tako)
  {
    hide ServerInv, View, Changed, ProcessTask, Mirrored;
    var e, k := s.fromTako[0], |s.delivered|;
    HeadRemoved(s.delivered, s.fromTako);
    assert Effect(e, e.t) == Some(e.c);
    NextEventIsLegal(s.v, s.delivered, s.fromTako, s.tako, k, e.t, now);
    ProcessTaskKeeps(s.v, e.t, e.c, now);
    var o := ProcessTask(s.v, e.t, e.c, now);
    ApplyKeeps(s.v, s.delivered, s.fromTako, s.tako, k, o.v, s.delivered, s.fromTako[1..], now);
  }

  lemma HeadRemoved(delivered: seq<Event>, queue: seq<Event>)
    requires queue != []
    ensures (delivered + queue)[|delivered|] == queue[0]
    ensures RemoveAt(delivered + queue, |delivered|) == delivered + queue[1..]
  {
  }

  /** Changing the table of workers does not concern tasks. */
  lemma WorkersDoNotMatter(v: Server, workers: map<WorkerId, bool>)
    ensures ServerInv(v.(workers := workers)) <==> ServerInv(v)
    ensures forall t :: View(v.(workers := workers), t) == View(v, t)
    ensures Registered(v.(workers := workers)) == Registered(v)
    ensures Evolves(v, v.(workers := workers))
  {
    hide JobInv, Tasks;
  }

  lemma WorkersKeepMirror(v: Server, workers: map<WorkerId, bool>, delivered: seq<Event>, queue: seq<Event>, tako: map<TakoId, Phase>)
    requires TaskInv(v, delivered, queue, tako)
    ensures TaskInv(v.(workers := workers), delivered, queue, tako)
  {
    hide ServerInv, View, EventOk;
    WorkersDoNotMatter(v, workers);
    var v' := v.(workers := workers);
    forall t ensures Mirrored(v', delivered + queue, tako, t) { assert Mirrored(v, delivered + queue, tako, t); }
    forall e | e in delivered + queue ensures EventOk(v', e) { EventOkStays(v, v', e); }
  }

  lemma LostWorkerKeepsMirror(s: Sys)
    requires MirrorInv(s) && s.fromTako != [] && s.fromTako[0].LostWorker? && s.fromTako[0].w in s.v.workers
    ensures
      var o := WorkerLost(s.v, s.fromTako[0].w, s.fromTako[0].ts);
      var v1 := s.v.(workers := s.v.workers[s.fromTako[0].w := false]);
      o.Out? && Stepped(v1, o.v, o.sent) && TaskInv(o.v, s.delivered, s.fromTako[1..], s.tako)
  {
    hide ServerInv, View, Changed, ProcessAll, Mirrored;
    var e, k := s.fromTako[0], |s.delivered|;
    var v1 := s.v.(workers := s.v.workers[e.w := false]);
    WorkersKeepMirror(s.v, v1.workers, s.delivered, s.fromTako, s.tako);
    HeadRemoved(s.delivered, s.fromTako);
    var chain := s.delivered + s.fromTako;
    assert chain[k] in chain;
    assert EventOk(v1, e);
    forall t | t in e.ts ensures Changed(v1, t, ToWaiting, 0).Some? {
      NextEventIsLegal(v1, s.delivered, s.fromTako, s.tako, k, t, 0);
    }
    ProcessAllKeeps(v1, e.ts, ToWaiting, 0);
    var o := ProcessAll(v1, e.ts, ToWaiting, 0);
    ApplyKeeps(v1, s.delivered, s.fromTako, s.tako, k, o.v, s.delivered, s.fromTako[1..], 0);
  }

  /** A cancel answer is applied without a panic, however late its waiting task runs. */
  lemma WakeKeepsMirror(s: Sys, k: nat, now: Date)
    requires MirrorInv(s) && k < |s.delivered|
    ensures s.delivered[k].CancelResponse?
    ensures
      var j, ts := s.delivered[k].job, s.delivered[k].ts;
      var o := CancelAll(s.v, j, ts, now);
      && o.Out? && Stepped(s.v, o.v, o.sent) && TaskInv(o.v, RemoveAt(s.delivered, k), s.fromTako, s.tako)
      && j in s.v.jobs && |ts| <= NTasks(s.v.jobs[j])
  {
    hide ServerInv, View, CancelAll, Mirrored;
    var e := s.delivered[k];
    assert e in s.delivered;
    var chain := s.delivered + s.fromTako;
    assert chain[k] == e && e in chain;
    assert EventOk(s.v, e);
    forall t | t in e.ts ensures !Terminal(Tasks(s.v.jobs[e.job])[t]) && Changed(s.v, t, ToCanceled, now) == Some(Canceled) {
      NextEventIsLegal(s.v, s.delivered, s.fromTako, s.tako, k, t, now);
      ViewOf(s.v, t, e.job);
    }
    CancelAllKeeps(s.v, e.job, e.ts, now);
    CanceledAtMostAll(s.v.jobs[e.job], e.ts);
    var o := CancelAll(s.v, e.job, e.ts, now);
    assert RemoveAt(s.delivered, k) + s.fromTako == RemoveAt(chain, k);
    ApplyKeeps(s.v, s.delivered, s.fromTako, s.tako, k, o.v, RemoveAt(s.delivered, k), s.fromTako, now);
  }

  /** A new worker is not known yet, a lost one is. */
  lemma WorkerEventIsLegal(s: Sys)
    requires WorkerInv(s) && s.fromTako != []
    ensures s.fromTako[0].NewWorker? ==> s.fromTako[0].w !in s.v.workers
    ensures s.fromTako[0].LostWorker? ==> s.fromTako[0].w in s.v.workers
  {
    var e := s.fromTako[0];
    if e.NewWorker? || e.LostWorker? {
      assert ReplayWorker(WorkerOf(s.v, e.w), s.fromTako, e.w).Some?;
    }
  }

  // ---- Requests over all actions -------------------------------------------------------------

  lemma RequestOkStays(v: Server, v': Server, q: Request)
    requires Evolves(v, v') && RequestOk(v, q)
    ensures RequestOk(v', q)
  {
    hide Tasks, Terminal, SameJob;
    assert JobEvolves(v.jobs[q.job], v'.jobs[q.job]);
  }

  lemma UnknownStays(s: Sys, s': Sys, j: JobId)
    requires Evolves(s.v, s'.v) && s'.tako.Keys <= s.tako.Keys && Unknown(s, j)
    ensures Unknown(s', j)
  {
    hide Tasks, Terminal, SameJob;
    assert JobEvolves(s.v.jobs[j], s'.v.jobs[j]);
  }

  /** Requests stay in order while jobs evolve and the backend learns of no new task. */
  lemma RequestsStay(s: Sys, s': Sys)
    requires RequestInv(s) && Evolves(s.v, s'.v) && s'.tako.Keys <= s.tako.Keys
    requires s'.toTako == s.toTako && s'.spawned == s.spawned && s'.unsent == s.unsent
    ensures RequestInv(s')
  {
    hide Evolves, RequestOk, Unknown;
    forall q | q in s.toTako ensures RequestOk(s'.v, q) { RequestOkStays(s.v, s'.v, q); }
    forall q | q in s.spawned ensures RequestOk(s'.v, q) { RequestOkStays(s.v, s'.v, q); }
    forall j | j in s.unsent ensures RequestOk(s'.v, NewTasksReq(j, s.unsent[j])) && Unknown(s', j) {
      RequestOkStays(s.v, s'.v, NewTasksReq(j, s.unsent[j]));
      UnknownStays(s, s', j);
    }
    forall q | q in s.toTako && q.NewTasksReq? ensures Unknown(s', q.job) { UnknownStays(s, s', q.job); }
  }

  lemma EvolvesRefl(v: Server)
    ensures Evolves(v, v)
  {
  }

  lemma SpawnKeepsRequests(s: Sys, s': Sys, q: Request)
    requires RequestInv(s) && q.CancelReq? && RequestOk(s.v, q)
    requires s' == s.(spawned := s.spawned + [q], refused := s'.refused)
    ensures RequestInv(s')
  {
    hide RequestOk;
    assert forall x :: x in s'.spawned <==> x in s.spawned || x == q;
    assert forall j :: Unknown(s', j) == Unknown(s, j);
  }

  lemma CancelReqKeepsRequests(s: Sys, s': Sys, q: Request)
    requires RequestInv(s) && q.CancelReq? && RequestOk(s.v, q)
    requires s' == s.(toTako := s.toTako + [q], waiting := s'.waiting, refused := s'.refused)
    ensures RequestInv(s')
  {
    hide RequestOk;
    assert forall x :: x in s'.toTako <==> x in s.toTako || x == q;
    assert forall j :: Unknown(s', j) == Unknown(s, j);
  }

  lemma CallbackKeepsRequests(s: Sys, k: nat)
    requires RequestInv(s) && k < |s.spawned|
    ensures RequestInv(Next(s, RunCallback(k)).value)
  {
    hide RequestOk;
    var q, rest := s.spawned[k], RemoveAt(s.spawned, k);
    assert q in s.spawned;
    assert forall x :: x in rest ==> x in s.spawned;
    var s1 := s.(spawned := rest);
    assert forall j :: Unknown(s1, j) == Unknown(s, j);
    assert RequestInv(s1);
    CancelReqKeepsRequests(s1, Next(s, RunCallback(k)).value, q);
  }

  lemma SendTasksKeepsRequests(s: Sys, j: JobId)
    requires RequestInv(s) && j in s.unsent
    ensures RequestInv(Next(s, SendTasks(j)).value)
  {
    hide RequestOk, Unknown;
    var s' := Next(s, SendTasks(j)).value;
    var q := NewTasksReq(j, s.unsent[j]);
    assert forall x :: x in s'.toTako <==> x in s.toTako || x == q;
    forall i ensures Unknown(s', i) == Unknown(s, i) { SameUnknown(s, s', i); }
    forall a | 0 <= a < |s.toTako| && s.toTako[a].NewTasksReq? ensures s.toTako[a].job != j {
      assert s.toTako[a] in s.toTako;
    }
  }

  lemma SameUnknown(s: Sys, s': Sys, j: JobId)
    requires s'.v == s.v && s'.tako == s.tako
    ensures Unknown(s', j) == Unknown(s, j)
  {
  }

  /** The tasks of a new job are unknown to the backend and not part of any request. */
  lemma SubmitKeepsRequests(s: Sys, r: SubmitRequest)
    requires MirrorInv(s) && RequestInv(s) && Enabled(s, SubmitJob(r))
    ensures IterableType(r.jobType) && Next(s, SubmitJob(r)).Some? && RequestInv(Next(s, SubmitJob(r)).value)
  {
    hide ServerInv, Evolves, RequestOk, Unknown, Submit, Tasks, RequestInv, Ids;
    SubmitKeeps(s.v, r);
    SubmitEvolves(s.v, r);
    var o := Submit(s.v, r);
    var s' := Next(s, SubmitJob(r)).value;
    var s1 := s.(v := o.v);
    RequestsStay(s, s1);
    assert RequestOk(s'.v, NewTasksReq(o.id, Ids(o.defs))) by { NewRequestOk(s.v, r); }
    assert Unknown(s', o.id) by { NewJobUnknown(s, r, s'); }
    forall q | q in s.toTako ensures q.job != o.id { ReadRequest(s, q); }
    UnsentJoins(s1, s', o.id, Ids(o.defs));
  }

  lemma ReadRequest(s: Sys, q: Request)
    requires RequestInv(s) && q in s.toTako
    ensures q.job in s.v.jobs
  {
    hide RequestOk, Unknown;
    OldRequest(s.v, q);
  }

  lemma UnsentJoins(s: Sys, s': Sys, id: JobId, ts: seq<TakoId>)
    requires RequestInv(s) && s'.v == s.v && s'.toTako == s.toTako && s'.spawned == s.spawned && s'.tako == s.tako
    requires s'.unsent == s.unsent[id := ts] && RequestOk(s.v, NewTasksReq(id, ts)) && Unknown(s', id)
    requires forall q :: q in s.toTako ==> q.job != id
    ensures RequestInv(s')
  {
    hide RequestOk, Unknown;
    forall i ensures Unknown(s', i) == Unknown(s, i) { SameUnknown(s, s', i); }
  }

  lemma OldRequest(v: Server, q: Request)
    requires RequestOk(v, q)
    ensures q.job in v.jobs
  {
  }

  lemma NewRequestOk(v: Server, r: SubmitRequest)
    requires ServerInv(v) && Fitting(r.jobType) && IterableType(r.jobType) && Submit(v, r).Submitted?
    ensures RequestOk(Submit(v, r).v, NewTasksReq(Submit(v, r).id, Ids(Submit(v, r).defs)))
  {
    hide ServerInv, Tasks, TaskDefs, NewJob, Counted;
    var jt, base := r.jobType, v.taskCounter;
    var o := Submit(v, r);
    DefsAre(jt, base, r.entries);
    NewJobInv(r, v.jobCounter, base);
    NewJobSize(r, v.jobCounter, base);
    var ts := Ids(o.defs);
    assert forall k :: 0 <= k < |ts| ==> ts[k] == base + k;
    assert |ts| <= NTasks(o.v.jobs[o.id]) && o.v.jobs[o.id].base == base;
    forall t | t in ts ensures t in Tasks(o.v.jobs[o.id]) {}
  }

  lemma NewJobSize(r: SubmitRequest, id: JobId, base: TakoId)
    requires Fitting(r.jobType)
    ensures NewJob(r, id, base).base == base
    ensures (if r.jobType.Array? then |IterOf(r.jobType)| else 1) <= NTasks(NewJob(r, id, base))
  {
  }

  function IterOf(jt: JobType): seq<U32>
    requires jt.Array? && IterableType(jt)
  {
    IntArray.Iter(jt.ranges)
  }

  lemma NewJobUnknown(s: Sys, r: SubmitRequest, s': Sys)
    requires MirrorInv(s) && Fitting(r.jobType) && IterableType(r.jobType) && Submit(s.v, r).Submitted?
    requires s'.v == Submit(s.v, r).v && s'.tako == s.tako
    ensures Unknown(s', Submit(s.v, r).id)
  {
    hide ServerInv, Tasks, Mirrored, EventOk;
    SubmitKeeps(s.v, r);
    var id := Submit(s.v, r).id;
    forall t | t in Tasks(s'.v.jobs[id]) ensures t !in s.tako {
      if t in s.tako {
        KnownJob(s.v, t);
        var owner := JobOf(s.v, t).value;
        assert s'.v.jobs[owner] == s.v.jobs[owner];
        ViewOf(s'.v, t, owner);
        ViewOf(s'.v, t, id);
      }
    }
  }

  /** The backend takes the first request. */
  lemma PopKeepsRequests(s: Sys, s': Sys)
    requires RequestInv(s) && s.toTako != [] && s'.toTako == s.toTako[1..]
    requires s'.v == s.v && s'.spawned == s.spawned && s'.unsent == s.unsent
    requires forall j :: Unknown(s, j) && (s.toTako[0].NewTasksReq? ==> j != s.toTako[0].job) ==> Unknown(s', j)
    ensures RequestInv(s')
  {
    hide RequestOk, Unknown;
    var q := s.toTako[0];
    assert q in s.toTako;
    forall x | x in s'.toTako ensures x in s.toTako && (q.NewTasksReq? && x.NewTasksReq? ==> x.job != q.job) {
      var a :| 0 <= a < |s'.toTako| && s'.toTako[a] == x;
      assert s.toTako[a + 1] == x;
    }
    forall a, b | 0 <= a < b < |s'.toTako| && s'.toTako[a].NewTasksReq? && s'.toTako[b].NewTasksReq?
      ensures s'.toTako[a].job != s'.toTako[b].job
    {
      assert s'.toTako[a] == s.toTako[a + 1] && s'.toTako[b] == s.toTako[b + 1];
    }
  }

  lemma ServeKeepsRequests(s: Sys)
    requires MirrorInv(s) && RequestInv(s) && Enabled(s, Serve)
    ensures RequestInv(Next(s, Serve).value)
  {
    hide TaskInv, RequestInv, RequestOk, Unknown, SetPhases, Cancelables;
    var q, s' := s.toTako[0], Next(s, Serve).value;
    HeadRequest(s);
    MirrorServer(s.v, s.delivered, s.fromTako, s.tako);
    forall j | Unknown(s, j) && (q.NewTasksReq? ==> j != q.job) ensures Unknown(s', j) {
      ServedUnknown(s, q, s', j);
    }
    PopKeepsRequests(s, s');
  }

  lemma ServedUnknown(s: Sys, q: Request, s': Sys, j: JobId)
    requires ServerInv(s.v) && RequestOk(s.v, q) && Unknown(s, j) && (q.NewTasksReq? ==> j != q.job)
    requires s'.v == s.v
    requires s'.tako == if q.NewTasksReq? then SetPhases(s.tako, q.ts, PWaiting)
                        else SetPhases(s.tako, Cancelables(s.tako, q.ts), PCanceled)
    ensures Unknown(s', j)
  {
    hide ServerInv, Tasks;
    forall t | t in Tasks(s.v.jobs[j]) ensures t !in s'.tako {
      if t in q.ts && q.NewTasksReq? {
        ViewOf(s.v, t, j);
        ViewOf(s.v, t, q.job);
      }
    }
  }

  lemma RefuseKeepsRequests(s: Sys)
    requires RequestInv(s) && Enabled(s, Refuse)
    ensures RequestInv(Next(s, Refuse).value)
  {
    hide RequestInv, Unknown;
    var s' := Next(s, Refuse).value;
    forall i ensures Unknown(s', i) == Unknown(s, i) { SameUnknown(s, s', i); }
    PopKeepsRequests(s, s');
  }
}
