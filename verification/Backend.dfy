/**
 * The server together with its asynchronous backend (tako). Requests travel to the backend and
 * events travel back through FIFO queues; the answer to a request wakes up a waiting task of the
 * server, which may run arbitrarily later. The backend is modelled by the phase of each task.
 */
module Backend {
  import opened Bytes
  import opened JobModel
  import opened ServerModel
  import opened ServerSteps

  /** The backend's own view of a task. */
  datatype Phase = PWaiting | PRunning(w: WorkerId) | PFinished(w: WorkerId) | PFailed(w: WorkerId) | PCanceled

  predicate Over(p: Phase) { p.PFinished? || p.PFailed? || p.PCanceled? }

  function Abs(s: TaskState): Phase
  {
    match s
    case Waiting => PWaiting
    case Running(w, _) => PRunning(w)
    case Finished(w, _, _) => PFinished(w)
    case Failed(w, _, _, _) => PFailed(w)
    case Canceled => PCanceled
  }

  /**
   * What the backend reports: a change of one task, workers coming and going, an answer. The job an
   * answer belongs to is part of the model's history only; the server does not see it.
   */
  datatype Event =
    | TaskEvent(t: TakoId, c: Change)
    | NewWorker(w: WorkerId)
    | LostWorker(w: WorkerId, ts: seq<TakoId>)
    | CancelResponse(job: JobId, ts: seq<TakoId>)
    | TasksAccepted(job: JobId)
    | Refused(job: JobId)

  datatype Request = NewTasksReq(job: JobId, ts: seq<TakoId>) | CancelReq(job: JobId, ts: seq<TakoId>)

  /** A task of the server that waits for an answer: of a submission, of a client's cancel, of a callback. */
  datatype Waiter = Submitter(job: JobId) | Canceler(job: JobId) | Callback(job: JobId)

  /**
   * `unsent` are submitted jobs whose tasks have not been sent to the backend yet, `spawned` the
   * cancel requests of spawned callbacks that have not run yet. `waiting` is the queue of those that
   * wait for an answer: each answer goes to the first of them. `delivered` are the cancel answers whose
   * waiting task, in `woken`, has been woken up but has not run yet. `refused` records tasks whose
   * latest cancel request the backend may have answered with an error.
   */
  datatype Sys = Sys(v: Server, control: seq<Control>,
                     unsent: map<JobId, seq<TakoId>>, spawned: seq<Request>, toTako: seq<Request>,
                     tako: map<TakoId, Phase>, alive: set<WorkerId>, nextWorker: nat,
                     fromTako: seq<Event>, waiting: seq<Waiter>, delivered: seq<Event>, woken: seq<Waiter>,
                     refused: set<TakoId>)

  datatype Action =
    // The server: client requests, callbacks, messages from the backend, woken-up tasks
    | SubmitJob(r: SubmitRequest)
    | SendTasks(job: JobId)
    | ClientCancel(job: JobId, order: seq<TakoId>)
    | RunCallback(k: nat)
    | Receive(now: Date, order: seq<TakoId>)
    | Wake(k: nat, now: Date)
    // The backend
    | StartTask(t: TakoId, w: WorkerId)
    | ChangeTask(t: TakoId, c: Change)
    | ConnectWorker
    | LoseWorker(w: WorkerId, ts: seq<TakoId>)
    | Serve
    | Refuse

  function Initial(): Sys { Sys(NewServer(), [], map[], [], [], map[], {}, 0, [], [], [], [], {}) }

  function PhaseOf(tako: map<TakoId, Phase>, t: TakoId): Phase { if t in tako then tako[t] else PWaiting }

  /** Some order of the elements of a set. */
  predicate Enumerates(order: seq<TakoId>, s: set<TakoId>)
  {
    Distinct(order) && (forall t :: t in order ==> t in s) && (forall t :: t in s ==> t in order)
  }

  /** The tasks a failure report makes the server cancel. */
  function CancelSet(s: Sys, now: Date): set<TakoId>
  {
    if s.fromTako != [] && s.fromTako[0].TaskEvent? && s.fromTako[0].c.ToFailed? then
      var o := ProcessTask(s.v, s.fromTako[0].t, s.fromTako[0].c, now);
      if o.Out? then ToCancel(o.v, s.fromTako[0].t) else {}
    else {}
  }

  /**
   * What may happen. The conditions on the server's own actions only name what is chosen (a queue
   * entry, the iteration order of a map); those on the backend's say that it changes its tasks
   * along their life cycle and reports each change.
   */
  predicate Enabled(s: Sys, a: Action)
  {
    match a
    case SubmitJob(r) => Fitting(r.jobType)
    case SendTasks(j) => j in s.unsent
    case ClientCancel(j, order) => j in s.v.jobs ==> Enumerates(order, NonFinished(s.v.jobs[j]))
    case RunCallback(k) => k < |s.spawned|
    case Receive(now, order) => s.fromTako != [] && Enumerates(order, CancelSet(s, now))
    case Wake(k, _) => k < |s.delivered|
    case StartTask(t, w) => t in s.tako && s.tako[t].PWaiting? && w in s.alive
    case ChangeTask(t, c) => t in s.tako && s.tako[t].PRunning? && (c.ToWaiting? || c.ToFinished? || c.ToFailed?)
    case ConnectWorker => true
    case LoseWorker(w, ts) =>
      w in s.alive && Enumerates(ts, set t | t in s.tako && s.tako[t] == PRunning(w))
    case Serve => s.toTako != []
    case Refuse => s.toTako != [] && s.toTako[0].CancelReq?
  }

  /** The life cycle of a task: which phase a change leads to. */
  function Follow(p: Phase, c: Change): Option<Phase>
  {
    match c
    case ToRunning(w) => if p.PWaiting? then Some(PRunning(w)) else None
    case ToWaiting => if p.PRunning? then Some(PWaiting) else None
    case ToFinished => if p.PRunning? then Some(PFinished(p.w)) else None
    case ToFailed(_) => if p.PRunning? then Some(PFailed(p.w)) else None
    case ToCanceled => if Over(p) then None else Some(PCanceled)
  }

  predicate Cancelable(tako: map<TakoId, Phase>, t: TakoId) { t in tako && !Over(tako[t]) }

  /** The tasks of a cancel request that the backend really cancels. */
  function Cancelables(tako: map<TakoId, Phase>, ts: seq<TakoId>): (r: seq<TakoId>)
    ensures forall t :: t in r <==> t in ts && Cancelable(tako, t)
  {
    if ts == [] then []
    else Cancelables(tako, ts[..|ts| - 1]) + if Cancelable(tako, ts[|ts| - 1]) then [ts[|ts| - 1]] else []
  }

  function SetPhases(tako: map<TakoId, Phase>, ts: seq<TakoId>, p: Phase): (r: map<TakoId, Phase>)
    ensures r.Keys == tako.Keys + set t | t in ts
    ensures forall t :: t in r ==> r[t] == if t in ts then p else tako[t]
  {
    if ts == [] then tako else SetPhases(tako, ts[..|ts| - 1], p)[ts[|ts| - 1] := p]
  }

  function RemoveAt<T>(s: seq<T>, k: nat): seq<T>
    requires k < |s|
  {
    s[..k] + s[k + 1..]
  }

  /** A new cancel request supersedes an earlier one that was refused. */
  function Reissued(refused: set<TakoId>, order: seq<TakoId>): set<TakoId> { refused - set t | t in order }

  /** The client is told how many tasks had already ended, a subtraction of counts. */
  predicate Underflows(v: Server, w: Waiter, ts: seq<TakoId>)
  {
    w.Canceler? && w.job in v.jobs && |ts| > NTasks(v.jobs[w.job])
  }

  /** The server takes a message from the backend; None when it panics. */
  function ReceiveEvent(s: Sys, now: Date, order: seq<TakoId>): Option<Sys>
    requires s.fromTako != []
  {
    var e, s1 := s.fromTako[0], s.(fromTako := s.fromTako[1..]);
    match e
    case TaskEvent(t, c) =>
      var o := ProcessTask(s.v, t, c, now);
      if o.Crash? then None
      else
        var s2 := s1.(v := o.v, control := s.control + o.sent);
        if c.ToFailed? && ToCancel(o.v, t) != {}
        then Some(s2.(spawned := s.spawned + [CancelReq(JobOf(o.v, t).value, order)], refused := Reissued(s.refused, order)))
        else Some(s2)
    case NewWorker(w) =>
      var o := WorkerNew(s.v, w);
      if o.Crash? then None else Some(s1.(v := o.v))
    case LostWorker(w, ts) =>
      var o := WorkerLost(s.v, w, ts);
      if o.Crash? then None else Some(s1.(v := o.v, control := s.control + o.sent))
    case CancelResponse(_, _) =>
      if s.waiting == [] || s.waiting[0].Submitter? then None
      else Some(s1.(waiting := s.waiting[1..], delivered := s.delivered + [e], woken := s.woken + [s.waiting[0]]))
    case TasksAccepted(_) =>
      if s.waiting == [] || !s.waiting[0].Submitter? then None else Some(s1.(waiting := s.waiting[1..]))
    case Refused(_) =>
      if s.waiting == [] || s.waiting[0].Submitter? then None else Some(s1.(waiting := s.waiting[1..]))
  }

  /** The effect of an action; None when the server panics. */
  function Next(s: Sys, a: Action): Option<Sys>
    requires Enabled(s, a)
  {
    match a
    case SubmitJob(r) =>
      var o := Submit(s.v, r);
      if o.SubmitCrash? then None
      else Some(s.(v := o.v, unsent := s.unsent[o.id := Ids(o.defs)],
                   control := s.control + if r.hasLog then [Register(o.id)] else []))
    case SendTasks(j) =>
      Some(s.(unsent := s.unsent - {j}, toTako := s.toTako + [NewTasksReq(j, s.unsent[j])],
              waiting := s.waiting + [Submitter(j)]))
    case ClientCancel(j, order) =>
      if j !in s.v.jobs || order == [] then Some(s)
      else Some(s.(toTako := s.toTako + [CancelReq(j, order)], waiting := s.waiting + [Canceler(j)],
                   refused := Reissued(s.refused, order)))
    case RunCallback(k) =>
      Some(s.(spawned := RemoveAt(s.spawned, k), toTako := s.toTako + [s.spawned[k]],
              waiting := s.waiting + [Callback(s.spawned[k].job)]))
    case Receive(now, order) => ReceiveEvent(s, now, order)
    case Wake(k, now) =>
      if |s.woken| <= k || !s.delivered[k].CancelResponse? then None
      else
        var w, ts := s.woken[k], s.delivered[k].ts;
        var o := CancelAll(s.v, w.job, ts, now);
        if o.Crash? || Underflows(o.v, w, ts) then None
        else Some(s.(v := o.v, control := s.control + o.sent,
                     delivered := RemoveAt(s.delivered, k), woken := RemoveAt(s.woken, k)))
    case StartTask(t, w) =>
      Some(s.(tako := s.tako[t := PRunning(w)], fromTako := s.fromTako + [TaskEvent(t, ToRunning(w))]))
    case ChangeTask(t, c) =>
      Some(s.(tako := s.tako[t := Follow(s.tako[t], c).value], fromTako := s.fromTako + [TaskEvent(t, c)]))
    case ConnectWorker =>
      Some(s.(alive := s.alive + {s.nextWorker}, nextWorker := s.nextWorker + 1,
              fromTako := s.fromTako + [NewWorker(s.nextWorker)]))
    case LoseWorker(w, ts) =>
      Some(s.(alive := s.alive - {w}, tako := SetPhases(s.tako, ts, PWaiting),
              fromTako := s.fromTako + [LostWorker(w, ts)]))
    case Serve =>
      var q, s1 := s.toTako[0], s.(toTako := s.toTako[1..]);
      if q.NewTasksReq? then
        Some(s1.(tako := SetPhases(s.tako, q.ts, PWaiting), fromTako := s.fromTako + [TasksAccepted(q.job)]))
      else
        var ts := Cancelables(s.tako, q.ts);
        Some(s1.(tako := SetPhases(s.tako, ts, PCanceled), fromTako := s.fromTako + [CancelResponse(q.job, ts)]))
    case Refuse =>
      Some(s.(toTako := s.toTako[1..], fromTako := s.fromTako + [Refused(s.toTako[0].job)],
              refused := s.refused + set t | t in s.toTako[0].ts))
  }

  function Ids(defs: seq<TaskDef>): (r: seq<TakoId>)
    ensures |r| == |defs|
    ensures forall k :: 0 <= k < |r| ==> r[k] == defs[k].id
  {
    if defs == [] then [] else Ids(defs[..|defs| - 1]) + [defs[|defs| - 1].id]
  }

  datatype RunResult = Impossible | Panicked | At(s: Sys)

  /** Where a run leads: to a state, into a panic, or nowhere because an action was not possible. */
  function Exec(s: Sys, run: seq<Action>): RunResult
  {
    if run == [] then At(s)
    else
      var before := Exec(s, run[..|run| - 1]);
      if !before.At? then before
      else if !Enabled(before.s, run[|run| - 1]) then Impossible
      else
        var r := Next(before.s, run[|run| - 1]);
        if r.None? then Panicked else At(r.value)
  }

  // ---- Replaying what is in flight -----------------------------------------------------------

  /** All events on their way to the server's state, in the order in which they concern a task. */
  function Chain(s: Sys): seq<Event> { s.delivered + s.fromTako }

  /** What an event says about a task. */
  function Effect(e: Event, t: TakoId): Option<Change>
  {
    match e
    case TaskEvent(u, c) => if u == t then Some(c) else None
    case LostWorker(_, ts) => if t in ts then Some(ToWaiting) else None
    case CancelResponse(_, ts) => if t in ts then Some(ToCanceled) else None
    case _ => None
  }

  function FollowEvent(p: Phase, e: Event, t: TakoId): Option<Phase>
  {
    var c := Effect(e, t);
    if c.None? then Some(p) else Follow(p, c.value)
  }

  /** The phase a task is in once all events of the chain have been applied to it. */
  function ReplayTask(p: Phase, chain: seq<Event>, t: TakoId): Option<Phase>
    decreases |chain|
  {
    if chain == [] then Some(p)
    else
      var q := FollowEvent(p, chain[0], t);
      if q.None? then None else ReplayTask(q.value, chain[1..], t)
  }

  lemma {:induction false} ReplaySnoc(p: Phase, chain: seq<Event>, e: Event, t: TakoId)
    ensures ReplayTask(p, chain + [e], t)
         == if ReplayTask(p, chain, t).None? then None else FollowEvent(ReplayTask(p, chain, t).value, e, t)
    decreases |chain|
  {
    hide FollowEvent;
    var all := chain + [e];
    assert all[0] == if chain == [] then e else chain[0];
    if chain == [] {
      assert all[1..] == [];
    } else {
      assert all[1..] == chain[1..] + [e];
      var q := FollowEvent(p, chain[0], t);
      if q.Some? { ReplaySnoc(q.value, chain[1..], e, t); }
    }
  }

  /** An event that says nothing about the task can be taken out anywhere. */
  lemma {:induction false} ReplayWithout(p: Phase, chain: seq<Event>, k: nat, t: TakoId)
    requires k < |chain| && Effect(chain[k], t).None?
    ensures ReplayTask(p, RemoveAt(chain, k), t) == ReplayTask(p, chain, t)
    decreases |chain|
  {
    hide Effect, Follow;
    var rest := RemoveAt(chain, k);
    if k == 0 {
      assert rest == chain[1..];
    } else {
      assert rest[0] == chain[0] && rest[1..] == RemoveAt(chain[1..], k - 1);
      var q := FollowEvent(p, chain[0], t);
      if q.Some? { ReplayWithout(q.value, chain[1..], k - 1, t); }
    }
  }

  /** An event before which nothing concerns the task can be applied first. */
  lemma {:induction false} ReplayFirst(p: Phase, chain: seq<Event>, k: nat, t: TakoId)
    requires k < |chain| && forall i :: 0 <= i < k ==> Effect(chain[i], t).None?
    requires ReplayTask(p, chain, t).Some?
    ensures
      var q := FollowEvent(p, chain[k], t);
      q.Some? && ReplayTask(q.value, RemoveAt(chain, k), t) == ReplayTask(p, chain, t)
    decreases |chain|
  {
    hide Effect, Follow;
    var rest := RemoveAt(chain, k);
    if k == 0 {
      assert rest == chain[1..];
    } else {
      assert rest[0] == chain[0] && rest[1..] == RemoveAt(chain[1..], k - 1);
      assert FollowEvent(p, chain[0], t) == Some(p);
      forall i | 0 <= i < k - 1 ensures Effect(chain[1..][i], t).None? { assert chain[1..][i] == chain[i + 1]; }
      ReplayFirst(p, chain[1..], k - 1, t);
    }
  }

  /** A task that is over has no further event in flight. */
  lemma {:induction false} OverIsOver(p: Phase, chain: seq<Event>, t: TakoId)
    requires Over(p) && ReplayTask(p, chain, t).Some?
    ensures ReplayTask(p, chain, t) == Some(p)
    ensures forall i :: 0 <= i < |chain| ==> Effect(chain[i], t).None?
    decreases |chain|
  {
    if chain != [] {
      assert FollowEvent(p, chain[0], t) == Some(p);
      OverIsOver(p, chain[1..], t);
      forall i | 0 <= i < |chain| ensures Effect(chain[i], t).None? {
        if i > 0 { assert chain[i] == chain[1..][i - 1]; }
      }
    }
  }

  /** A cancellation is the last event of a task. */
  lemma {:induction false} CancelIsLast(p: Phase, chain: seq<Event>, i: nat, k: nat, t: TakoId)
    requires i < k < |chain| && Effect(chain[i], t) == Some(ToCanceled) && ReplayTask(p, chain, t).Some?
    ensures Effect(chain[k], t).None?
    decreases |chain|
  {
    var q := FollowEvent(p, chain[0], t).value;
    if i == 0 {
      assert q == PCanceled;
      OverIsOver(q, chain[1..], t);
      assert chain[k] == chain[1..][k - 1];
    } else {
      CancelIsLast(q, chain[1..], i - 1, k - 1, t);
    }
  }

  lemma {:induction false} ReplayUntouched(p: Phase, chain: seq<Event>, t: TakoId)
    requires forall i :: 0 <= i < |chain| ==> Effect(chain[i], t).None?
    ensures ReplayTask(p, chain, t) == Some(p)
    decreases |chain|
  {
    hide Effect;
    if chain != [] {
      assert Effect(chain[0], t).None?;
      forall i | 0 <= i < |chain[1..]| ensures Effect(chain[1..][i], t).None? { assert chain[1..][i] == chain[i + 1]; }
      ReplayUntouched(p, chain[1..], t);
    }
  }

  /** The server's transition and the life cycle agree. */
  lemma FollowIsNextState(s: TaskState, c: Change, now: Date)
    requires Follow(Abs(s), c).Some?
    ensures NextState(s, c, now).Some? && Abs(NextState(s, c, now).value) == Follow(Abs(s), c).value
  {
  }
}
