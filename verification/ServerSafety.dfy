/**
 * Safety of the server over every run of clients, backend and delayed answers: it never panics, its
 * counters and registrations are right, finished work stays finished, and a job with too many
 * failures has all its remaining tasks canceled.
 */
module ServerSafety {
  import opened Bytes
  import IntArray
  import opened JobModel
  import opened ServerModel
  import opened ServerSteps
  import opened Backend
  import opened Mirror
  import opened ServerRun

  // ---- Workers -------------------------------------------------------------------------------

  lemma PopKeepsWorkers(s: Sys, s': Sys)
    requires WorkerInv(s) && s.fromTako != [] && s'.fromTako == s.fromTako[1..]
    requires s'.nextWorker == s.nextWorker && s'.alive == s.alive
    requires forall w: WorkerId :: FollowWorker(WorkerOf(s.v, w), s.fromTako[0], w) == Some(WorkerOf(s'.v, w))
    ensures WorkerInv(s')
  {
    hide FollowWorker, WorkerOf;
    forall w: WorkerId ensures ReplayWorker(WorkerOf(s'.v, w), s'.fromTako, w) == Some(StatusIn(s', w)) {
      assert ReplayWorker(WorkerOf(s.v, w), s.fromTako, w) == Some(StatusIn(s, w));
    }
  }

  lemma EmitKeepsWorkers(s: Sys, s': Sys, e: Event)
    requires WorkerInv(s) && s'.fromTako == s.fromTako + [e] && s'.v.workers == s.v.workers
    requires forall w: WorkerId :: FollowWorker(StatusIn(s, w), e, w) == Some(StatusIn(s', w))
    requires forall w :: w in s'.alive ==> w < s'.nextWorker
    ensures WorkerInv(s')
  {
    hide FollowWorker, StatusIn;
    forall w: WorkerId ensures ReplayWorker(WorkerOf(s'.v, w), s'.fromTako, w) == Some(StatusIn(s', w)) {
      assert ReplayWorker(WorkerOf(s.v, w), s.fromTako, w) == Some(StatusIn(s, w));
      ReplayWorkerSnoc(WorkerOf(s.v, w), s.fromTako, e, w);
    }
  }

  // ---- Stream registrations ------------------------------------------------------------------

  lemma SteppedKeepsControl(s: Sys, v': Server, sent: seq<Control>)
    requires ControlInv(s) && Stepped(s.v, v', sent)
    ensures Replay({}, s.control + sent) == Some(Registered(v'))
  {
    hide ServerInv, Evolves, Registered, Replay;
    ReplayAppend({}, s.control, sent);
  }

  lemma SubmitKeepsControl(s: Sys, r: SubmitRequest)
    requires MirrorInv(s) && ControlInv(s) && Enabled(s, SubmitJob(r))
    ensures Next(s, SubmitJob(r)).Some? && ControlInv(Next(s, SubmitJob(r)).value)
  {
    hide ServerInv, Mirrored, EventOk, Submit;
    SubmitKeeps(s.v, r);
    var o := Submit(s.v, r);
    assert o.id == s.v.jobCounter && o.v.jobs[o.id].hasLog == r.hasLog && o.v.jobs[o.id].completion.None? by { SubmittedFields(s.v, r); }
    var sent := if r.hasLog then [Register(o.id)] else [];
    assert Registered(o.v) == Registered(s.v) + if r.hasLog then {o.id} else {};
    ReplayAppend({}, s.control, sent);
    if r.hasLog {
      assert sent[..0] == [];
      assert o.id !in Registered(s.v);
      assert Replay(Registered(s.v), sent) == Some(Registered(s.v) + {o.id});
    } else {
      assert Registered(s.v) + {} == Registered(s.v);
    }
    assert Replay({}, s.control + sent) == Some(Registered(o.v));
  }

  lemma SubmittedFields(v: Server, r: SubmitRequest)
    requires IterableType(r.jobType) && Submit(v, r).Submitted?
    ensures
      var o := Submit(v, r);
      && o.id == v.jobCounter && o.id in o.v.jobs && o.v.workers == v.workers
      && o.v.jobs[o.id].hasLog == r.hasLog && o.v.jobs[o.id].completion.None? && o.v.jobs[o.id].counters.failed == 0
  {
    hide IntArray.Iter;
  }

  // ---- Too many failures ---------------------------------------------------------------------

  /** A cancel request for the task is among the requests. */
  predicate Asked(qs: seq<Request>, t: TakoId) { exists q :: q in qs && q.CancelReq? && t in q.ts }

  /**
   * The task will not run on: a request to cancel it is under way, or the backend has already ended
   * it (or never had it), unless the backend has refused since the latest such request was issued.
   */
  predicate Covered(s: Sys, t: TakoId)
  {
    Asked(s.spawned, t) || Asked(s.toTako, t) || (t in s.tako ==> Over(s.tako[t])) || t in s.refused
  }

  predicate CoverInv(s: Sys)
  {
    forall id, t :: id in s.v.jobs && Exceeded(s.v.jobs[id]) && t in NonFinished(s.v.jobs[id]) ==> Covered(s, t)
  }

  lemma CoverStays(s: Sys, s': Sys)
    requires CoverInv(s)
    requires forall id :: id in s'.v.jobs && Exceeded(s'.v.jobs[id]) ==>
               id in s.v.jobs && Exceeded(s.v.jobs[id]) && NonFinished(s'.v.jobs[id]) <= NonFinished(s.v.jobs[id])
    requires forall id, t :: id in s'.v.jobs && Exceeded(s'.v.jobs[id]) && t in NonFinished(s'.v.jobs[id]) && Covered(s, t) ==>
               Covered(s', t)
    ensures CoverInv(s')
  {
    hide Covered, NonFinished, Exceeded;
  }

  lemma EvolvedNonFinished(j: Job, j': Job)
    requires JobEvolves(j, j')
    ensures NonFinished(j') <= NonFinished(j)
  {
    hide Tasks;
  }

  /** Jobs evolved without a new failure have no new tasks to cover. */
  predicate SameFailures(v: Server, v': Server)
  {
    v'.jobs.Keys == v.jobs.Keys && forall id :: id in v.jobs ==> v'.jobs[id].counters.failed == v.jobs[id].counters.failed
  }

  lemma EvolvedCover(s: Sys, s': Sys)
    requires CoverInv(s) && Evolves(s.v, s'.v) && SameFailures(s.v, s'.v)
    requires forall t :: Covered(s, t) ==> Covered(s', t)
    ensures CoverInv(s')
  {
    hide Covered, NonFinished, Tasks;
    forall id | id in s'.v.jobs && Exceeded(s'.v.jobs[id])
      ensures id in s.v.jobs && Exceeded(s.v.jobs[id]) && NonFinished(s'.v.jobs[id]) <= NonFinished(s.v.jobs[id])
    {
      assert JobEvolves(s.v.jobs[id], s'.v.jobs[id]);
      EvolvedNonFinished(s.v.jobs[id], s'.v.jobs[id]);
    }
    CoverStays(s, s');
  }

  lemma TransitFailures(j: Job, t: TakoId, c: Change, now: Date)
    requires !c.ToFailed? && Transit(j, t, c, now).Done?
    ensures Transit(j, t, c, now).job.counters.failed == j.counters.failed
  {
    hide Tasks;
  }

  lemma ProcessTaskFailures(v: Server, t: TakoId, c: Change, now: Date)
    requires !c.ToFailed? && ProcessTask(v, t, c, now).Out?
    ensures SameFailures(v, ProcessTask(v, t, c, now).v)
  {
    hide JobOf, Transit;
    TransitFailures(v.jobs[JobOf(v, t).value], t, c, now);
  }

  lemma {:induction false} ProcessAllFailures(v: Server, ts: seq<TakoId>, c: Change, now: Date)
    requires !c.ToFailed? && ProcessAll(v, ts, c, now).Out?
    ensures SameFailures(v, ProcessAll(v, ts, c, now).v)
  {
    hide ProcessTask;
    if ts != [] {
      ProcessAllFailures(v, ts[..|ts| - 1], c, now);
      ProcessTaskFailures(ProcessAll(v, ts[..|ts| - 1], c, now).v, ts[|ts| - 1], c, now);
    }
  }

  lemma {:induction false} CancelAllFailures(v: Server, id: JobId, ts: seq<TakoId>, now: Date)
    requires CancelAll(v, id, ts, now).Out?
    ensures SameFailures(v, CancelAll(v, id, ts, now).v)
  {
    hide SetCancel;
    if ts != [] {
      CancelAllFailures(v, id, ts[..|ts| - 1], now);
      var mid := CancelAll(v, id, ts[..|ts| - 1], now).v;
      TransitFailures(mid.jobs[id], ts[|ts| - 1], ToCanceled, now);
    }
  }

  /** A job that has failures has been sent to the backend. */
  lemma FailuresAreSubmitted(s: Sys, id: JobId)
    requires MirrorInv(s) && Unknown(s, id)
    ensures s.v.jobs[id].counters.failed == 0
  {
    hide EventOk, Tasks, Count, ServerInv, View, JobOf;
    var j := s.v.jobs[id];
    JobInvOf(s.v, id);
    CountPositive(Tasks(j), StatusFailed);
    if exists t :: t in Tasks(j) && TaskStatus(Tasks(j)[t]) == StatusFailed {
      var t :| t in Tasks(j) && TaskStatus(Tasks(j)[t]) == StatusFailed;
      ViewOf(s.v, t, id);
      assert Mirrored(s.v, s.delivered + s.fromTako, s.tako, t);
      OverIsOver(Abs(Tasks(j)[t]), s.delivered + s.fromTako, t);
      assert false;
    }
  }

  lemma AskedAppend(qs: seq<Request>, q: Request, t: TakoId)
    ensures Asked(qs, t) ==> Asked(qs + [q], t)
    ensures q.CancelReq? && t in q.ts ==> Asked(qs + [q], t)
  {
    assert q in qs + [q];
    if Asked(qs, t) {
      var x :| x in qs && x.CancelReq? && t in x.ts;
      assert x in qs + [q];
    }
  }

  lemma AskedRemove(qs: seq<Request>, k: nat, t: TakoId)
    requires k < |qs|
    ensures Asked(qs, t) ==> Asked(RemoveAt(qs, k), t) || (qs[k].CancelReq? && t in qs[k].ts)
  {
    if Asked(qs, t) {
      var x :| x in qs && x.CancelReq? && t in x.ts;
      var i :| 0 <= i < |qs| && qs[i] == x;
      if i != k {
        var rest := RemoveAt(qs, k);
        assert rest[if i < k then i else i - 1] == x;
      }
    }
  }

  /** The backend takes a request: what it asked for is ended, absent or refused. */
  lemma ServeKeepsCover(s: Sys, a: Action)
    requires MirrorInv(s) && RequestInv(s) && CoverInv(s) && Enabled(s, a) && (a.Serve? || a.Refuse?)
    ensures CoverInv(Next(s, a).value)
  {
    hide TaskInv, RequestInv, Exceeded, NonFinished, Asked;
    var q, s' := s.toTako[0], Next(s, a).value;
    HeadRequest(s);
    assert s.toTako[1..] == RemoveAt(s.toTako, 0);
    forall id, t | id in s'.v.jobs && Exceeded(s'.v.jobs[id]) && t in NonFinished(s'.v.jobs[id]) && Covered(s, t)
      ensures Covered(s', t)
    {
      AskedRemove(s.toTako, 0, t);
      if q.NewTasksReq? && t in q.ts {
        NotExceeded(s, q, id, t);
      }
    }
    CoverStays(s, s');
  }

  lemma NotExceeded(s: Sys, q: Request, id: JobId, t: TakoId)
    requires MirrorInv(s) && RequestOk(s.v, q) && Unknown(s, q.job) && t in q.ts
    requires id in s.v.jobs && t in NonFinished(s.v.jobs[id])
    ensures !Exceeded(s.v.jobs[id])
  {
    hide EventOk, Mirrored, Tasks;
    FailuresAreSubmitted(s, q.job);
    ViewOf(s.v, t, id);
    ViewOf(s.v, t, q.job);
  }

  /**
   * The requests after a failure in a job, on the states of its tasks: one more, for exactly its open
   * tasks, if it has any and more of its tasks have failed than its limit says.
   */
  ghost predicate SpawnedFor(j: Job, before: seq<Request>, after: seq<Request>)
  {
    if && j.maxFails.Some? && Count(Tasks(j), StatusFailed) > j.maxFails.value
       && exists u :: u in Tasks(j) && (Tasks(j)[u].Waiting? || Tasks(j)[u].Running?)
    then exists ts: seq<TakoId> :: after == before + [CancelReq(j.jobId, ts)] && Distinct(ts)
                      && forall u :: u in ts <==> u in Tasks(j) && (Tasks(j)[u].Waiting? || Tasks(j)[u].Running?)
    else after == before
  }

  lemma SpawnsOpen(j: Job, cancel: set<TakoId>, order: seq<TakoId>, before: seq<Request>, after: seq<Request>)
    requires
      if j.maxFails.Some? && Count(Tasks(j), StatusFailed) > j.maxFails.value
      then forall u :: u in cancel <==> u in Tasks(j) && (Tasks(j)[u].Waiting? || Tasks(j)[u].Running?)
      else cancel == {}
    requires Enumerates(order, cancel)
    requires after == if cancel != {} then before + [CancelReq(j.jobId, order)] else before
    ensures SpawnedFor(j, before, after)
  {
    hide Tasks, Count;
    if cancel != {} { var u :| u in cancel; assert u in Tasks(j); }
  }

  /** A failure report that exceeds the limit issues a cancel request for everything still open. */
  lemma FailureKeepsCover(s: Sys, now: Date, order: seq<TakoId>)
    requires MirrorInv(s) && CoverInv(s) && Enabled(s, Receive(now, order))
    requires s.fromTako[0].TaskEvent? && s.fromTako[0].c.ToFailed?
    ensures Next(s, Receive(now, order)).Some? && CoverInv(Next(s, Receive(now, order)).value)
  {
    hide TaskInv, ProcessTask, CoverInv, ToCancel, CancelSet, Stepped;
    TaskEventKeepsMirror(s, now);
    MirrorServer(s.v, s.delivered, s.fromTako, s.tako);
    FailureIsCovered(s, Next(s, Receive(now, order)).value, now, order);
  }

  lemma FailureIsCovered(s: Sys, s': Sys, now: Date, order: seq<TakoId>)
    requires ServerInv(s.v) && CoverInv(s) && s.fromTako != [] && s.fromTako[0].TaskEvent? && s.fromTako[0].c.ToFailed?
    requires ProcessTask(s.v, s.fromTako[0].t, s.fromTako[0].c, now).Out?
    requires
      var o := ProcessTask(s.v, s.fromTako[0].t, s.fromTako[0].c, now);
      && Stepped(s.v, o.v, o.sent) && s'.v == o.v
      && if ToCancel(o.v, s.fromTako[0].t) != {}
         then s'.spawned == s.spawned + [CancelReq(JobOf(o.v, s.fromTako[0].t).value, order)]
              && s'.refused == Reissued(s.refused, order)
         else s'.spawned == s.spawned && s'.refused == s.refused
    requires s'.toTako == s.toTako && s'.tako == s.tako
    requires Enumerates(order, CancelSet(s, now))
    ensures CoverInv(s')
  {
    hide ServerInv, ProcessTask, Exceeded, NonFinished, JobOf, Covered, ToCancel, CancelSet, Enumerates;
    var e := s.fromTako[0];
    var v' := ProcessTask(s.v, e.t, e.c, now).v;
    OtherJobs(s.v, e.t, e.c, now);
    forall id, t | id in s'.v.jobs && Exceeded(s'.v.jobs[id]) && t in NonFinished(s'.v.jobs[id]) ensures Covered(s', t) {
      if JobOf(v', e.t) == Some(id) {
        OrderCovers(s, v', e.t, id, t, order, now);
        NewlyCovered(s, s', CancelReq(id, order), t);
      } else {
        assert s'.v.jobs[id] == s.v.jobs[id];
        assert Covered(s, t);
        if ToCancel(v', e.t) != {} {
          CancelsSomeJob(v', e.t);
          StillCovered(s, s', t, JobOf(v', e.t).value, order);
        } else {
          StillCovered(s, s', t, id, order);
        }
      }
    }
  }

  lemma NewlyCovered(s: Sys, s': Sys, q: Request, t: TakoId)
    requires s'.spawned == s.spawned + [q] && q.CancelReq? && t in q.ts
    ensures Covered(s', t)
  {
    AskedAppend(s.spawned, q, t);
  }

  lemma CancelsSomeJob(v: Server, t: TakoId)
    requires ToCancel(v, t) != {}
    ensures JobOf(v, t).Some?
  {
  }

  /** Issuing a cancel request covers what it names, so an earlier refusal no longer matters. */
  lemma StillCovered(s: Sys, s': Sys, t: TakoId, j: JobId, order: seq<TakoId>)
    requires Covered(s, t) && s'.toTako == s.toTako && s'.tako == s.tako
    requires
      || (s'.spawned == s.spawned && s'.refused == s.refused)
      || (s'.spawned == s.spawned + [CancelReq(j, order)] && s'.refused == Reissued(s.refused, order))
    ensures Covered(s', t)
  {
    AskedAppend(s.spawned, CancelReq(j, order), t);
  }

  lemma OrderCovers(s: Sys, v': Server, t: TakoId, id: JobId, u: TakoId, order: seq<TakoId>, now: Date)
    requires s.fromTako != [] && s.fromTako[0].TaskEvent? && s.fromTako[0].c.ToFailed? && s.fromTako[0].t == t
    requires ProcessTask(s.v, t, s.fromTako[0].c, now).Out? && ProcessTask(s.v, t, s.fromTako[0].c, now).v == v'
    requires Enumerates(order, CancelSet(s, now))
    requires JobOf(v', t) == Some(id) && Exceeded(v'.jobs[id]) && u in NonFinished(v'.jobs[id])
    ensures u in order && ToCancel(v', t) != {}
  {
    hide ProcessTask, NonFinished, JobOf, Exceeded;
    assert u in ToCancel(v', t);
  }

  lemma OtherJobs(v: Server, t: TakoId, c: Change, now: Date)
    requires ServerInv(v) && ProcessTask(v, t, c, now).Out?
    requires Stepped(v, ProcessTask(v, t, c, now).v, ProcessTask(v, t, c, now).sent)
    ensures JobOf(ProcessTask(v, t, c, now).v, t) == JobOf(v, t)
    ensures forall id :: id in v.jobs && Some(id) != JobOf(v, t) ==>
              id in ProcessTask(v, t, c, now).v.jobs && ProcessTask(v, t, c, now).v.jobs[id] == v.jobs[id]
  {
    hide Tasks, Transit, ServerInv, JobOf, Stepped;
    var id, v' := JobOf(v, t).value, ProcessTask(v, t, c, now).v;
    SteppedInv(v, v', ProcessTask(v, t, c, now).sent);
    EvolvedShape(v.jobs[id], v'.jobs[id]);
    SameLookup(v, v', id, t);
  }

  lemma EvolvedShape(j: Job, j': Job)
    requires JobEvolves(j, j')
    ensures j'.base == j.base && NTasks(j') == NTasks(j)
  {
  }

  lemma SameLookup(v: Server, v': Server, id: JobId, t: TakoId)
    requires id in v.jobs && id in v'.jobs && v' == v.(jobs := v.jobs[id := v'.jobs[id]])
    requires v'.jobs[id].base == v.jobs[id].base && NTasks(v'.jobs[id]) == NTasks(v.jobs[id])
    ensures JobOf(v', t) == JobOf(v, t)
  {
    hide NTasks, Floor;
  }
}
