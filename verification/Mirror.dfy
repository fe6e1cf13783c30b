/**
 * The server mirrors its backend: the server's view of every task, brought up to date by the events
 * in flight, is the backend's phase of that task, in every state of every run. From this follows
 * that no message can arrive in a state where its transition would panic.
 */
module Mirror {
  import opened Bytes
  import opened JobModel
  import opened ServerModel
  import opened ServerSteps
  import opened Backend

  ghost predicate Mirrored(v: Server, chain: seq<Event>, tako: map<TakoId, Phase>, t: TakoId)
  {
    Known(v, t) ==> ReplayTask(Abs(View(v, t).value), chain, t) == Some(PhaseOf(tako, t))
  }

  /** The event names tasks that the server knows, each once. */
  ghost predicate EventOk(v: Server, e: Event)
  {
    match e
    case TaskEvent(t, _) => Known(v, t)
    case LostWorker(_, ts) => Distinct(ts) && forall t :: t in ts ==> Known(v, t)
    case CancelResponse(j, ts) => Distinct(ts) && j in v.jobs && forall t :: t in ts ==> t in Tasks(v.jobs[j])
    case _ => true
  }

  ghost predicate TaskInv(v: Server, delivered: seq<Event>, queue: seq<Event>, tako: map<TakoId, Phase>)
  {
    && ServerInv(v)
    && (forall t :: Mirrored(v, delivered + queue, tako, t))
    && (forall e :: e in delivered + queue ==> EventOk(v, e))
    && (forall e :: e in delivered ==> e.CancelResponse?)
    && (forall t :: t in tako ==> Known(v, t))
  }

  // ---- The server's knowledge grows ----------------------------------------------------------

  lemma KnownStays(v: Server, v': Server, t: TakoId)
    requires ServerInv(v) && ServerInv(v') && Evolves(v, v') && Known(v, t)
    ensures Known(v', t)
  {
    hide ServerInv, Tasks, Terminal, SameJob;
    KnownJob(v, t);
    var id := JobOf(v, t).value;
    assert JobEvolves(v.jobs[id], v'.jobs[id]);
    assert t in Tasks(v'.jobs[id]);
    ViewOf(v', t, id);
  }

  lemma EventOkStays(v: Server, v': Server, e: Event)
    requires ServerInv(v) && ServerInv(v') && Evolves(v, v') && EventOk(v, e)
    ensures EventOk(v', e)
  {
    hide ServerInv, Tasks, Terminal, SameJob, Known, Distinct;
    match e
    case TaskEvent(t, _) => KnownStays(v, v', t);
    case LostWorker(_, ts) => forall t | t in ts ensures Known(v', t) { KnownStays(v, v', t); }
    case CancelResponse(j, ts) => assert JobEvolves(v.jobs[j], v'.jobs[j]);
    case _ =>
  }

  lemma TasksAreKnown(v: Server, id: JobId, t: TakoId)
    requires ServerInv(v) && id in v.jobs && t in Tasks(v.jobs[id])
    ensures Known(v, t)
  {
    hide ServerInv;
    ViewOf(v, t, id);
  }

  // ---- The backend reports a change ----------------------------------------------------------

  /** An event that reports exactly what changed in the backend keeps the mirror. */
  lemma EmitKeeps(v: Server, delivered: seq<Event>, queue: seq<Event>, tako: map<TakoId, Phase>,
                  e: Event, tako': map<TakoId, Phase>)
    requires TaskInv(v, delivered, queue, tako) && EventOk(v, e)
    requires forall t :: t in tako' ==> Known(v, t)
    requires forall t :: FollowEvent(PhaseOf(tako, t), e, t) == Some(PhaseOf(tako', t))
    ensures TaskInv(v, delivered, queue + [e], tako')
  {
    hide ServerInv, View, FollowEvent, PhaseOf, EventOk, Abs;
    var chain := delivered + queue;
    assert delivered + (queue + [e]) == chain + [e];
    forall t ensures Mirrored(v, chain + [e], tako', t) {
      assert Mirrored(v, chain, tako, t);
      if Known(v, t) { ReplaySnoc(Abs(View(v, t).value), chain, e, t); }
    }
    forall x | x in chain + [e] ensures EventOk(v, x) {
      assert x in chain || x == e;
    }
  }

  // ---- The server takes an event -------------------------------------------------------------

  /** Nothing in flight before the event concerns a task it names. */
  lemma NothingBefore(v: Server, delivered: seq<Event>, queue: seq<Event>, tako: map<TakoId, Phase>, k: nat, t: TakoId)
    requires TaskInv(v, delivered, queue, tako)
    requires k <= |delivered| && k < |delivered + queue| && Effect((delivered + queue)[k], t).Some?
    ensures Known(v, t)
    ensures forall i :: 0 <= i < k ==> Effect((delivered + queue)[i], t).None?
  {
    hide ServerInv, View, Abs, PhaseOf;
    var chain := delivered + queue;
    assert chain[k] in chain;
    assert EventOk(v, chain[k]);
    assert Known(v, t) by { EffectIsKnown(v, chain[k], t); }
    assert Mirrored(v, chain, tako, t);
    forall i | 0 <= i < k ensures Effect(chain[i], t).None? {
      assert chain[i] == delivered[i] && delivered[i] in delivered;
      if Effect(chain[i], t).Some? { CancelIsLast(Abs(View(v, t).value), chain, i, k, t); }
    }
  }

  lemma EffectIsKnown(v: Server, e: Event, t: TakoId)
    requires ServerInv(v) && EventOk(v, e) && Effect(e, t).Some?
    ensures Known(v, t)
  {
    hide ServerInv, Known, Distinct;
    if e.CancelResponse? { TasksAreKnown(v, e.job, t); }
  }

  /** The transition the next event asks for is legal: it does not panic. */
  lemma NextEventIsLegal(v: Server, delivered: seq<Event>, queue: seq<Event>, tako: map<TakoId, Phase>,
                         k: nat, t: TakoId, now: Date)
    requires TaskInv(v, delivered, queue, tako)
    requires k <= |delivered| && k < |delivered + queue| && Effect((delivered + queue)[k], t).Some?
    ensures
      var chain, c := delivered + queue, Effect((delivered + queue)[k], t).value;
      && Known(v, t) && Changed(v, t, c, now).Some?
      && ReplayTask(Abs(Changed(v, t, c, now).value), RemoveAt(chain, k), t) == Some(PhaseOf(tako, t))
  {
    hide ServerInv, View, Abs, PhaseOf, EventOk, Effect, Follow, NextState;
    NothingBefore(v, delivered, queue, tako, k, t);
    var chain := delivered + queue;
    assert Mirrored(v, chain, tako, t);
    var s := View(v, t).value;
    ReplayFirst(Abs(s), chain, k, t);
    FollowIsNextState(s, Effect(chain[k], t).value, now);
  }

  /** Applying the next event to the server's tasks keeps the mirror. */
  lemma ApplyKeeps(v: Server, delivered: seq<Event>, queue: seq<Event>, tako: map<TakoId, Phase>,
                   k: nat, v': Server, delivered': seq<Event>, queue': seq<Event>, now: Date)
    requires TaskInv(v, delivered, queue, tako)
    requires k <= |delivered| && k < |delivered + queue|
    requires delivered' + queue' == RemoveAt(delivered + queue, k)
    requires forall e :: e in delivered' ==> e.CancelResponse?
    requires ServerInv(v') && Evolves(v, v')
    requires forall t :: View(v', t) == if Effect((delivered + queue)[k], t).Some?
                                        then Changed(v, t, Effect((delivered + queue)[k], t).value, now) else View(v, t)
    ensures TaskInv(v', delivered', queue', tako)
  {
    hide ServerInv, View, Abs, PhaseOf, EventOk, Effect, Changed, Evolves;
    var chain := delivered + queue;
    var rest := RemoveAt(chain, k);
    forall t ensures Mirrored(v', rest, tako, t) {
      if Effect(chain[k], t).Some? {
        NextEventIsLegal(v, delivered, queue, tako, k, t, now);
      } else {
        assert Mirrored(v, chain, tako, t);
        if Known(v, t) { ReplayWithout(Abs(View(v, t).value), chain, k, t); }
      }
    }
    forall e | e in rest ensures EventOk(v', e) {
      assert e in chain;
      EventOkStays(v, v', e);
    }
    forall t | t in tako ensures Known(v', t) { KnownStays(v, v', t); }
  }

  // ---- A job is submitted --------------------------------------------------------------------

  /** Tasks of a new job wait, are unknown to the backend, and nothing about them is in flight. */
  lemma SubmitKeepsMirror(v: Server, delivered: seq<Event>, queue: seq<Event>, tako: map<TakoId, Phase>, r: SubmitRequest)
    requires TaskInv(v, delivered, queue, tako) && Fitting(r.jobType)
    ensures IterableType(r.jobType) && Submit(v, r).Submitted?
    ensures TaskInv(Submit(v, r).v, delivered, queue, tako) && Evolves(v, Submit(v, r).v)
  {
    hide ServerInv, View, Abs, PhaseOf, EventOk, Submit, Tasks;
    SubmitKeeps(v, r);
    var v' := Submit(v, r).v;
    SubmitEvolves(v, r);
    var chain := delivered + queue;
    forall t ensures Mirrored(v', chain, tako, t) {
      if Known(v, t) {
        assert Mirrored(v, chain, tako, t);
        OldView(v, v', t);
      } else if Known(v', t) {
        NewView(v, r, t);
        forall i | 0 <= i < |chain| ensures Effect(chain[i], t).None? {
          assert chain[i] in chain;
          if Effect(chain[i], t).Some? { EffectIsKnown(v, chain[i], t); }
        }
        ReplayUntouched(PWaiting, chain, t);
        AbsentWaits(tako, t);
      }
    }
    forall e | e in chain ensures EventOk(v', e) { EventOkStays(v, v', e); }
    forall t | t in tako ensures Known(v', t) { KnownStays(v, v', t); }
  }

  lemma AbsentWaits(tako: map<TakoId, Phase>, t: TakoId)
    requires t !in tako
    ensures PhaseOf(tako, t) == PWaiting == Abs(Waiting)
  {
  }

  lemma SubmitEvolves(v: Server, r: SubmitRequest)
    requires ServerInv(v) && Fitting(r.jobType)
    ensures IterableType(r.jobType) && Submit(v, r).Submitted? && Evolves(v, Submit(v, r).v)
  {
    hide ServerInv, Submit, Tasks, NTasks;
    SubmitKeeps(v, r);
  }

  lemma OldView(v: Server, v': Server, t: TakoId)
    requires ServerInv(v) && ServerInv(v') && Known(v, t)
    requires forall id :: id in v.jobs ==> id in v'.jobs && v'.jobs[id] == v.jobs[id]
    ensures View(v', t) == View(v, t)
  {
    hide ServerInv, Tasks;
    KnownJob(v, t);
    ViewOf(v', t, JobOf(v, t).value);
  }

  lemma NewView(v: Server, r: SubmitRequest, t: TakoId)
    requires ServerInv(v) && Fitting(r.jobType) && IterableType(r.jobType) && Submit(v, r).Submitted?
    requires ServerInv(Submit(v, r).v) && !Known(v, t) && Known(Submit(v, r).v, t)
    ensures View(Submit(v, r).v, t) == Some(Waiting)
  {
    hide ServerInv, Tasks;
    SubmitKeeps(v, r);
    var v' := Submit(v, r).v;
    KnownJob(v', t);
    var id := JobOf(v', t).value;
    if id in v.jobs {
      TasksAreKnown(v, id, t);
    } else {
      NewJobInv(r, v.jobCounter, v.taskCounter);
      ViewOf(v', t, id);
    }
  }
}
