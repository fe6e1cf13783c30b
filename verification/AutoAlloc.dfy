/**
 * Automatic allocation: a tick refreshes the known allocations of a queue and then submits new ones
 * until the target number of workers is tracked. The queue's replies are arbitrary.
 */
module AutoAlloc {
  import opened Bytes

  datatype Status = Queued | Started

  datatype Allocation = Allocation(id: string, workers: nat, status: Status)

  datatype Event = QueueSuccess(id: string) | QueueFail | StatusFail | Finished(id: string)

  /** Reply of the queue to a status query, and to a submission. */
  datatype StatusReply = Alive(status: Status) | Gone | StatusError
  datatype SubmitReply = Accepted(id: string) | Rejected

  const MAX_EVENT_QUEUE_LENGTH := 20

  // ---- What a tick does, on values -----------------------------------------------------------

  function Workers(allocs: seq<Allocation>): nat
  {
    if allocs == [] then 0 else Workers(allocs[..|allocs| - 1]) + allocs[|allocs| - 1].workers
  }

  /** The allocations that are still tracked: only those the queue reports as alive. */
  function Kept(allocs: seq<Allocation>, replies: seq<StatusReply>): seq<Allocation>
    requires |allocs| == |replies|
  {
    if allocs == [] then []
    else
      var n := |allocs| - 1;
      Kept(allocs[..n], replies[..n])
      + if replies[n].Alive? then [allocs[n].(status := replies[n].status)] else []
  }

  function RefreshEvents(allocs: seq<Allocation>, replies: seq<StatusReply>): seq<Event>
    requires |allocs| == |replies|
  {
    if allocs == [] then []
    else
      var n := |allocs| - 1;
      RefreshEvents(allocs[..n], replies[..n])
      + match replies[n]
        case Alive(_) => []
        case Gone => [Finished(allocs[n].id)]
        case StatusError => [StatusFail]
  }

  /** The scheduling loop ends, see `LoopEnds`. */
  predicate Ends(remaining: nat, max: nat) { remaining == 0 || max >= 1 }

  /** The sizes of the submissions for `remaining` workers, at most `max` at a time. */
  function Sizes(remaining: nat, max: nat): seq<nat>
    requires Ends(remaining, max)
  {
    if remaining == 0 then []
    else if remaining <= max then [remaining]
    else [max] + Sizes(remaining - max, max)
  }

  function Submitted(sizes: seq<nat>, replies: seq<SubmitReply>): seq<Allocation>
    requires |sizes| == |replies|
  {
    if sizes == [] then []
    else
      var n := |sizes| - 1;
      Submitted(sizes[..n], replies[..n]) + SubmittedOne(sizes[n], replies[n])
  }

  function SubmittedOne(size: nat, reply: SubmitReply): seq<Allocation>
  {
    if reply.Accepted? then [Allocation(reply.id, size, Queued)] else []
  }

  lemma SubmittedSnoc(sizes: seq<nat>, replies: seq<SubmitReply>, k: nat)
    requires |sizes| == |replies| && k < |sizes|
    ensures Submitted(sizes[..k + 1], replies[..k + 1]) == Submitted(sizes[..k], replies[..k]) + SubmittedOne(sizes[k], replies[k])
    ensures SubmitEvents(replies[..k + 1])
         == SubmitEvents(replies[..k]) + [if replies[k].Accepted? then QueueSuccess(replies[k].id) else QueueFail]
  {
    hide SubmittedOne;
    assert sizes[..k + 1][..k] == sizes[..k] && replies[..k + 1][..k] == replies[..k];
  }

  lemma NothingSubmitted(max: nat)
    ensures Submitted([], []) == [] && SubmitEvents([]) == [] && Sizes(0, max) == []
  {
  }

  lemma SizesStep(sizes: seq<nat>, k: nat, remaining: nat, max: nat)
    requires max >= 1 && remaining > 0 && k <= |sizes| && sizes[k..] == Sizes(remaining, max)
    ensures
      var first := if remaining <= max then remaining else max;
      k < |sizes| && sizes[k] == first && sizes[k + 1..] == Sizes(remaining - first, max)
  {
    var first := if remaining <= max then remaining else max;
    assert sizes[k] == sizes[k..][0];
    assert sizes[k + 1..] == sizes[k..][1..];
  }

  function SubmitEvents(replies: seq<SubmitReply>): seq<Event>
  {
    if replies == [] then []
    else
      var r := replies[|replies| - 1];
      SubmitEvents(replies[..|replies| - 1]) + [if r.Accepted? then QueueSuccess(r.id) else QueueFail]
  }

  function Missing(target: nat, active: nat): nat { if active < target then target - active else 0 }

  /** The last `n` elements. */
  function Last(s: seq<Event>, n: nat): seq<Event> { if |s| <= n then s else s[|s| - n..] }

  /** `s` is all of `all` or, if that is longer than `n`, its end of length `n`. */
  predicate EndOf(s: seq<Event>, all: seq<Event>, n: nat)
  {
    if |all| <= n then s == all else |s| == n && s == all[|all| - n..]
  }

  // ---- The descriptor ------------------------------------------------------------------------

  /** State of one queue. `history` is the sequence of all events ever added. */
  class DescriptorState {
    var allocations: seq<Allocation>
    var events: seq<Event>
    ghost var history: seq<Event>

    ghost predicate Valid()
      reads this
    {
      events == Last(history, MAX_EVENT_QUEUE_LENGTH)
    }

    constructor ()
      ensures Valid() && allocations == [] && history == []
    {
      allocations, events := [], [];
      history := [];
    }

    /** `add_event`: the event log holds the last twenty events ever added. */
    method AddEvent(e: Event)
      requires Valid()
      modifies this`events, this`history
      ensures Valid() && history == old(history) + [e]
      ensures EndOf(events, history, 20)
    {
      events := events + [e];
      if |events| > MAX_EVENT_QUEUE_LENGTH {
        events := events[1..];
      }
      history := history + [e];
    }

    /** `refresh_allocations` */
    method Refresh(replies: seq<StatusReply>)
      requires Valid() && |replies| == |allocations|
      modifies this
      ensures Valid()
      ensures allocations == Kept(old(allocations), replies)
      ensures history == old(history) + RefreshEvents(old(allocations), replies)
    {
      hide Last, EndOf;
      var previous := allocations;
      allocations := [];
      assert history + [] == history;
      for k := 0 to |previous|
        invariant Valid()
        invariant allocations == Kept(previous[..k], replies[..k])
        invariant history == old(history) + RefreshEvents(previous[..k], replies[..k])
      {
        assert previous[..k + 1][..k] == previous[..k] && replies[..k + 1][..k] == replies[..k];
        match replies[k] {
          case Alive(s) => allocations := allocations + [previous[k].(status := s)];
          case Gone => AddEvent(Finished(previous[k].id));
          case StatusError => AddEvent(StatusFail);
        }
      }
      assert previous[..|previous|] == previous && replies[..|replies|] == replies;
    }

    /** The sum over the tracked allocations. */
    method ActiveWorkers() returns (n: nat)
      ensures n == Workers(allocations)
    {
      n := 0;
      for k := 0 to |allocations|
        invariant n == Workers(allocations[..k])
      {
        assert allocations[..k + 1][..k] == allocations[..k];
        n := n + allocations[k].workers;
      }
      assert allocations[..|allocations|] == allocations;
    }

    /** `schedule_new_allocations` */
    method Schedule(target: nat, max: nat, replies: seq<SubmitReply>)
      requires Valid() && Ends(Missing(target, Workers(allocations)), max)
      requires |replies| == |Sizes(Missing(target, Workers(allocations)), max)|
      modifies this
      ensures Valid()
      ensures
        var sizes := Sizes(Missing(target, Workers(old(allocations))), max);
        && allocations == old(allocations) + Submitted(sizes, replies)
        && history == old(history) + SubmitEvents(replies)
    {
      hide Submitted, SubmitEvents, Sizes, Workers, Last, EndOf;
      assert Submitted([], []) == [] && SubmitEvents([]) == [] && Sizes(0, max) == [] by { NothingSubmitted(max); }
      var active := ActiveWorkers();
      var remaining: nat := Missing(target, active);
      ghost var sizes := Sizes(remaining, max);
      var k := 0;
      assert allocations + [] == allocations && history + [] == history;
      while remaining > 0
        invariant Valid() && Ends(remaining, max) && k <= |sizes| && sizes[k..] == Sizes(remaining, max)
        invariant allocations == old(allocations) + Submitted(sizes[..k], replies[..k])
        invariant history == old(history) + SubmitEvents(replies[..k])
      {
        var toSchedule := if remaining <= max then remaining else max;
        SizesStep(sizes, k, remaining, max);
        SubmittedSnoc(sizes, replies, k);
        match replies[k] {
          case Accepted(id) =>
            AddEvent(QueueSuccess(id));
            allocations := allocations + [Allocation(id, toSchedule, Queued)];
          case Rejected => AddEvent(QueueFail);
        }
        remaining := remaining - toSchedule;
        k := k + 1;
      }
      assert sizes[..k] == sizes && replies[..k] == replies;
    }
  }

  /** `process_descriptor`: refresh, then schedule. */
  method Tick(d: DescriptorState, target: nat, max: nat, statuses: seq<StatusReply>, replies: seq<SubmitReply>)
    requires d.Valid() && TickOk(d.allocations, target, max, statuses, replies)
    modifies d
    ensures d.Valid()
    ensures d.allocations == After(old(d.allocations), target, max, statuses, replies)
    ensures d.history == old(d.history) + RefreshEvents(old(d.allocations), statuses) + SubmitEvents(replies)
  {
    d.Refresh(statuses);
    d.Schedule(target, max, replies);
  }

  // ---- When the scheduling loop ends ---------------------------------------------------------

  /** What is left to schedule after some rounds of the loop. */
  function Left(remaining: nat, max: nat, rounds: nat): nat
  {
    if rounds == 0 then remaining
    else
      var r := Left(remaining, max, rounds - 1);
      r - if r <= max then r else max
  }

  lemma {:induction false} LeftShrinks(remaining: nat, max: nat, rounds: nat)
    ensures max == 0 ==> Left(remaining, max, rounds) == remaining
    ensures max >= 1 ==> Left(remaining, max, rounds) <= if rounds < remaining then remaining - rounds else 0
  {
    if rounds > 0 { LeftShrinks(remaining, max, rounds - 1); }
  }

  /** The loop ends if and only if there is nothing to schedule or the queue takes at least one worker at a time. */
  lemma LoopEnds(remaining: nat, max: nat)
    ensures (exists rounds: nat :: Left(remaining, max, rounds) == 0) <==> Ends(remaining, max)
  {
    if Ends(remaining, max) {
      LeftShrinks(remaining, max, remaining);
      assert Left(remaining, max, remaining) == 0;
    } else {
      forall rounds: nat ensures Left(remaining, max, rounds) != 0 { LeftShrinks(remaining, max, rounds); }
    }
  }

  // ---- What each reply leads to --------------------------------------------------------------

  /** The number of allocations not reported as alive. */
  function Ended(replies: seq<StatusReply>): (n: nat)
    ensures n <= |replies|
  {
    if replies == [] then 0
    else Ended(replies[..|replies| - 1]) + if replies[|replies| - 1].Alive? then 0 else 1
  }

  lemma {:induction false} RefreshLengths(allocs: seq<Allocation>, replies: seq<StatusReply>)
    requires |allocs| == |replies|
    ensures |Kept(allocs, replies)| == |allocs| - Ended(replies) && |RefreshEvents(allocs, replies)| == Ended(replies)
  {
    if allocs != [] { RefreshLengths(allocs[..|allocs| - 1], replies[..|replies| - 1]); }
  }

  /**
   * One allocation of a refresh: reported alive, it stays as it was under its new status; gone, it is
   * logged as finished; and a failed query is logged as such. Both lists keep the order.
   */
  lemma {:induction false} RefreshReports(allocs: seq<Allocation>, replies: seq<StatusReply>, k: nat)
    requires |allocs| == |replies| && k < |allocs|
    ensures |Kept(allocs, replies)| == |allocs| - Ended(replies) && |RefreshEvents(allocs, replies)| == Ended(replies)
    ensures replies[k].Alive? ==>
              && k - Ended(replies[..k]) < |Kept(allocs, replies)|
              && Kept(allocs, replies)[k - Ended(replies[..k])] == Allocation(allocs[k].id, allocs[k].workers, replies[k].status)
    ensures !replies[k].Alive? ==>
              && Ended(replies[..k]) < |RefreshEvents(allocs, replies)|
              && RefreshEvents(allocs, replies)[Ended(replies[..k])]
                 == if replies[k].Gone? then Finished(allocs[k].id) else StatusFail
  {
    var n := |allocs| - 1;
    RefreshLengths(allocs, replies);
    RefreshLengths(allocs[..n], replies[..n]);
    if k < n {
      RefreshReports(allocs[..n], replies[..n], k);
      assert replies[..n][..k] == replies[..k];
    }
  }

  /** The number of rejected submissions. */
  function Refused(replies: seq<SubmitReply>): (n: nat)
    ensures n <= |replies|
  {
    if replies == [] then 0
    else Refused(replies[..|replies| - 1]) + if replies[|replies| - 1].Accepted? then 0 else 1
  }

  /**
   * One submission: accepted, it is logged under the id the queue gave it and tracked as queued with
   * the workers asked for; rejected, it is logged as failed. Both lists keep the order.
   */
  lemma {:induction false} SubmissionReports(sizes: seq<nat>, replies: seq<SubmitReply>, k: nat)
    requires |sizes| == |replies| && k < |sizes|
    ensures |SubmitEvents(replies)| == |replies| && |Submitted(sizes, replies)| == |replies| - Refused(replies)
    ensures SubmitEvents(replies)[k] == if replies[k].Accepted? then QueueSuccess(replies[k].id) else QueueFail
    ensures replies[k].Accepted? ==>
              && k - Refused(replies[..k]) < |Submitted(sizes, replies)|
              && Submitted(sizes, replies)[k - Refused(replies[..k])] == Allocation(replies[k].id, sizes[k], Queued)
  {
    hide Submitted, SubmitEvents, Refused;
    EventAt(replies, k);
    TrackedAt(sizes, replies, k);
  }

  lemma {:induction false} EventAt(replies: seq<SubmitReply>, k: nat)
    requires k < |replies|
    ensures |SubmitEvents(replies)| == |replies|
    ensures SubmitEvents(replies)[k] == if replies[k].Accepted? then QueueSuccess(replies[k].id) else QueueFail
  {
    var n := |replies| - 1;
    if n > 0 { EventAt(replies[..n], if k < n then k else 0); }
  }

  lemma {:induction false} TrackedAt(sizes: seq<nat>, replies: seq<SubmitReply>, k: nat)
    requires |sizes| == |replies| && k < |sizes|
    ensures |Submitted(sizes, replies)| == |replies| - Refused(replies)
    ensures replies[k].Accepted? ==>
              && k - Refused(replies[..k]) < |Submitted(sizes, replies)|
              && Submitted(sizes, replies)[k - Refused(replies[..k])] == Allocation(replies[k].id, sizes[k], Queued)
  {
    hide Submitted, Refused;
    var n := |sizes| - 1;
    TrackedLength(sizes[..n], replies[..n]);
    LastSubmission(sizes, replies);
    if k < n {
      TrackedAt(sizes[..n], replies[..n], k);
      assert replies[..n][..k] == replies[..k];
    }
  }

  lemma LastSubmission(sizes: seq<nat>, replies: seq<SubmitReply>)
    requires |sizes| == |replies| && sizes != []
    ensures
      var n := |sizes| - 1;
      && Submitted(sizes, replies) == Submitted(sizes[..n], replies[..n]) + SubmittedOne(sizes[n], replies[n])
      && Refused(replies) == Refused(replies[..n]) + if replies[n].Accepted? then 0 else 1
  {
    hide SubmittedOne;
  }

  lemma {:induction false} TrackedLength(sizes: seq<nat>, replies: seq<SubmitReply>)
    requires |sizes| == |replies|
    ensures |Submitted(sizes, replies)| == |replies| - Refused(replies)
  {
    if sizes != [] { TrackedLength(sizes[..|sizes| - 1], replies[..|replies| - 1]); }
  }

  // ---- Properties of a tick ------------------------------------------------------------------

  /** The queue answers every query and every submission of the tick, and the tick ends. */
  predicate TickOk(allocs: seq<Allocation>, target: nat, max: nat, statuses: seq<StatusReply>, replies: seq<SubmitReply>)
  {
    && |statuses| == |allocs|
    && var missing := Missing(target, Workers(Kept(allocs, statuses)));
    Ends(missing, max) && |replies| == |Sizes(missing, max)|
  }

  function After(allocs: seq<Allocation>, target: nat, max: nat, statuses: seq<StatusReply>, replies: seq<SubmitReply>): seq<Allocation>
    requires TickOk(allocs, target, max, statuses, replies)
  {
    var kept := Kept(allocs, statuses);
    kept + Submitted(Sizes(Missing(target, Workers(kept)), max), replies)
  }

  function Sum(ns: seq<nat>): nat { if ns == [] then 0 else Sum(ns[..|ns| - 1]) + ns[|ns| - 1] }

  lemma {:induction false} SumAppend(a: seq<nat>, b: seq<nat>)
    ensures Sum(a + b) == Sum(a) + Sum(b)
  {
    if b == [] {
      assert a + b == a;
    } else {
      SumAppend(a, b[..|b| - 1]);
      assert (a + b)[..|a + b| - 1] == a + b[..|b| - 1];
    }
  }

  /** `n` is the quotient of `total` by `max`, rounded up. */
  predicate Ceiling(n: nat, total: nat, max: nat) { n * max >= total && (n > 0 ==> n * max < total + max) }

  lemma CeilingStep(n: nat, total: nat, max: nat)
    requires Ceiling(n, total, max) && total > 0
    ensures Ceiling(n + 1, total + max, max)
  {
    assert (n + 1) * max == n * max + max;
  }

  /** The submissions add up to what is missing, each is between one and the maximum, and they are as few as possible. */
  lemma {:induction false} SizesAdd(remaining: nat, max: nat)
    requires Ends(remaining, max)
    ensures Sum(Sizes(remaining, max)) == remaining
    ensures forall k :: 0 <= k < |Sizes(remaining, max)| ==> 1 <= Sizes(remaining, max)[k] <= max
    ensures Ceiling(|Sizes(remaining, max)|, remaining, max)
    decreases remaining
  {
    hide Ceiling;
    if remaining > max {
      var rest := Sizes(remaining - max, max);
      SizesAdd(remaining - max, max);
      SumAppend([max], rest);
      assert Sum([max]) == max by { assert [max][..0] == []; }
      CeilingStep(|rest|, remaining - max, max);
    } else {
      SmallSizes(remaining, max);
    }
  }

  lemma SmallSizes(remaining: nat, max: nat)
    requires remaining <= max
    ensures Sum(Sizes(remaining, max)) == remaining && Ceiling(|Sizes(remaining, max)|, remaining, max)
  {
    if remaining > 0 { assert [remaining][..0] == []; }
  }

  lemma {:induction false} WorkersAppend(a: seq<Allocation>, b: seq<Allocation>)
    ensures Workers(a + b) == Workers(a) + Workers(b)
  {
    if b == [] {
      assert a + b == a;
    } else {
      WorkersAppend(a, b[..|b| - 1]);
      assert (a + b)[..|a + b| - 1] == a + b[..|b| - 1];
    }
  }

  predicate AllAccepted(replies: seq<SubmitReply>) { forall k :: 0 <= k < |replies| ==> replies[k].Accepted? }

  /** Workers of submissions the queue rejected. */
  function RejectedWorkers(sizes: seq<nat>, replies: seq<SubmitReply>): nat
    requires |sizes| == |replies|
  {
    if sizes == [] then 0
    else
      var n := |sizes| - 1;
      RejectedWorkers(sizes[..n], replies[..n]) + if replies[n].Rejected? then sizes[n] else 0
  }

  /** Every submitted worker is either tracked or was rejected. */
  lemma {:induction false} SubmittedWorkers(sizes: seq<nat>, replies: seq<SubmitReply>)
    requires |sizes| == |replies|
    ensures Workers(Submitted(sizes, replies)) + RejectedWorkers(sizes, replies) == Sum(sizes)
    ensures AllAccepted(replies) ==> RejectedWorkers(sizes, replies) == 0
  {
    hide Workers, SubmittedOne;
    if sizes != [] {
      var n := |sizes| - 1;
      SubmittedWorkers(sizes[..n], replies[..n]);
      WorkersAppend(Submitted(sizes[..n], replies[..n]), SubmittedOne(sizes[n], replies[n]));
      OneWorkers(sizes[n], replies[n]);
    } else {
      NoWorkers();
    }
  }

  lemma NoWorkers()
    ensures Workers([]) == 0
  {
  }

  lemma OneWorkers(size: nat, reply: SubmitReply)
    ensures Workers(SubmittedOne(size, reply)) == if reply.Accepted? then size else 0
  {
    var s := SubmittedOne(size, reply);
    if reply.Accepted? { assert s[..0] == []; }
  }

  lemma {:induction false} SubmittedSizes(sizes: seq<nat>, replies: seq<SubmitReply>, max: nat)
    requires |sizes| == |replies| && forall k :: 0 <= k < |sizes| ==> 1 <= sizes[k] <= max
    ensures SizesOk(Submitted(sizes, replies), max)
  {
    if sizes != [] {
      var n := |sizes| - 1;
      SubmittedSizes(sizes[..n], replies[..n], max);
    }
  }

  /** Workers of allocations the queue reports as gone. */
  function GoneWorkers(allocs: seq<Allocation>, replies: seq<StatusReply>): nat
    requires |allocs| == |replies|
  {
    if allocs == [] then 0
    else
      var n := |allocs| - 1;
      GoneWorkers(allocs[..n], replies[..n]) + if replies[n].Gone? then allocs[n].workers else 0
  }

  /** Workers of allocations that are forgotten because their status query failed. */
  function DroppedWorkers(allocs: seq<Allocation>, replies: seq<StatusReply>): nat
    requires |allocs| == |replies|
  {
    if allocs == [] then 0
    else
      var n := |allocs| - 1;
      DroppedWorkers(allocs[..n], replies[..n]) + if replies[n].StatusError? then allocs[n].workers else 0
  }

  /** A refresh keeps, drops as gone, or forgets every worker it knew. */
  lemma {:induction false} KeptWorkers(allocs: seq<Allocation>, replies: seq<StatusReply>)
    requires |allocs| == |replies|
    ensures Workers(Kept(allocs, replies)) + GoneWorkers(allocs, replies) + DroppedWorkers(allocs, replies) == Workers(allocs)
  {
    if allocs != [] {
      var n := |allocs| - 1;
      KeptWorkers(allocs[..n], replies[..n]);
      var s := Kept(allocs, replies);
      if replies[n].Alive? {
        assert s[..|s| - 1] == Kept(allocs[..n], replies[..n]);
      } else {
        assert s == Kept(allocs[..n], replies[..n]);
      }
    }
  }

  lemma {:induction false} KeptSizes(allocs: seq<Allocation>, replies: seq<StatusReply>, max: nat)
    requires |allocs| == |replies| && SizesOk(allocs, max)
    ensures SizesOk(Kept(allocs, replies), max)
  {
    if allocs != [] {
      var n := |allocs| - 1;
      assert allocs[n] in allocs;
      KeptSizes(allocs[..n], replies[..n], max);
    }
  }

  predicate SizesOk(allocs: seq<Allocation>, max: nat) { forall a :: a in allocs ==> 1 <= a.workers <= max }

  /**
   * One tick: the tracked workers do not exceed the target if they did not before and fall short of it
   * by exactly the rejected submissions; every allocation has between one and the maximal number of
   * workers.
   */
  lemma TickReachesTarget(allocs: seq<Allocation>, target: nat, max: nat, statuses: seq<StatusReply>, replies: seq<SubmitReply>)
    requires TickOk(allocs, target, max, statuses, replies)
    requires Workers(allocs) <= target && SizesOk(allocs, max)
    ensures
      var sizes := Sizes(Missing(target, Workers(Kept(allocs, statuses))), max);
      Workers(After(allocs, target, max, statuses, replies)) == target - RejectedWorkers(sizes, replies)
    ensures SizesOk(After(allocs, target, max, statuses, replies), max)
    ensures AllAccepted(replies) ==> Workers(After(allocs, target, max, statuses, replies)) == target
  {
    var kept := Kept(allocs, statuses);
    var sizes := Sizes(Missing(target, Workers(kept)), max);
    KeptWorkers(allocs, statuses);
    KeptSizes(allocs, statuses, max);
    SizesAdd(Missing(target, Workers(kept)), max);
    SubmittedWorkers(sizes, replies);
    SubmittedSizes(sizes, replies, max);
    hide Kept, Sizes, Submitted, Workers, Sum;
    WorkersAppend(kept, Submitted(sizes, replies));
  }

  // ---- Any number of ticks -------------------------------------------------------------------

  datatype Replies = Replies(statuses: seq<StatusReply>, submits: seq<SubmitReply>)

  /**
   * The tracked allocations together with an account of everything the queue has said so far: the
   * workers of all accepted submissions, of all allocations reported as gone, of all allocations
   * whose status query failed, and of the submissions rejected in the last tick.
   */
  datatype Ledger = Ledger(tracked: seq<Allocation>, submitted: nat, gone: nat, forgotten: nat, rejected: nat)

  function NextLedger(l: Ledger, target: nat, max: nat, r: Replies): Ledger
    requires TickOk(l.tracked, target, max, r.statuses, r.submits)
  {
    var kept := Kept(l.tracked, r.statuses);
    var sizes := Sizes(Missing(target, Workers(kept)), max);
    Ledger(After(l.tracked, target, max, r.statuses, r.submits),
           l.submitted + Workers(Submitted(sizes, r.submits)),
           l.gone + GoneWorkers(l.tracked, r.statuses),
           l.forgotten + DroppedWorkers(l.tracked, r.statuses),
           RejectedWorkers(sizes, r.submits))
  }

  /** The ledger after a number of ticks; None when the replies do not fit. */
  function AfterTicks(target: nat, max: nat, ticks: seq<Replies>): Option<Ledger>
  {
    if ticks == [] then Some(Ledger([], 0, 0, 0, 0))
    else
      var before, r := AfterTicks(target, max, ticks[..|ticks| - 1]), ticks[|ticks| - 1];
      if before.Some? && TickOk(before.value.tracked, target, max, r.statuses, r.submits)
      then Some(NextLedger(before.value, target, max, r)) else None
  }

  /** Whatever the queue replies over any number of ticks, the tracked workers never exceed the target. */
  lemma {:induction false} NeverAboveTarget(target: nat, max: nat, ticks: seq<Replies>)
    requires AfterTicks(target, max, ticks).Some?
    ensures
      var l := AfterTicks(target, max, ticks).value;
      && Workers(l.tracked) <= target && SizesOk(l.tracked, max)
      && (ticks != [] ==> Workers(l.tracked) + l.rejected == target)
      && (ticks != [] && AllAccepted(ticks[|ticks| - 1].submits) ==> Workers(l.tracked) == target)
  {
    hide After, TickOk, Workers;
    if ticks != [] {
      var init, r := ticks[..|ticks| - 1], ticks[|ticks| - 1];
      NeverAboveTarget(target, max, init);
      TickReachesTarget(AfterTicks(target, max, init).value.tracked, target, max, r.statuses, r.submits);
    } else {
      NoWorkers();
    }
  }

  // ---- What the queue really holds -----------------------------------------------------------

  /** Workers the queue has accepted and not reported as gone. */
  function Held(l: Ledger): int { l.submitted - l.gone }

  /** Over any number of ticks: what the queue holds is what is tracked plus what was ever forgotten. */
  lemma {:induction false} HeldIsTrackedAndForgotten(target: nat, max: nat, ticks: seq<Replies>)
    requires AfterTicks(target, max, ticks).Some?
    ensures var l := AfterTicks(target, max, ticks).value; Held(l) == Workers(l.tracked) + l.forgotten
  {
    hide TickOk, Workers, Kept, Submitted, Sizes;
    if ticks != [] {
      var init, r := ticks[..|ticks| - 1], ticks[|ticks| - 1];
      HeldIsTrackedAndForgotten(target, max, init);
      LedgerStep(AfterTicks(target, max, init).value, target, max, r);
    } else {
      NoWorkers();
    }
  }

  lemma LedgerStep(l: Ledger, target: nat, max: nat, r: Replies)
    requires TickOk(l.tracked, target, max, r.statuses, r.submits) && Held(l) == Workers(l.tracked) + l.forgotten
    ensures var n := NextLedger(l, target, max, r); Held(n) == Workers(n.tracked) + n.forgotten
  {
    hide Workers, Submitted, Sizes;
    var kept := Kept(l.tracked, r.statuses);
    KeptWorkers(l.tracked, r.statuses);
    hide Kept;
    WorkersAppend(kept, Submitted(Sizes(Missing(target, Workers(kept)), max), r.submits));
  }

  /** No status query has ever failed. */
  predicate NoQueryFailed(ticks: seq<Replies>)
  {
    forall k :: 0 <= k < |ticks| ==> StatusError !in ticks[k].statuses
  }

  lemma {:induction false} DroppedIffFailed(allocs: seq<Allocation>, replies: seq<StatusReply>, max: nat)
    requires |allocs| == |replies| && SizesOk(allocs, max)
    ensures DroppedWorkers(allocs, replies) == 0 <==> StatusError !in replies
  {
    if allocs != [] {
      var n := |allocs| - 1;
      assert allocs[n] in allocs;
      DroppedIffFailed(allocs[..n], replies[..n], max);
      assert replies == replies[..n] + [replies[n]];
    }
  }

  lemma {:induction false} ForgottenIffFailed(target: nat, max: nat, ticks: seq<Replies>)
    requires AfterTicks(target, max, ticks).Some?
    ensures AfterTicks(target, max, ticks).value.forgotten == 0 <==> NoQueryFailed(ticks)
  {
    hide TickOk, NextLedger, SizesOk, NoQueryFailed, Workers;
    if ticks != [] {
      var init, r := ticks[..|ticks| - 1], ticks[|ticks| - 1];
      ForgottenIffFailed(target, max, init);
      NeverAboveTarget(target, max, init);
      ForgottenStep(AfterTicks(target, max, init).value, target, max, r);
      FailedSnoc(ticks);
    } else {
      assert NoQueryFailed([]) by { FailedNever(); }
    }
  }

  lemma FailedNever()
    ensures NoQueryFailed([])
  {
  }

  lemma FailedSnoc(ticks: seq<Replies>)
    requires ticks != []
    ensures NoQueryFailed(ticks) <==> NoQueryFailed(ticks[..|ticks| - 1]) && StatusError !in ticks[|ticks| - 1].statuses
  {
  }

  lemma ForgottenStep(l: Ledger, target: nat, max: nat, r: Replies)
    requires TickOk(l.tracked, target, max, r.statuses, r.submits) && SizesOk(l.tracked, max)
    ensures NextLedger(l, target, max, r).forgotten == 0 <==> l.forgotten == 0 && StatusError !in r.statuses
  {
    hide SizesOk, Workers, Kept, Sizes, Submitted, DroppedWorkers;
    DroppedIffFailed(l.tracked, r.statuses, max);
  }

  /**
   * The queue itself can hold more than the target, because an allocation whose status query failed
   * is forgotten for good. After every tick it holds the target plus all workers ever forgotten minus
   * those rejected in that tick. So it is within the target if and only if the workers ever forgotten
   * do not exceed the rejected ones; after a tick without rejections, if and only if no status query
   * has ever failed.
   */
  lemma QueueOverallocation(target: nat, max: nat, ticks: seq<Replies>)
    requires AfterTicks(target, max, ticks).Some? && ticks != []
    ensures
      var l := AfterTicks(target, max, ticks).value;
      && Held(l) == target + l.forgotten - l.rejected
      && (Held(l) <= target <==> l.forgotten <= l.rejected)
      && (NoQueryFailed(ticks) ==> Held(l) <= target)
      && (AllAccepted(ticks[|ticks| - 1].submits) ==> (Held(l) <= target <==> NoQueryFailed(ticks)))
  {
    hide AfterTicks, Workers, SizesOk, NoQueryFailed;
    NeverAboveTarget(target, max, ticks);
    HeldIsTrackedAndForgotten(target, max, ticks);
    ForgottenIffFailed(target, max, ticks);
  }

  /**
   * A single failed query is enough: with a target of four workers the queue takes "x", the query for
   * "x" fails and "y" is submitted, and from then on the queue holds eight although every reply is fine.
   */
  lemma OverallocationHappens()
    ensures
      var ticks := [Replies([], [Accepted("x")])] + [Replies([StatusError], [Accepted("y")])] + [Replies([Alive(Started)], [])];
      AfterTicks(4, 4, ticks).Some? && Held(AfterTicks(4, 4, ticks).value) == 8
  {
    hide NextLedger, TickOk, AfterTicks, Kept, GoneWorkers, DroppedWorkers;
    var y := Allocation("y", 4, Queued);
    var third := Replies([Alive(Started)], []);
    var l2, l3 := Ledger([y], 8, 0, 4, 0), Ledger([y.(status := Started)], 8, 0, 4, 0);
    TwoTicks();
    OneReply(y, Alive(Started));
    FullTick(l2, third, l3);
    TickSnoc(4, 4, [Replies([], [Accepted("x")])] + [Replies([StatusError], [Accepted("y")])], third);
  }

  lemma TwoTicks()
    ensures AfterTicks(4, 4, [Replies([], [Accepted("x")])] + [Replies([StatusError], [Accepted("y")])])
         == Some(Ledger([Allocation("y", 4, Queued)], 8, 0, 4, 0))
  {
    hide NextLedger, TickOk, AfterTicks, Kept, GoneWorkers, DroppedWorkers;
    var x, first, second := Allocation("x", 4, Queued), Replies([], [Accepted("x")]), Replies([StatusError], [Accepted("y")]);
    var l0, l1 := Ledger([], 0, 0, 0, 0), Ledger([x], 4, 0, 0, 0);
    NothingKept();
    NoTicks(4, 4);
    EmptyTick(l0, first, l1);
    TickSnoc(4, 4, [], first);
    assert [] + [first] == [first];
    OneReply(x, StatusError);
    EmptyTick(l1, second, Ledger([Allocation("y", 4, Queued)], 8, 0, 4, 0));
    TickSnoc(4, 4, [first], second);
  }

  lemma NoTicks(target: nat, max: nat)
    ensures AfterTicks(target, max, []) == Some(Ledger([], 0, 0, 0, 0))
  {
  }

  /** A tick that keeps nothing and submits one allocation of four workers. */
  lemma EmptyTick(l: Ledger, r: Replies, l': Ledger)
    requires |r.statuses| == |l.tracked| && Kept(l.tracked, r.statuses) == []
    requires |r.submits| == 1 && r.submits[0].Accepted?
    requires l' == Ledger([Allocation(r.submits[0].id, 4, Queued)], l.submitted + 4, l.gone + GoneWorkers(l.tracked, r.statuses),
                          l.forgotten + DroppedWorkers(l.tracked, r.statuses), 0)
    ensures TickOk(l.tracked, 4, 4, r.statuses, r.submits) && NextLedger(l, 4, 4, r) == l'
  {
    hide Kept, GoneWorkers, DroppedWorkers;
    NoWorkers();
    assert Sizes(4, 4) == [4];
    assert r.submits == [r.submits[0]];
    OneSubmission(4, r.submits[0]);
    OneAllocation(l'.tracked[0]);
    hide Workers, Submitted, RejectedWorkers, Sizes;
  }

  /** A tick that keeps exactly the four workers wanted. */
  lemma FullTick(l: Ledger, r: Replies, l': Ledger)
    requires |r.statuses| == |l.tracked| && Kept(l.tracked, r.statuses) == l'.tracked && r.submits == []
    requires |l'.tracked| == 1 && l'.tracked[0].workers == 4
    requires l' == Ledger(l'.tracked, l.submitted, l.gone + GoneWorkers(l.tracked, r.statuses),
                          l.forgotten + DroppedWorkers(l.tracked, r.statuses), 0)
    ensures TickOk(l.tracked, 4, 4, r.statuses, r.submits) && NextLedger(l, 4, 4, r) == l'
  {
    hide Kept, GoneWorkers, DroppedWorkers;
    NoWorkers();
    NothingKept();
    assert l'.tracked == [l'.tracked[0]];
    OneAllocation(l'.tracked[0]);
    hide Workers, Submitted, RejectedWorkers;
  }

  lemma NothingKept()
    ensures Kept([], []) == [] && GoneWorkers([], []) == 0 && DroppedWorkers([], []) == 0
    ensures Submitted([], []) == [] && RejectedWorkers([], []) == 0
  {
  }

  lemma OneAllocation(a: Allocation)
    ensures Workers([a]) == a.workers
  {
    assert [a][..0] == [];
  }

  lemma OneReply(a: Allocation, r: StatusReply)
    ensures Kept([a], [r]) == if r.Alive? then [a.(status := r.status)] else []
    ensures GoneWorkers([a], [r]) == if r.Gone? then a.workers else 0
    ensures DroppedWorkers([a], [r]) == if r.StatusError? then a.workers else 0
  {
    assert [a][..0] == [] && [r][..0] == [];
  }

  lemma OneSubmission(size: nat, r: SubmitReply)
    ensures Submitted([size], [r]) == SubmittedOne(size, r)
    ensures RejectedWorkers([size], [r]) == if r.Rejected? then size else 0
  {
    assert [size][..0] == [] && [r][..0] == [];
  }

  lemma TickSnoc(target: nat, max: nat, ticks: seq<Replies>, r: Replies)
    requires AfterTicks(target, max, ticks).Some?
    requires TickOk(AfterTicks(target, max, ticks).value.tracked, target, max, r.statuses, r.submits)
    ensures AfterTicks(target, max, ticks + [r]) == Some(NextLedger(AfterTicks(target, max, ticks).value, target, max, r))
  {
    assert (ticks + [r])[..|ticks|] == ticks;
  }
}
