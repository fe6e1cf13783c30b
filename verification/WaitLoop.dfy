/**
 * The client's wait command: polls the jobs it still waits for, adds up the counters of those that
 * have terminated, and stops when none remains.
 */
module WaitLoop {
  import opened Bytes
  import opened IntArray
  import ArrayParser
  import opened JobModel
  import opened JobStatus

  /** What the server would answer about its jobs at one poll. */
  type Snapshot = map<U32, JobInfo>

  datatype WaitResult = NothingToWaitFor | AllFinished | SomeFailed | SomeCanceled | ConnectionLost

  function Add(a: Counters, b: Counters): Counters
  {
    Counters(a.running + b.running, a.finished + b.finished, a.failed + b.failed, a.canceled + b.canceled)
  }

  const ZERO := Counters(0, 0, 0, 0)

  function DoneTasks(c: Counters): int { c.finished + c.failed + c.canceled }

  // ---- Sums over sets of jobs ----------------------------------------------------------------

  /** The counters of the jobs of a set, added up. */
  ghost function Total(final: map<U32, Counters>, s: set<U32>): Counters
    requires s <= final.Keys
  {
    if s == {} then ZERO
    else
      var x :| x in s;
      Add(final[x], Total(final, s - {x}))
  }

  lemma {:induction false} TotalRemove(final: map<U32, Counters>, s: set<U32>, x: U32)
    requires s <= final.Keys && x in s
    ensures Total(final, s) == Add(final[x], Total(final, s - {x}))
    decreases |s|
  {
    var y :| y in s && Total(final, s) == Add(final[y], Total(final, s - {y}));
    if y != x {
      var rest := s - {y} - {x};
      assert s - {x} - {y} == rest;
      TotalRemove(final, s - {y}, x);
      TotalRemove(final, s - {x}, y);
      assert Total(final, s - {y}) == Add(final[x], Total(final, rest));
      assert Total(final, s - {x}) == Add(final[y], Total(final, rest));
      AddCommutes(final[x], final[y], Total(final, rest));
    }
  }

  lemma AddCommutes(a: Counters, b: Counters, c: Counters)
    ensures Add(a, Add(b, c)) == Add(b, Add(a, c))
    ensures Add(a, b) == Add(b, a)
    ensures DoneTasks(Add(a, b)) == DoneTasks(a) + DoneTasks(b)
  {
  }

  ghost function Sum(n: map<U32, nat>, s: set<U32>): nat
    requires s <= n.Keys
  {
    if s == {} then 0
    else
      var x :| x in s;
      n[x] + Sum(n, s - {x})
  }

  lemma {:induction false} SumRemove(n: map<U32, nat>, s: set<U32>, x: U32)
    requires s <= n.Keys && x in s
    ensures Sum(n, s) == n[x] + Sum(n, s - {x})
    decreases |s|
  {
    var y :| y in s && Sum(n, s) == n[y] + Sum(n, s - {y});
    if y != x {
      var rest := s - {y} - {x};
      assert s - {x} - {y} == rest;
      SumRemove(n, s - {y}, x);
      SumRemove(n, s - {x}, y);
      assert Sum(n, s - {y}) == n[x] + Sum(n, rest);
      assert Sum(n, s - {x}) == n[y] + Sum(n, rest);
    }
  }

  lemma {:induction false} TotalUpdate(final: map<U32, Counters>, s: set<U32>, x: U32, c: Counters)
    requires s <= final.Keys && x !in s
    ensures Total(final[x := c], s + {x}) == Add(Total(final, s), c)
  {
    hide Total, Add;
    TotalRemove(final[x := c], s + {x}, x);
    assert s + {x} - {x} == s;
    SameTotal(final, final[x := c], s);
    AddCommutes(Total(final, s), c, ZERO);
  }

  lemma {:induction false} SameTotal(f: map<U32, Counters>, g: map<U32, Counters>, s: set<U32>)
    requires s <= f.Keys && s <= g.Keys && forall x :: x in s ==> f[x] == g[x]
    ensures Total(f, s) == Total(g, s)
    decreases |s|
  {
    if s != {} {
      var x :| x in s;
      TotalRemove(f, s, x);
      TotalRemove(g, s, x);
      SameTotal(f, g, s - {x});
    }
  }

  lemma EmptyTotal(final: map<U32, Counters>, n: map<U32, nat>)
    ensures Total(final, {}) == ZERO && Sum(n, {}) == 0 == DoneTasks(ZERO)
  {
  }

  /** If every job's final counters account for all its tasks, so do the totals. */
  lemma {:induction false} TotalAccounts(final: map<U32, Counters>, n: map<U32, nat>, s: set<U32>)
    requires s <= final.Keys && s <= n.Keys && forall x :: x in s ==> DoneTasks(final[x]) == n[x]
    ensures DoneTasks(Total(final, s)) == Sum(n, s)
    decreases |s|
  {
    hide Total, Sum, Add, DoneTasks;
    if s == {} {
      EmptyTotal(final, n);
    } else {
      var x :| x in s;
      TotalRemove(final, s, x);
      SumRemove(n, s, x);
      TotalAccounts(final, n, s - {x});
      AddCommutes(final[x], Total(final, s - {x}), ZERO);
    }
  }

  // ---- The jobs waited for -------------------------------------------------------------------

  /** `jobs.retain(|info| !is_terminated(info))` */
  function Unfinished(jobs: seq<JobInfo>): (r: seq<JobInfo>)
    ensures forall j :: j in r <==> j in jobs && !Terminated(j)
  {
    if jobs == [] then []
    else Unfinished(jobs[..|jobs| - 1]) + if Terminated(jobs[|jobs| - 1]) then [] else [jobs[|jobs| - 1]]
  }

  predicate DistinctJobs(jobs: seq<JobInfo>) { forall i, j :: 0 <= i < j < |jobs| ==> jobs[i].id != jobs[j].id }

  /** Job ids are 32-bit numbers below the largest one. */
  predicate SmallIds(jobs: seq<JobInfo>) { forall j :: j in jobs ==> j.id < MAX_U32 }

  function IdsOf(jobs: seq<JobInfo>): set<U32>
    requires SmallIds(jobs)
  {
    set j | j in jobs :: j.id
  }

  function TasksOf(jobs: seq<JobInfo>): nat
  {
    if jobs == [] then 0 else TasksOf(jobs[..|jobs| - 1]) + jobs[|jobs| - 1].nTasks
  }

  /** Number of tasks of each of the jobs. */
  function SizesOf(jobs: seq<JobInfo>): (m: map<U32, nat>)
    requires SmallIds(jobs)
    ensures m.Keys == IdsOf(jobs)
  {
    if jobs == [] then map[]
    else
      var init, last := jobs[..|jobs| - 1], jobs[|jobs| - 1];
      assert jobs == init + [last];
      SizesOf(init)[last.id := last.nTasks]
  }

  lemma {:induction false} UnfinishedDistinct(jobs: seq<JobInfo>)
    requires DistinctJobs(jobs)
    ensures DistinctJobs(Unfinished(jobs))
  {
    if jobs != [] {
      var init, last := jobs[..|jobs| - 1], jobs[|jobs| - 1];
      UnfinishedDistinct(init);
      var r := Unfinished(init);
      forall k | 0 <= k < |r| ensures r[k].id != last.id {
        assert r[k] in r;
        assert r[k] in init;
      }
    }
  }

  lemma SnocIds(jobs: seq<JobInfo>)
    requires SmallIds(jobs) && DistinctJobs(jobs) && jobs != []
    ensures
      var init, last := jobs[..|jobs| - 1], jobs[|jobs| - 1];
      && SmallIds(init) && DistinctJobs(init) && last.id < MAX_U32
      && last.id !in IdsOf(init) && IdsOf(jobs) == IdsOf(init) + {last.id}
  {
    var init, last := jobs[..|jobs| - 1], jobs[|jobs| - 1];
    assert jobs == init + [last];
    assert last in jobs;
  }

  lemma {:induction false} TasksAreSummed(jobs: seq<JobInfo>)
    requires SmallIds(jobs) && DistinctJobs(jobs)
    ensures Sum(SizesOf(jobs), IdsOf(jobs)) == TasksOf(jobs)
    ensures jobs != [] ==> IdsOf(jobs) != {}
  {
    hide Sum, IdsOf, SmallIds, DistinctJobs;
    if jobs == [] {
      EmptyIds();
      EmptyTotal(map[], SizesOf(jobs));
    } else {
      var init, last := jobs[..|jobs| - 1], jobs[|jobs| - 1];
      SnocIds(jobs);
      TasksAreSummed(init);
      var n := SizesOf(jobs);
      assert n == SizesOf(init)[last.id := last.nTasks];
      hide SizesOf;
      SumRemove(n, IdsOf(jobs), last.id);
      assert IdsOf(jobs) - {last.id} == IdsOf(init);
      SameSum(SizesOf(init), n, IdsOf(init));
    }
  }

  lemma EmptyIds()
    ensures SmallIds([]) && IdsOf([]) == {}
  {
  }

  lemma {:induction false} SameSum(f: map<U32, nat>, g: map<U32, nat>, s: set<U32>)
    requires s <= f.Keys && s <= g.Keys && forall x :: x in s ==> f[x] == g[x]
    ensures Sum(f, s) == Sum(g, s)
    decreases |s|
  {
    if s != {} {
      var x :| x in s;
      SumRemove(f, s, x);
      SumRemove(g, s, x);
      SameSum(f, g, s - {x});
    }
  }

  // ---- Polls ---------------------------------------------------------------------------------

  /** Counters are unsigned. */
  predicate Unsigned(c: Counters) { c.running >= 0 && c.finished >= 0 && c.failed >= 0 && c.canceled >= 0 }

  /** A snapshot of the server: jobs stay, under their own id and with their number of tasks. */
  predicate SnapshotOk(p: Snapshot, n: map<U32, nat>)
  {
    forall id :: id in n ==> id in p && p[id].id == id && p[id].nTasks == n[id] && Unsigned(p[id].counters)
  }

  /** What the server answers for a list of ids: `compute_job_info` with specific ids. */
  function Answer(p: Snapshot, ids: seq<U32>): seq<JobInfo>
  {
    if ids == [] then []
    else Answer(p, ids[..|ids| - 1]) + if ids[|ids| - 1] in p then [p[ids[|ids| - 1]]] else []
  }

  lemma {:induction false} AnswerCovers(p: Snapshot, ids: seq<U32>)
    requires forall x :: x in ids ==> x in p
    ensures |Answer(p, ids)| == |ids| && forall k :: 0 <= k < |ids| ==> Answer(p, ids)[k] == p[ids[k]]
  {
    if ids != [] {
      assert ids[|ids| - 1] in ids;
      AnswerCovers(p, ids[..|ids| - 1]);
    }
  }

  /** The job is seen terminated for the first time at poll `k`. */
  ghost predicate TerminatesAt(polls: seq<Snapshot>, id: U32, k: nat)
  {
    && k < |polls| && id in polls[k] && Terminated(polls[k][id])
    && forall i :: 0 <= i < k ==> id in polls[i] && !Terminated(polls[i][id])
  }

  /** Job `id` was added with the counters it had when it was first seen terminated. */
  ghost predicate AddedOnce(polls: seq<Snapshot>, k: nat, id: U32, c: Counters)
  {
    exists i: nat :: i < k && TerminatesAt(polls, id, i) && polls[i][id].counters == c
  }

  /** State of the wait loop after `k` polls. */
  ghost predicate WaitInv(polls: seq<Snapshot>, n: map<U32, nat>, k: nat, remaining: set<U32>,
                          final: map<U32, Counters>, counters: Counters)
  {
    && k <= |polls| && remaining <= n.Keys && final.Keys == n.Keys - remaining
    && counters == Total(final, final.Keys)
    && (forall id :: id in remaining ==> forall i :: 0 <= i < k ==> id in polls[i] && !Terminated(polls[i][id]))
    && (forall id :: id in final ==> AddedOnce(polls, k, id, final[id]) && DoneTasks(final[id]) == n[id])
  }

  /** A terminated job's counters account for all its tasks. */
  lemma TerminatedAccounts(info: JobInfo)
    requires Terminated(info)
    ensures DoneTasks(info.counters) == info.nTasks
  {
  }

  /** Within poll `k`, after the first `i` of the polled jobs have been looked at. */
  ghost predicate PollInv(polls: seq<Snapshot>, n: map<U32, nat>, k: nat, ids: seq<U32>, i: nat, all: set<U32>,
                          remaining: set<U32>, final: map<U32, Counters>, counters: Counters)
    requires k < |polls| && SnapshotOk(polls[k], n) && i <= |ids|
  {
    && remaining <= all <= n.Keys && final.Keys == n.Keys - remaining
    && counters == Total(final, final.Keys)
    && (forall x :: x in ids[i..] ==> x in remaining)
    && (forall x :: x in remaining && x in ids[..i] ==> !Terminated(polls[k][x]))
    && (forall id :: id in final ==> AddedOnce(polls, k + 1, id, final[id]) && DoneTasks(final[id]) == n[id])
  }

  /** A terminated job is added with its counters and no longer waited for. */
  lemma AddTerminated(polls: seq<Snapshot>, n: map<U32, nat>, k: nat, ids: seq<U32>, i: nat, all: set<U32>,
                      remaining: set<U32>, final: map<U32, Counters>, counters: Counters)
    requires k < |polls| && SnapshotOk(polls[k], n) && i < |ids|
    requires PollInv(polls, n, k, ids, i, all, remaining, final, counters)
    requires forall a, b :: 0 <= a < b < |ids| ==> ids[a] != ids[b]
    requires ids[i] in n && TerminatesAt(polls, ids[i], k)
    ensures
      var x, c := ids[i], polls[k][ids[i]].counters;
      PollInv(polls, n, k, ids, i + 1, all, remaining - {x}, final[x := c], Add(counters, c))
  {
    hide Total, Terminated, Add, DoneTasks;
    var x, c := ids[i], polls[k][ids[i]].counters;
    assert x in ids[i..];
    assert AddedOnce(polls, k + 1, x, c);
    TerminatedAccounts(polls[k][x]);
    TotalUpdate(final, final.Keys, x, c);
    assert final[x := c].Keys == final.Keys + {x};
    assert ids[i..] == [x] + ids[i + 1..];
    assert x !in ids[i + 1..];
    assert ids[..i + 1] == ids[..i] + [x];
  }

  lemma SkipRunning(polls: seq<Snapshot>, n: map<U32, nat>, k: nat, ids: seq<U32>, i: nat, all: set<U32>,
                    remaining: set<U32>, final: map<U32, Counters>, counters: Counters)
    requires k < |polls| && SnapshotOk(polls[k], n) && i < |ids|
    requires PollInv(polls, n, k, ids, i, all, remaining, final, counters)
    requires ids[i] in n && !Terminated(polls[k][ids[i]])
    ensures PollInv(polls, n, k, ids, i + 1, all, remaining, final, counters)
  {
    hide Total, Terminated, DoneTasks, AddedOnce;
    assert ids[i..] == [ids[i]] + ids[i + 1..];
    assert ids[..i + 1] == ids[..i] + [ids[i]];
  }

  /** One poll: every job that is still waited for is looked at once. */
  method Poll(polls: seq<Snapshot>, k: nat, ids: seq<U32>, remaining: set<U32>, counters: Counters,
              ghost n: map<U32, nat>, ghost final: map<U32, Counters>)
    returns (remaining': set<U32>, counters': Counters, ghost final': map<U32, Counters>)
    requires k < |polls| && SnapshotOk(polls[k], n) && WaitInv(polls, n, k, remaining, final, counters)
    requires Lists(ids, remaining)
    ensures WaitInv(polls, n, k + 1, remaining', final', counters')
    ensures remaining' <= remaining
  {
    hide Total, Terminated, AddedOnce, PollInv, Add;
    var jobs := Answer(polls[k], ids);
    AnswerCovers(polls[k], ids);
    remaining', counters', final' := remaining, counters, final;
    PollStarts(polls, n, k, ids, remaining, final, counters);
    for i := 0 to |jobs|
      invariant PollInv(polls, n, k, ids, i, remaining, remaining', final', counters')
    {
      var job := jobs[i];
      assert ids[i] in ids;
      assert job == polls[k][ids[i]] && job.id == ids[i];
      if Terminated(job) {
        AddTerminated(polls, n, k, ids, i, remaining, remaining', final', counters');
        final' := final'[job.id := job.counters];
        remaining' := remaining' - {job.id};
        counters' := Add(counters', job.counters);
      } else {
        SkipRunning(polls, n, k, ids, i, remaining, remaining', final', counters');
      }
    }
    PollEnds(polls, n, k, ids, remaining, remaining', final, counters, final', counters');
  }

  lemma PollStarts(polls: seq<Snapshot>, n: map<U32, nat>, k: nat, ids: seq<U32>, remaining: set<U32>,
                   final: map<U32, Counters>, counters: Counters)
    requires k < |polls| && SnapshotOk(polls[k], n) && WaitInv(polls, n, k, remaining, final, counters)
    requires Lists(ids, remaining)
    ensures PollInv(polls, n, k, ids, 0, remaining, remaining, final, counters)
  {
    hide Total, DoneTasks;
    assert ids[0..] == ids;
    forall id | id in final ensures AddedOnce(polls, k + 1, id, final[id]) {
      var i: nat :| i < k && TerminatesAt(polls, id, i) && polls[i][id].counters == final[id];
    }
  }

  lemma PollEnds(polls: seq<Snapshot>, n: map<U32, nat>, k: nat, ids: seq<U32>, all: set<U32>, remaining: set<U32>,
                 final0: map<U32, Counters>, counters0: Counters, final: map<U32, Counters>, counters: Counters)
    requires k < |polls| && SnapshotOk(polls[k], n) && Lists(ids, all)
    requires WaitInv(polls, n, k, all, final0, counters0)
    requires PollInv(polls, n, k, ids, |ids|, all, remaining, final, counters)
    ensures WaitInv(polls, n, k + 1, remaining, final, counters) && remaining <= all
  {
    hide Total, DoneTasks, AddedOnce, Terminated;
    assert ids[..|ids|] == ids;
  }

  /** A list without repetitions of exactly the given ids, in whatever order the set is iterated. */
  ghost predicate Lists(order: seq<U32>, s: set<U32>)
  {
    (forall x :: x in order <==> x in s) && forall i, j :: 0 <= i < j < |order| ==> order[i] != order[j]
  }

  /** The ids sent to the server, compressed into ranges, come out as the same ids, each once. */
  lemma PolledIds(order: seq<U32>, s: set<U32>)
    requires Lists(order, s) && forall x :: x in s ==> x < MAX_U32
    ensures Iterable(Compress(order)) && Lists(Iter(Compress(order)), s)
  {
    hide Compress, Iter;
    forall k | 0 <= k < |order| ensures order[k] < MAX_U32 { assert order[k] in order; }
    CompressKeepsIds(order);
    var ids := Iter(Compress(order));
    forall x ensures x in ids <==> x in s {
      assert x in ids <==> x in multiset(ids);
      assert x in order <==> x in multiset(order);
    }
    ArrayParser.DistinctCount(order);
    ArrayParser.DistinctCount(ids);
  }

  predicate AnyFailed(final: map<U32, Counters>, s: set<U32>) { exists id :: id in s && id in final && final[id].failed > 0 }

  predicate AnyCanceled(final: map<U32, Counters>, s: set<U32>)
  {
    exists id :: id in s && id in final && final[id].canceled > 0
  }

  lemma AnyStep(final: map<U32, Counters>, s: set<U32>, x: U32)
    requires x in s && s <= final.Keys
    ensures AnyFailed(final, s) <==> final[x].failed > 0 || AnyFailed(final, s - {x})
    ensures AnyCanceled(final, s) <==> final[x].canceled > 0 || AnyCanceled(final, s - {x})
  {
    assert forall id :: id in s <==> id == x || id in s - {x};
  }

  lemma AnyOfNone(final: map<U32, Counters>)
    ensures !AnyFailed(final, {}) && !AnyCanceled(final, {})
    ensures Unsigned(Total(final, {})) && Total(final, {}).failed == 0 == Total(final, {}).canceled
  {
  }

  lemma AddShows(a: Counters, b: Counters)
    requires Unsigned(a) && Unsigned(b)
    ensures Unsigned(Add(a, b))
    ensures Add(a, b).failed > 0 <==> a.failed > 0 || b.failed > 0
    ensures Add(a, b).canceled > 0 <==> a.canceled > 0 || b.canceled > 0
  {
  }

  /** The totals say whether any job has failed or canceled tasks. */
  lemma {:induction false} TotalShows(final: map<U32, Counters>, s: set<U32>)
    requires s <= final.Keys && forall id :: id in s ==> Unsigned(final[id])
    ensures Unsigned(Total(final, s))
    ensures Total(final, s).failed > 0 <==> AnyFailed(final, s)
    ensures Total(final, s).canceled > 0 <==> AnyCanceled(final, s)
    decreases |s|
  {
    hide Total, AnyFailed, AnyCanceled, Add, Unsigned;
    if s == {} {
      AnyOfNone(final);
    } else {
      var x :| x in s;
      TotalRemove(final, s, x);
      AnyStep(final, s, x);
      TotalShows(final, s - {x});
      AddShows(final[x], Total(final, s - {x}));
    }
  }

  lemma AddedAreUnsigned(polls: seq<Snapshot>, n: map<U32, nat>, final: map<U32, Counters>)
    requires final.Keys <= n.Keys && forall k :: 0 <= k < |polls| ==> SnapshotOk(polls[k], n)
    requires forall id :: id in final ==> AddedOnce(polls, |polls|, id, final[id])
    ensures forall id :: id in final ==> Unsigned(final[id])
  {
    hide Unsigned;
    forall id | id in final ensures Unsigned(final[id]) {
      var i: nat :| i < |polls| && TerminatesAt(polls, id, i) && polls[i][id].counters == final[id];
      assert SnapshotOk(polls[i], n);
    }
  }

  /** The hash set of remaining ids is iterated in some order; nothing more is known about it. */
  method SomeOrder(s: set<U32>) returns (order: seq<U32>)
    ensures Lists(order, s)
  {
    order := Ascending(s);
    AscendingIsSorted(s);
  }

  /**
   * `wait_for_jobs`. When the loop ends, every job waited for has been added exactly once, with the
   * counters it had when it was first seen terminated, and finished, failed and canceled tasks add
   * up to all tasks waited for. The command fails because of failed tasks if some job has any, because
   * of canceled ones if none has failed ones and some has canceled ones, and succeeds if and only if
   * all tasks waited for are finished. The polls are what the connection delivers before it breaks.
   */
  method WaitForJobs(jobs: seq<JobInfo>, polls: seq<Snapshot>)
    returns (r: WaitResult, counters: Counters, ghost final: map<U32, Counters>)
    requires DistinctJobs(jobs) && SmallIds(jobs)
    requires forall k :: 0 <= k < |polls| ==> SnapshotOk(polls[k], SizesOf(Unfinished(jobs)))
    ensures r.NothingToWaitFor? <==> Unfinished(jobs) == []
    ensures !r.NothingToWaitFor? && !r.ConnectionLost? ==>
              && (r.SomeFailed? <==> exists id :: id in final && final[id].failed > 0)
              && (r.SomeCanceled? <==> (forall id :: id in final ==> final[id].failed == 0)
                                       && exists id :: id in final && final[id].canceled > 0)
              && (r.AllFinished? <==> counters.finished == TasksOf(Unfinished(jobs)))
              && final.Keys == IdsOf(Unfinished(jobs))
              && (forall id :: id in final ==> AddedOnce(polls, |polls|, id, final[id]))
              && counters == Total(final, final.Keys)
              && DoneTasks(counters) == TasksOf(Unfinished(jobs))
    ensures r.ConnectionLost? ==>
              exists id :: id in IdsOf(Unfinished(jobs)) &&
                           forall k :: 0 <= k < |polls| ==> id in polls[k] && !Terminated(polls[k][id])
  {
    hide Total, Terminated, Compress, Iter, SizesOf, IdsOf, Unfinished, SnapshotOk, AddedOnce, WaitInv;
    counters, final := ZERO, map[];
    var waiting := Unfinished(jobs);
    UnfinishedDistinct(jobs);
    TasksAreSummed(waiting);
    if waiting == [] { return NothingToWaitFor, counters, final; }
    ghost var n := SizesOf(waiting);
    var remaining := IdsOf(waiting);
    WaitStarts(polls, n, remaining);
    for k := 0 to |polls|
      invariant WaitInv(polls, n, k, remaining, final, counters) && remaining != {}
    {
      var order := SomeOrder(remaining);
      SmallRemaining(waiting, remaining, polls, n, k, final, counters);
      PolledIds(order, remaining);
      var ranges := FromIds(order);
      var ids := Iter(ranges);
      remaining, counters, final := Poll(polls, k, ids, remaining, counters, n, final);
      if remaining == {} {
        WaitEnds(polls, n, k + 1, final, counters);
        AddedAreUnsigned(polls, n, final);
        TotalShows(final, final.Keys);
        if counters.failed > 0 { return SomeFailed, counters, final; }
        if counters.canceled > 0 { return SomeCanceled, counters, final; }
        return AllFinished, counters, final;
      }
    }
    StillRunning(polls, n, remaining, final, counters);
    r := ConnectionLost;
  }

  lemma WaitStarts(polls: seq<Snapshot>, n: map<U32, nat>, ids: set<U32>)
    requires n.Keys == ids
    ensures WaitInv(polls, n, 0, ids, map[], ZERO)
  {
  }

  lemma SmallRemaining(jobs: seq<JobInfo>, remaining: set<U32>, polls: seq<Snapshot>, n: map<U32, nat>, k: nat,
                       final: map<U32, Counters>, counters: Counters)
    requires SmallIds(jobs) && n == SizesOf(jobs) && WaitInv(polls, n, k, remaining, final, counters)
    ensures forall x :: x in remaining ==> x < MAX_U32
  {
    hide Total;
  }

  lemma WaitEnds(polls: seq<Snapshot>, n: map<U32, nat>, k: nat, final: map<U32, Counters>, counters: Counters)
    requires WaitInv(polls, n, k, {}, final, counters)
    ensures final.Keys == n.Keys && counters == Total(final, final.Keys) && DoneTasks(counters) == Sum(n, n.Keys)
    ensures forall id :: id in final ==> AddedOnce(polls, |polls|, id, final[id])
  {
    hide Total, Sum;
    assert n.Keys - {} == n.Keys;
    TotalAccounts(final, n, n.Keys);
    forall id | id in final ensures AddedOnce(polls, |polls|, id, final[id]) {
      var i: nat :| i < k && TerminatesAt(polls, id, i) && polls[i][id].counters == final[id];
    }
  }

  lemma StillRunning(polls: seq<Snapshot>, n: map<U32, nat>, remaining: set<U32>, final: map<U32, Counters>, counters: Counters)
    requires WaitInv(polls, n, |polls|, remaining, final, counters) && remaining != {}
    ensures exists id :: id in n && forall k :: 0 <= k < |polls| ==> id in polls[k] && !Terminated(polls[k][id])
  {
    hide Total;
    var id :| id in remaining;
    assert id in n;
  }
}
