/** Requests of clients that select tasks or jobs: resubmission by status and the last jobs. */
module ClientRequests {
  import opened Bytes
  import opened IntArray
  import opened ArrayParser
  import opened JobModel
  import opened ServerModel

  // ---- Arrays given on the command line ------------------------------------------------------

  /** The array names no id twice: the command line accepts no other. */
  predicate DistinctType(jt: JobType)
  {
    IterableType(jt) && (jt.Array? ==> Distinct(Iter(jt.ranges)))
  }

  /**
   * Every accepted text names no id twice. It denotes an array without empty ranges and without
   * wrap-around if and only if it does not name the largest id and its spans stay below 2^32.
   */
  lemma AcceptedIsSound(s: string)
    requires ParseArray(s).Some?
    ensures
      var rs := ParseArray(s).value;
      && PRange(s).Ok? && DistinctType(Array(rs))
      && (SoundType(Array(rs)) <==> !NamesLargest(s) && SpanSum(rs) < 0x1_0000_0000)
      && (SoundType(Array(rs)) ==> Fitting(Array(rs)))
  {
    hide PRange, PRanges, NamesLargest, Iter, WellFormed, IdCount;
    AcceptedIsWellFormed(s);
    var jt := Array(ParseArray(s).value);
    if SoundType(jt) { SoundIsFitting(jt); }
  }

  const EVENS := IntRange(0, 0xFFFF_FFFF, 2)
  const ODDS := IntRange(1, 0xFFFF_FFFD, 2)

  lemma EvensAndOdds()
    ensures |RangeIter(EVENS)| == 0x8000_0000 && |RangeIter(ODDS)| == 0x7FFF_FFFF
    ensures forall k: nat :: k < |RangeIter(EVENS)| ==> RangeIter(EVENS)[k] == 2 * k
    ensures forall k: nat :: k < |RangeIter(ODDS)| ==> RangeIter(ODDS)[k] == 1 + 2 * k
  {
    StepsAt(0, 0xFFFF_FFFF, 2, 0x8000_0000);
    StepsAt(0, 0xFFFF_FFFF, 2, 0x7FFF_FFFF);
    StepsAt(1, 0xFFFF_FFFE, 2, 0x7FFF_FFFF);
    StepsAt(1, 0xFFFF_FFFE, 2, 0x7FFF_FFFE);
    forall k: nat | k < |RangeIter(EVENS)| ensures RangeIter(EVENS)[k] == 2 * k { StepsAt(0, 0xFFFF_FFFF, 2, k); }
    forall k: nat | k < |RangeIter(ODDS)| ensures RangeIter(ODDS)[k] == 1 + 2 * k { StepsAt(1, 0xFFFF_FFFE, 2, k); }
  }

  /**
   * Interleaved ranges show that the spans matter: the text 0-4294967294:2,1-4294967293:2 is accepted
   * and does not name the largest id, and yet fewer ids are reserved for the job than it has tasks.
   */
  lemma WideArray()
    ensures
      var rs := [EVENS, ODDS];
      ParseArray(Join(rs, ",")) == Some(rs) && WellFormed(rs) && !Fitting(Array(rs))
  {
    hide RangeIter, ParseArray, Join;
    var rs := [EVENS, ODDS];
    EvensAndOdds();
    IterOne(EVENS);
    IterOne(ODDS);
    assert rs == [EVENS] + [ODDS];
    IterAppend([EVENS], [ODDS]);
    var a, b, all := RangeIter(EVENS), RangeIter(ODDS), Iter(rs);
    assert all == a + b;
    hide Iter;
    Interleaved(a, b);
    TwoSpans(EVENS, ODDS);
    ListRoundTrip(rs);
  }

  lemma TwoSpans(a: IntRange, b: IntRange)
    ensures SpanSum([a, b]) == a.count + b.count
  {
    assert [a, b][..1] == [a];
    assert SpanSum([a][..0]) == 0;
    assert SpanSum([a]) == a.count;
  }

  lemma Interleaved(a: seq<U32>, b: seq<U32>)
    requires forall k: nat :: k < |a| ==> a[k] == 2 * k
    requires forall k: nat :: k < |b| ==> b[k] == 1 + 2 * k
    ensures Distinct(a + b)
  {
    forall i, j | 0 <= i < j < |a + b| ensures (a + b)[i] != (a + b)[j] {
      if j < |a| {
        assert (a + b)[i] == 2 * i && (a + b)[j] == 2 * j;
      } else if i < |a| {
        var k := j - |a|;
        assert (a + b)[i] == 2 * i && (a + b)[j] == b[k] == 1 + 2 * k;
      } else {
        var k, l := i - |a|, j - |a|;
        assert (a + b)[i] == b[k] == 1 + 2 * k && (a + b)[j] == b[l] == 1 + 2 * l;
      }
    }
  }

  // ---- Resubmission --------------------------------------------------------------------------

  predicate Matches(filter: Option<set<Status>>, s: TaskState)
  {
    filter.None? || TaskStatus(s) in filter.value
  }

  /** The task ids of matching tasks in the iteration order of the map. */
  function Selected(m: map<TakoId, TaskInfo>, filter: Option<set<Status>>, order: seq<TakoId>): seq<U32>
    requires forall t :: t in order ==> t in m
  {
    if order == [] then []
    else
      var t := order[|order| - 1];
      Selected(m, filter, order[..|order| - 1]) + if Matches(filter, m[t].state) then [m[t].taskId] else []
  }

  function Insert(x: U32, s: seq<U32>): seq<U32>
  {
    if s == [] || s[|s| - 1] <= x then s + [x] else Insert(x, s[..|s| - 1]) + [s[|s| - 1]]
  }

  /** `sort_unstable` */
  function Sort(s: seq<U32>): seq<U32>
  {
    if s == [] then [] else Insert(s[|s| - 1], Sort(s[..|s| - 1]))
  }

  predicate Sorted(s: seq<U32>) { forall i, j :: 0 <= i < j < |s| ==> s[i] <= s[j] }

  lemma {:induction false} InsertElements(x: U32, s: seq<U32>)
    ensures multiset(Insert(x, s)) == multiset(s) + multiset{x}
  {
    if s != [] && s[|s| - 1] > x {
      InsertElements(x, s[..|s| - 1]);
      assert s == s[..|s| - 1] + [s[|s| - 1]];
    }
  }

  lemma {:induction false} InsertSorts(x: U32, s: seq<U32>)
    requires Sorted(s)
    ensures Sorted(Insert(x, s))
  {
    if s != [] && s[|s| - 1] > x {
      var init, last := s[..|s| - 1], s[|s| - 1];
      InsertSorts(x, init);
      InsertElements(x, init);
      var r := Insert(x, init);
      forall k | 0 <= k < |r| ensures r[k] <= last {
        assert r[k] in multiset(r);
        assert r[k] in multiset(init) || r[k] == x;
      }
    }
  }

  lemma {:induction false} SortSorts(s: seq<U32>)
    ensures Sorted(Sort(s)) && multiset(Sort(s)) == multiset(s)
    ensures forall y :: y in Sort(s) <==> y in s
  {
    hide Insert;
    if s != [] {
      var init, last := s[..|s| - 1], s[|s| - 1];
      SortSorts(init);
      InsertSorts(last, Sort(init));
      InsertElements(last, Sort(init));
      assert s == init + [last];
      assert multiset(Sort(s)) == multiset(s);
    }
    forall y ensures y in Sort(s) <==> y in s {
      assert y in Sort(s) <==> y in multiset(Sort(s));
      assert y in s <==> y in multiset(s);
    }
  }

  /** The job type `handle_resubmit` asks for; None when nothing matches. */
  function ResubmitType(j: Job, filter: Option<set<Status>>, order: seq<TakoId>): Option<JobType>
    requires j.state.ManyTasks? ==> forall t :: t in order ==> t in j.state.tasks
  {
    match j.state
    case SingleTask(s) => if Matches(filter, s) then Some(Simple) else None
    case ManyTasks(m) =>
      var ids := Selected(m, filter, order);
      if ids == [] then None else Some(Array(Compress(Sort(ids))))
  }

  /** The ids of the tasks in a selected status. */
  function MatchingIds(m: map<TakoId, TaskInfo>, filter: Option<set<Status>>): set<U32>
  {
    set t | t in m && Matches(filter, m[t].state) :: m[t].taskId
  }

  /** A state has one of the given statuses, state by state. */
  predicate HasOneOf(f: set<Status>, s: TaskState)
  {
    || (s.Waiting? && StatusWaiting in f)
    || (s.Running? && StatusRunning in f)
    || (s.Finished? && StatusFinished in f)
    || (s.Failed? && StatusFailed in f)
    || (s.Canceled? && StatusCanceled in f)
  }

  /** Without a filter every task is asked for, with one those in a named status. */
  lemma MatchingAre(m: map<TakoId, TaskInfo>, filter: Option<set<Status>>)
    ensures forall x :: x in MatchingIds(m, filter) <==>
              exists t :: t in m && m[t].taskId == x && (filter.None? || HasOneOf(filter.value, m[t].state))
  {
    hide Matches, HasOneOf;
    forall t | t in m ensures Matches(filter, m[t].state) <==> filter.None? || HasOneOf(filter.value, m[t].state) {
      MatchesState(filter, m[t].state);
    }
  }

  lemma MatchesState(filter: Option<set<Status>>, s: TaskState)
    ensures Matches(filter, s) <==> filter.None? || HasOneOf(filter.value, s)
  {
  }

  /** A single task is resubmitted as a simple job, if there is no filter or it names the task's status. */
  lemma ResubmitSingle(j: Job, filter: Option<set<Status>>, order: seq<TakoId>)
    requires j.state.SingleTask?
    ensures ResubmitType(j, filter, order) ==
            if filter.None? || HasOneOf(filter.value, j.state.state) then Some(Simple) else None
  {
    hide Matches, HasOneOf;
    MatchesState(filter, j.state.state);
  }

  predicate DistinctIds(m: map<TakoId, TaskInfo>)
  {
    forall t, u :: t in m && u in m && m[t].taskId == m[u].taskId ==> t == u
  }

  /** The order visits every task of the map exactly once. */
  ghost predicate Visits(order: seq<TakoId>, m: map<TakoId, TaskInfo>)
  {
    && (forall t :: t in order <==> t in m)
    && forall i, j :: 0 <= i < j < |order| ==> order[i] != order[j]
  }

  lemma {:induction false} SelectedIds(m: map<TakoId, TaskInfo>, filter: Option<set<Status>>, order: seq<TakoId>)
    requires DistinctIds(m) && (forall t :: t in order ==> t in m)
    requires forall i, j :: 0 <= i < j < |order| ==> order[i] != order[j]
    ensures forall x :: x in Selected(m, filter, order) <==>
              exists t :: t in order && Matches(filter, m[t].state) && m[t].taskId == x
    ensures Distinct(Selected(m, filter, order))
  {
    hide Matches;
    if order != [] {
      var init, t := order[..|order| - 1], order[|order| - 1];
      SelectedIds(m, filter, init);
      assert order == init + [t];
      var a, b := Selected(m, filter, init), Selected(m, filter, order);
      forall x ensures x in b <==> exists u :: u in order && Matches(filter, m[u].state) && m[u].taskId == x {
        if x in a {
          var u :| u in init && Matches(filter, m[u].state) && m[u].taskId == x;
          assert u in order;
        }
        if Matches(filter, m[t].state) && x == m[t].taskId { assert t in order; }
      }
      assert m[t].taskId !in a;
    }
  }

  /** A sorted list without duplicates is the ascending enumeration of its elements. */
  lemma {:induction false} AscendingIsUnique(s: seq<U32>, ids: set<U32>)
    requires StrictlyAscending(s) && forall x :: x in s <==> x in ids
    ensures s == Ascending(ids)
    decreases |s|
  {
    if s == [] {
      assert ids == {};
    } else {
      hide Ascending, Min;
      FirstIsLeast(s, ids);
      TailElements(s, ids);
      AscendingStep(ids);
      AscendingIsUnique(s[1..], ids - {s[0]});
      assert s == [s[0]] + s[1..];
    }
  }

  lemma AscendingStep(ids: set<U32>)
    requires ids != {}
    ensures Ascending(ids) == [Min(ids)] + Ascending(ids - {Min(ids)})
  {
  }

  lemma FirstIsLeast(s: seq<U32>, ids: set<U32>)
    requires s != [] && StrictlyAscending(s) && forall x :: x in s <==> x in ids
    ensures ids != {} && Min(ids) == s[0]
  {
    hide Min;
    assert s[0] in s;
    assert Min(ids) in s;
  }

  lemma TailElements(s: seq<U32>, ids: set<U32>)
    requires s != [] && StrictlyAscending(s) && forall x :: x in s <==> x in ids
    ensures StrictlyAscending(s[1..]) && forall x :: x in s[1..] <==> x in ids - {s[0]}
  {
    assert s == [s[0]] + s[1..];
    assert s[0] !in s[1..];
  }

  lemma DistinctSortsStrictly(s: seq<U32>)
    requires Distinct(s)
    ensures StrictlyAscending(Sort(s))
  {
    hide Sort;
    SortSorts(s);
    DistinctCount(s);
    DistinctCount(Sort(s));
  }

  /**
   * Resubmitting an array job asks for the ids of all its tasks if there is no filter, and otherwise
   * for exactly those whose task is in a named status; in ascending order and maximal ranges, whatever
   * the iteration order of the job's map. There is nothing to do exactly when no task is asked for.
   */
  lemma ResubmitSelects(j: Job, filter: Option<set<Status>>, order: seq<TakoId>)
    requires j.state.ManyTasks? && DistinctIds(j.state.tasks) && Visits(order, j.state.tasks)
    requires forall t :: t in j.state.tasks ==> j.state.tasks[t].taskId < MAX_U32
    ensures
      var r, ids := ResubmitType(j, filter, order), MatchingIds(j.state.tasks, filter);
      && (r.None? <==> ids == {})
      && (r.Some? ==> r.value.Array? && SoundType(r.value) && Iterable(r.value.ranges)
                      && Iter(r.value.ranges) == Ascending(ids) && Maximal(r.value.ranges))
    ensures
      var r, m := ResubmitType(j, filter, order), j.state.tasks;
      && (r.None? <==> forall t :: t in m ==> filter.Some? && !HasOneOf(filter.value, m[t].state))
      && (r.Some? ==> && StrictlyAscending(Iter(r.value.ranges))
                      && forall x :: x in Iter(r.value.ranges) <==>
                           exists t :: t in m && m[t].taskId == x && (filter.None? || HasOneOf(filter.value, m[t].state)))
  {
    hide HasOneOf, Ascending, DistinctIds, Visits, Iter, SoundType, Maximal, ResubmitType, MatchingIds;
    ResubmitSorted(j, filter, order);
    var m, ids := j.state.tasks, MatchingIds(j.state.tasks, filter);
    MatchingAre(m, filter);
    AscendingIsSorted(ids);
    NoneMatching(m, filter);
  }

  lemma NoneMatching(m: map<TakoId, TaskInfo>, filter: Option<set<Status>>)
    ensures MatchingIds(m, filter) == {} <==> forall t :: t in m ==> filter.Some? && !HasOneOf(filter.value, m[t].state)
  {
    hide HasOneOf, MatchingIds;
    MatchingAre(m, filter);
    if t :| t in m && (filter.None? || HasOneOf(filter.value, m[t].state)) {
      assert m[t].taskId in MatchingIds(m, filter);
    }
  }

  lemma ResubmitSorted(j: Job, filter: Option<set<Status>>, order: seq<TakoId>)
    requires j.state.ManyTasks? && DistinctIds(j.state.tasks) && Visits(order, j.state.tasks)
    requires forall t :: t in j.state.tasks ==> j.state.tasks[t].taskId < MAX_U32
    ensures
      var r, ids := ResubmitType(j, filter, order), MatchingIds(j.state.tasks, filter);
      && (r.None? <==> ids == {})
      && (r.Some? ==> r.value.Array? && SoundType(r.value) && Iterable(r.value.ranges)
                      && Iter(r.value.ranges) == Ascending(ids) && Maximal(r.value.ranges))
  {
    hide Matches, Sort, Compress, Iter, Selected, SpanSum, Maximal, MatchingIds;
    var ids, all := Selected(j.state.tasks, filter, order), MatchingIds(j.state.tasks, filter);
    SelectedAre(j.state.tasks, filter, order);
    if ids == [] {
      assert all == {};
    } else {
      assert ids[0] in all;
      SortedAre(ids, all);
      CompressedIsSound(Sort(ids));
    }
  }

  lemma SelectedAre(m: map<TakoId, TaskInfo>, filter: Option<set<Status>>, order: seq<TakoId>)
    requires DistinctIds(m) && Visits(order, m) && forall t :: t in m ==> m[t].taskId < MAX_U32
    ensures Distinct(Selected(m, filter, order))
    ensures forall x :: x in Selected(m, filter, order) <==> x in MatchingIds(m, filter)
    ensures forall x :: x in MatchingIds(m, filter) ==> x < MAX_U32
  {
    hide Matches, Selected;
    SelectedIds(m, filter, order);
    forall x ensures x in Selected(m, filter, order) <==> x in MatchingIds(m, filter) {
      if x in MatchingIds(m, filter) {
        var t :| t in m && Matches(filter, m[t].state) && m[t].taskId == x;
        assert t in order;
      }
    }
  }

  lemma SortedAre(ids: seq<U32>, all: set<U32>)
    requires ids != [] && Distinct(ids) && forall x :: x in ids <==> x in all
    requires forall x :: x in all ==> x < MAX_U32
    ensures Sort(ids) == Ascending(all) && Sort(ids) != []
    ensures StrictlyAscending(Sort(ids)) && Representable(Sort(ids))
  {
    hide Sort;
    DistinctSortsStrictly(ids);
    SortSorts(ids);
    AscendingIsUnique(Sort(ids), all);
    assert ids[0] in Sort(ids);
    forall k | 0 <= k < |Sort(ids)| ensures Sort(ids)[k] < MAX_U32 { assert Sort(ids)[k] in Sort(ids); }
  }

  /** The ranges of an ascending list are an array that can be submitted. */
  lemma CompressedIsSound(ids: seq<U32>)
    requires ids != [] && StrictlyAscending(ids) && Representable(ids)
    ensures SoundType(Array(Compress(ids))) && Iterable(Compress(ids))
    ensures Iter(Compress(ids)) == ids && Maximal(Compress(ids))
  {
    hide Compress, Iter, SpanSum, Maximal;
    CompressAscending(ids);
    SpanCoversIds(Compress(ids));
    AscendingBound(ids);
  }

  lemma {:induction false} AscendingBound(ids: seq<U32>)
    requires StrictlyAscending(ids)
    ensures ids != [] ==> |ids| - 1 <= ids[|ids| - 1]
  {
    if |ids| > 1 { AscendingBound(ids[..|ids| - 1]); }
  }

  // ---- Entries of a resubmitted job ----------------------------------------------------------

  /** The request `handle_resubmit` makes: the selected ids, and all entries of the job. */
  function ResubmitRequest(j: Job, filter: Option<set<Status>>, order: seq<TakoId>): Option<SubmitRequest>
    requires j.state.ManyTasks? ==> forall t :: t in order ==> t in j.state.tasks
  {
    var jt := ResubmitType(j, filter, order);
    if jt.None? then None else Some(SubmitRequest(jt.value, j.maxFails, false, j.entries))
  }

  /** The entry a task of the job was given when the job was submitted. */
  function OwnEntry(j: Job, t: TakoId): Option<string>
  {
    if j.entries.Some? && j.base <= t < j.base + |j.entries.value| then Some(j.entries.value[t - j.base]) else None
  }

  lemma OwnEntryWasSent(r: SubmitRequest, id: JobId, base: TakoId, k: nat)
    requires IterableType(r.jobType) && r.jobType.Array? && k < |TaskDefs(r.jobType, base, r.entries)|
    ensures
      var d := TaskDefs(r.jobType, base, r.entries)[k];
      d.id == base + k && d.entry == OwnEntry(NewJob(r, id, base), d.id)
  {
    hide Iter, TaskDefs;
    DefsAre(r.jobType, base, r.entries);
  }

  /** Every definition gives its task the entry the task of that id had in the job. */
  predicate KeepsEntries(j: Job, defs: seq<TaskDef>)
    requires j.state.ManyTasks?
  {
    forall k, t :: 0 <= k < |defs| && t in j.state.tasks && j.state.tasks[t].taskId == defs[k].taskId ==>
      defs[k].entry == OwnEntry(j, t)
  }

  /** A job as it is made from a file of lines: tasks numbered from zero, one entry each. */
  ghost predicate EachLine(j: Job)
  {
    && j.state.ManyTasks? && j.entries.Some? && |j.entries.value| <= MAX_U32
    && (forall t :: t in j.state.tasks <==> j.base <= t < j.base + |j.entries.value|)
    && (forall t :: t in j.state.tasks ==> j.state.tasks[t].taskId == t - j.base)
  }

  lemma FileMakesEachLine(r: SubmitRequest, id: JobId, base: TakoId)
    requires r.entries.Some? && 2 <= |r.entries.value| <= MAX_U32
    requires r.jobType == Array([IntRange(0, |r.entries.value|, 1)])
    ensures IterableType(r.jobType) && EachLine(NewJob(r, id, base))
  {
    var range := IntRange(0, |r.entries.value|, 1);
    IterOne(range);
    CountedFromZero(range.count);
    OneRangeCount(range);
    NewLines(r, id, base, Iter([range]));
  }

  lemma OneRangeCount(range: IntRange)
    ensures IdCount([range]) == range.count
  {
    assert SpanSum([range][..0]) == 0;
    assert SpanSum([range]) == range.count;
  }

  lemma NewLines(r: SubmitRequest, id: JobId, base: TakoId, ids: seq<U32>)
    requires r.jobType.Array? && IterableType(r.jobType) && IdCount(r.jobType.ranges) != 1 && ids == Iter(r.jobType.ranges)
    requires r.entries.Some? && |ids| == |r.entries.value| <= MAX_U32 && forall k :: 0 <= k < |ids| ==> ids[k] == k
    ensures EachLine(NewJob(r, id, base))
  {
    hide Iter, Numbered, NewTasks, IdCount;
    var m := NewJob(r, id, base).state.tasks;
    assert forall t :: t in m ==> m[t].taskId == ids[t - base];
  }

  lemma CountedFromZero(n: U32)
    ensures
      var ids := RangeIter(IntRange(0, n, 1));
      |ids| == n && forall k :: 0 <= k < n ==> ids[k] == k
  {
    StepsLength(0, n, 1);
    forall k: nat | k < n ensures Steps(0, n, 1)[k] == k { StepsAt(0, n, 1, k); }
  }

  /** With every id all smaller ones are there too. */
  ghost predicate FirstOnes(ids: set<U32>) { forall x, y: U32 :: x in ids && y < x ==> y in ids }

  lemma {:induction false} FirstOnesCount(ids: set<U32>, k: nat)
    requires FirstOnes(ids) && k < |Ascending(ids)|
    ensures Ascending(ids)[k] == k
    decreases k
  {
    hide Ascending;
    AscendingIsSorted(ids);
    var s := Ascending(ids);
    forall i | 0 <= i < k ensures s[i] == i { FirstOnesCount(ids, i); }
    AscendingFrom(s, k);
    assert s[k] in s && k in ids;
    var p :| 0 <= p < |s| && s[p] == k;
    assert k <= p;
  }

  lemma AscendingFrom(s: seq<U32>, k: nat)
    requires k < |s| && StrictlyAscending(s)
    ensures k <= s[k]
  {
    AscendingBound(s[..k + 1]);
  }

  lemma CountedAreFirst(ids: set<U32>)
    requires forall k :: 0 <= k < |Ascending(ids)| ==> Ascending(ids)[k] == k
    ensures FirstOnes(ids)
  {
    hide Ascending;
    var s := Ascending(ids);
    forall x, y: U32 | x in ids && y < x ensures y in ids {
      assert x in s;
      assert s[y] == y;
      assert s[y] in s;
    }
  }

  /** The selected ids are numbers of lines. */
  lemma SelectedLines(j: Job, filter: Option<set<Status>>, order: seq<TakoId>)
    requires EachLine(j) && Visits(order, j.state.tasks)
    ensures
      var r, ids := ResubmitType(j, filter, order), MatchingIds(j.state.tasks, filter);
      && DistinctIds(j.state.tasks) && (forall t :: t in j.state.tasks ==> j.state.tasks[t].taskId < MAX_U32)
      && (forall x :: x in ids ==> x < |j.entries.value| && j.base + x in j.state.tasks)
      && |Ascending(ids)| <= |j.entries.value|
  {
    hide ResubmitType, Ascending, Matches;
    var ids := MatchingIds(j.state.tasks, filter);
    AscendingIsSorted(ids);
    var s := Ascending(ids);
    if s != [] {
      AscendingFrom(s, |s| - 1);
      assert s[|s| - 1] in ids;
    }
  }

  /**
   * A job made from a file of different lines passes all its lines on when it is resubmitted. The
   * definitions sent to the backend then pair every task with its own line if and only if the selected
   * tasks are the first ones of the job.
   */
  lemma ResubmittedEntries(j: Job, filter: Option<set<Status>>, order: seq<TakoId>, base: TakoId)
    requires EachLine(j) && Distinct(j.entries.value) && Visits(order, j.state.tasks)
    requires ResubmitRequest(j, filter, order).Some?
    ensures
      var r := ResubmitRequest(j, filter, order).value;
      && IterableType(r.jobType)
      && (KeepsEntries(j, TaskDefs(r.jobType, base, r.entries)) <==> FirstOnes(MatchingIds(j.state.tasks, filter)))
  {
    hide Iter, TaskDefs, ResubmitType, MatchingIds, Ascending, EachLine, FirstOnes, KeepsEntries, SoundType, Maximal, Distinct;
    LinesAreMany(j);
    SelectedLines(j, filter, order);
    ResubmitSorted(j, filter, order);
    var r, s := ResubmitRequest(j, filter, order).value, Ascending(MatchingIds(j.state.tasks, filter));
    DefsAre(r.jobType, base, r.entries);
    var defs := TaskDefs(r.jobType, base, r.entries);
    forall k | 0 <= k < |s| ensures s[k] in MatchingIds(j.state.tasks, filter) { assert s[k] in s; }
    KeptLines(j, defs, s);
    if FirstOnes(MatchingIds(j.state.tasks, filter)) {
      forall k | 0 <= k < |s| ensures s[k] == k { FirstOnesCount(MatchingIds(j.state.tasks, filter), k); }
    } else if forall k :: 0 <= k < |s| ==> s[k] == k {
      CountedAreFirst(MatchingIds(j.state.tasks, filter));
    }
  }

  lemma LinesAreMany(j: Job)
    requires EachLine(j)
    ensures j.state.ManyTasks? && j.entries.Some?
  {
  }

  lemma KeptLines(j: Job, defs: seq<TaskDef>, s: seq<U32>)
    requires EachLine(j) && Distinct(j.entries.value) && |defs| == |s| <= |j.entries.value|
    requires forall k :: 0 <= k < |s| ==> defs[k].taskId == s[k] && defs[k].entry == Some(j.entries.value[k])
    requires forall k :: 0 <= k < |s| ==> s[k] < |j.entries.value| && j.base + s[k] in j.state.tasks
    ensures KeepsEntries(j, defs) <==> forall k :: 0 <= k < |s| ==> s[k] == k
  {
    hide Distinct, OwnEntry, EachLine;
    LinesAreMany(j);
    forall k | 0 <= k < |s|
      ensures defs[k].entry == OwnEntry(j, j.base + s[k]) <==> s[k] == k
      ensures forall t :: t in j.state.tasks && j.state.tasks[t].taskId == defs[k].taskId <==> t == j.base + s[k]
    {
      LineOf(j, s[k]);
      SameLine(j.entries.value, s[k], k);
    }
  }

  lemma LineOf(j: Job, x: U32)
    requires EachLine(j) && x < |j.entries.value| && j.base + x in j.state.tasks
    ensures OwnEntry(j, j.base + x) == Some(j.entries.value[x])
    ensures forall t :: t in j.state.tasks && j.state.tasks[t].taskId == x <==> t == j.base + x
  {
  }

  lemma SameLine(lines: seq<string>, x: nat, y: nat)
    requires Distinct(lines) && x < |lines| && y < |lines|
    ensures lines[x] == lines[y] <==> x == y
  {
  }

  /** A file of a single line makes a single task, which loses its line when it is resubmitted. */
  lemma SingleLosesEntry(j: Job, filter: Option<set<Status>>, order: seq<TakoId>, base: TakoId)
    requires j.state.SingleTask? && ResubmitRequest(j, filter, order).Some?
    ensures
      var r := ResubmitRequest(j, filter, order).value;
      IterableType(r.jobType) && TaskDefs(r.jobType, base, r.entries) == [TaskDef(base, 0, None)]
  {
  }

  /** Three lines of which the first is done: resubmitting the others gives them each other's lines. */
  function ThreeLines(): Job
  {
    Job(1, 5, None, false, Some(["a", "b", "c"]), Counters(0, 1, 0, 0),
        ManyTasks(map[5 := TaskInfo(Finished(0, 0, 0), 0), 6 := TaskInfo(Waiting, 1), 7 := TaskInfo(Waiting, 2)]), None)
  }

  lemma LinesGetMixedUp(base: TakoId)
    ensures
      var j, filter, order := ThreeLines(), Some({StatusWaiting}), [5, 6, 7];
      && j.state.ManyTasks? && Visits(order, j.state.tasks)
      && ResubmitRequest(j, filter, order).Some?
      && var r := ResubmitRequest(j, filter, order).value;
      && IterableType(r.jobType) && !KeepsEntries(j, TaskDefs(r.jobType, base, r.entries))
  {
    hide Iter, TaskDefs, ResubmitType, Ascending, SoundType, Maximal, KeepsEntries;
    var j, filter, order := ThreeLines(), Some({StatusWaiting}), [5, 6, 7];
    assert j.state.tasks.Keys == {5, 6, 7};
    assert EachLine(j) && Distinct(j.entries.value) && Visits(order, j.state.tasks);
    SelectedLines(j, filter, order);
    ResubmitSorted(j, filter, order);
    var ids := MatchingIds(j.state.tasks, filter);
    assert j.state.tasks[6].taskId in ids;
    assert 0 !in ids;
    ResubmittedEntries(j, filter, order, base);
  }

  // ---- The last jobs -------------------------------------------------------------------------

  /** `last_n_ids`: the first of the consecutive ids up to the newest job. */
  function FirstOfLast(v: Server, n: nat): nat
    requires v.jobCounter >= 1
  {
    v.jobCounter - if n < v.jobCounter - 1 then n else v.jobCounter - 1
  }

  /** The last `n` ids are those of the newest jobs, all of which exist; fewer if there are fewer. */
  lemma LastIdsExist(v: Server, n: nat)
    requires ServerInv(v)
    ensures forall id :: FirstOfLast(v, n) <= id < v.jobCounter ==> id in v.jobs
    ensures forall id :: id in v.jobs && id < FirstOfLast(v, n) ==> v.jobCounter - FirstOfLast(v, n) == n
    ensures v.jobCounter - FirstOfLast(v, n) <= n
  {
    hide JobInv;
  }
}
