/**
 * Integer arrays: stepped ranges of 32-bit ids, their iteration, and the compression of a list of
 * ids into ranges. Machine arithmetic wraps around as in a release build.
 */
module IntArray {
  import opened Bytes

  datatype IntRange = IntRange(start: U32, count: U32, step: U32)

  const MAX_U32: U32 := 0xFFFF_FFFF

  function Add32(a: U32, b: U32): U32
  {
    if a + b < 0x1_0000_0000 then a + b else a + b - 0x1_0000_0000
  }

  /** `(lo..hi).step_by(step)` */
  function Steps(lo: nat, hi: U32, step: nat): (r: seq<U32>)
    requires step > 0
    ensures forall x :: x in r ==> lo <= x < hi
    decreases hi - lo
  {
    if lo < hi then [lo] + Steps(lo + step, hi, step) else []
  }

  /** `IntRange::iter`; a step of zero would panic. */
  function RangeIter(r: IntRange): seq<U32>
    requires r.step > 0
  {
    Steps(r.start, Add32(r.start, r.count), r.step)
  }

  predicate Iterable(rs: seq<IntRange>) { forall k :: 0 <= k < |rs| ==> rs[k].step > 0 }

  /** `IntArray::iter` */
  function Iter(rs: seq<IntRange>): seq<U32>
    requires Iterable(rs)
  {
    if rs == [] then [] else Iter(rs[..|rs| - 1]) + RangeIter(rs[|rs| - 1])
  }

  function SpanSum(rs: seq<IntRange>): nat
  {
    if rs == [] then 0 else SpanSum(rs[..|rs| - 1]) + rs[|rs| - 1].count
  }

  /** `IntArray::id_count` */
  function IdCount(rs: seq<IntRange>): U32 { SpanSum(rs) % 0x1_0000_0000 }

  /** The range ends below the largest id, so that `start + count` does not wrap around. */
  predicate InBounds(r: IntRange) { r.start + r.count < 0x1_0000_0000 }

  // ---- Iteration -----------------------------------------------------------------------------

  lemma {:induction false} StepsAt(lo: nat, hi: U32, step: nat, k: nat)
    requires step > 0
    ensures k < |Steps(lo, hi, step)| <==> lo + k * step < hi
    ensures k < |Steps(lo, hi, step)| ==> Steps(lo, hi, step)[k] == lo + k * step
    decreases k
  {
    if k > 0 {
      assert lo + k * step == lo + step + (k - 1) * step;
      if lo < hi { StepsAt(lo + step, hi, step, k - 1); }
    }
  }

  function IdAt(r: IntRange, k: nat): nat { r.start + k * r.step }

  /** A range denotes exactly the ids `start`, `start + step`, ... below `start + count`, in order. */
  lemma RangeDenotes(r: IntRange, x: U32)
    requires r.step > 0 && InBounds(r)
    ensures x in RangeIter(r) <==> x < r.start + r.count && exists k: nat :: IdAt(r, k) == x
    ensures forall k: nat :: k < |RangeIter(r)| ==> RangeIter(r)[k] == IdAt(r, k)
  {
    var s := RangeIter(r);
    forall k: nat ensures k < |s| <==> IdAt(r, k) < r.start + r.count
                  ensures k < |s| ==> s[k] == IdAt(r, k)
    {
      StepsAt(r.start, r.start + r.count, r.step, k);
    }
    if x in s {
      var k: nat :| k < |s| && s[k] == x;
      assert IdAt(r, k) == x;
    }
    if x < r.start + r.count && exists k: nat :: IdAt(r, k) == x {
      var k: nat :| IdAt(r, k) == x;
      assert s[k] == x;
    }
  }

  /** The number of ids of a range: the span only if the step is one or there is at most one id. */
  lemma {:induction false} StepsLength(lo: nat, hi: U32, step: nat)
    requires step > 0 && lo <= hi
    ensures |Steps(lo, hi, step)| <= hi - lo
    ensures |Steps(lo, hi, step)| == hi - lo <==> step == 1 || hi - lo <= 1
    ensures lo < hi ==> |Steps(lo, hi, step)| >= 1
    decreases hi - lo
  {
    if lo < hi {
      if lo + step <= hi {
        StepsLength(lo + step, hi, step);
      } else {
        assert Steps(lo + step, hi, step) == [];
      }
    }
  }

  predicate WellFormed(rs: seq<IntRange>)
  {
    forall k :: 0 <= k < |rs| ==> rs[k].step > 0 && rs[k].count > 0 && InBounds(rs[k])
  }

  /**
   * The id count of an array is at least the number of its ids, and it is that number if and only
   * if every range has step one or a single id.
   */
  lemma {:induction false} SpanCoversIds(rs: seq<IntRange>)
    requires WellFormed(rs)
    ensures Iterable(rs)
    ensures |rs| <= |Iter(rs)| <= SpanSum(rs)
    ensures |Iter(rs)| == SpanSum(rs) <==> forall k :: 0 <= k < |rs| ==> rs[k].step == 1 || rs[k].count == 1
  {
    if rs != [] {
      var init, r := rs[..|rs| - 1], rs[|rs| - 1];
      SpanCoversIds(init);
      StepsLength(r.start, r.start + r.count, r.step);
    }
  }

  lemma {:induction false} IterAppend(a: seq<IntRange>, b: seq<IntRange>)
    requires Iterable(a) && Iterable(b)
    ensures Iterable(a + b) && Iter(a + b) == Iter(a) + Iter(b)
  {
    if b == [] {
      assert a + b == a;
    } else {
      hide RangeIter;
      var init, r := b[..|b| - 1], b[|b| - 1];
      IterAppend(a, init);
      assert (a + b)[..|a + b| - 1] == a + init;
      assert (Iter(a) + Iter(init)) + RangeIter(r) == Iter(a) + (Iter(init) + RangeIter(r));
    }
  }

  lemma IterOne(r: IntRange)
    requires r.step > 0
    ensures Iter([r]) == RangeIter(r)
  {
    assert [r][..0] == [];
  }

  // ---- from_ids ------------------------------------------------------------------------------

  /** The first range that the id would extend. */
  function Position(rs: seq<IntRange>, id: U32): (p: Option<nat>)
    ensures p.Some? ==> p.value < |rs| && Add32(rs[p.value].start, rs[p.value].count) == id
    ensures p.None? ==> forall k :: 0 <= k < |rs| ==> Add32(rs[k].start, rs[k].count) != id
  {
    if rs == [] then None
    else if Add32(rs[0].start, rs[0].count) == id then Some(0)
    else
      var p := Position(rs[1..], id);
      if p.Some? then Some(p.value + 1) else
      assert forall k :: 1 <= k < |rs| ==> rs[k] == rs[1..][k - 1];
      None
  }

  function AddId(rs: seq<IntRange>, id: U32): seq<IntRange>
  {
    var p := Position(rs, id);
    if p.Some? then rs[p.value := rs[p.value].(count := Add32(rs[p.value].count, 1))]
    else rs + [IntRange(id, 1, 1)]
  }

  function Compress(ids: seq<U32>): seq<IntRange>
  {
    if ids == [] then [] else AddId(Compress(ids[..|ids| - 1]), ids[|ids| - 1])
  }

  /** `IntArray::from_ids` */
  method FromIds(ids: seq<U32>) returns (rs: seq<IntRange>)
    ensures rs == Compress(ids)
  {
    rs := [];
    for k := 0 to |ids|
      invariant rs == Compress(ids[..k])
    {
      assert ids[..k + 1][..k] == ids[..k];
      var p := Position(rs, ids[k]);
      if p.Some? {
        rs := rs[p.value := rs[p.value].(count := Add32(rs[p.value].count, 1))];
      } else {
        rs := rs + [IntRange(ids[k], 1, 1)];
      }
    }
    assert ids[..|ids|] == ids;
  }

  /** Ids that `from_ids` can represent: for the largest 32-bit id the end of the range wraps around. */
  predicate Representable(ids: seq<U32>)
  {
    forall k :: 0 <= k < |ids| ==> ids[k] < MAX_U32
  }

  predicate UnitRanges(rs: seq<IntRange>)
  {
    forall k :: 0 <= k < |rs| ==> rs[k].step == 1 && rs[k].count > 0 && InBounds(rs[k])
  }

  lemma {:induction false} StepsExtend(lo: nat, hi: U32)
    requires lo <= hi < MAX_U32
    ensures Steps(lo, hi + 1, 1) == Steps(lo, hi, 1) + [hi]
    decreases hi - lo
  {
    if lo < hi {
      StepsExtend(lo + 1, hi);
      assert [lo] + (Steps(lo + 1, hi, 1) + [hi]) == ([lo] + Steps(lo + 1, hi, 1)) + [hi];
    } else {
      assert Steps(hi + 1, hi + 1, 1) == [];
    }
  }

  lemma OneId(id: U32)
    requires id < MAX_U32
    ensures RangeIter(IntRange(id, 1, 1)) == [id]
  {
    assert Steps(id + 1, id + 1, 1) == [];
  }

  lemma OneMore(r: IntRange, id: U32)
    requires r.step == 1 && r.start + r.count == id && id < MAX_U32
    ensures Add32(r.start, r.count) == id && Add32(r.count, 1) == r.count + 1
    ensures RangeIter(r.(count := r.count + 1)) == RangeIter(r) + [id]
  {
    StepsExtend(r.start, id);
  }

  lemma IterReplace(rs: seq<IntRange>, p: nat, r': IntRange)
    requires Iterable(rs) && p < |rs| && r'.step > 0
    ensures Iterable(rs[p := r'])
    ensures Iter(rs) == Iter(rs[..p]) + (RangeIter(rs[p]) + Iter(rs[p + 1..]))
    ensures Iter(rs[p := r']) == Iter(rs[..p]) + (RangeIter(r') + Iter(rs[p + 1..]))
  {
    hide RangeIter, Iter;
    var a, r, b := rs[..p], rs[p], rs[p + 1..];
    assert rs == a + ([r] + b) && rs[p := r'] == a + ([r'] + b);
    IterOne(r);
    IterOne(r');
    IterAppend([r], b);
    IterAppend([r'], b);
    IterAppend(a, [r] + b);
    IterAppend(a, [r'] + b);
  }

  lemma AddIdKeepsIds(rs: seq<IntRange>, id: U32)
    requires UnitRanges(rs) && id < MAX_U32
    ensures UnitRanges(AddId(rs, id))
    ensures multiset(Iter(AddId(rs, id))) == multiset(Iter(rs)) + multiset{id}
  {
    hide RangeIter, Iter, Position;
    var p := Position(rs, id);
    if p.Some? {
      var r := rs[p.value];
      OneMore(r, id);
      IterReplace(rs, p.value, r.(count := r.count + 1));
    } else {
      OneId(id);
      IterOne(IntRange(id, 1, 1));
      IterAppend(rs, [IntRange(id, 1, 1)]);
    }
  }

  lemma {:induction false} CompressIsUnit(ids: seq<U32>)
    requires Representable(ids)
    ensures UnitRanges(Compress(ids))
    ensures multiset(Iter(Compress(ids))) == multiset(ids)
  {
    hide Iter, AddId;
    if ids == [] {
      EmptyIter();
    } else {
      var init, id := ids[..|ids| - 1], ids[|ids| - 1];
      CompressIsUnit(init);
      AddIdKeepsIds(Compress(init), id);
      assert ids == init + [id];
    }
  }

  lemma {:induction false} CompressIsIterable(ids: seq<U32>)
    ensures Iterable(Compress(ids))
  {
    if ids != [] { CompressIsIterable(ids[..|ids| - 1]); }
  }

  /** No array ever yields the largest id: the end of a range is exclusive. */
  lemma {:induction false} IterBelow(rs: seq<IntRange>, x: U32)
    requires Iterable(rs) && x in Iter(rs)
    ensures x < MAX_U32
  {
    var n := |rs| - 1;
    if x !in RangeIter(rs[n]) { IterBelow(rs[..n], x); }
  }

  /** Compression keeps the multiset of the ids if and only if the largest id is not among them. */
  lemma CompressKeepsIds(ids: seq<U32>)
    ensures Iterable(Compress(ids))
    ensures multiset(Iter(Compress(ids))) == multiset(ids) <==> Representable(ids)
  {
    hide Iter, Compress;
    CompressIsIterable(ids);
    if Representable(ids) {
      CompressIsUnit(ids);
    } else {
      var k :| 0 <= k < |ids| && ids[k] == MAX_U32;
      assert MAX_U32 in multiset(ids);
      if MAX_U32 in Iter(Compress(ids)) { IterBelow(Compress(ids), MAX_U32); }
    }
  }

  lemma EmptyIter()
    ensures Iter([]) == []
  {
  }

  /** The largest id is lost: its one-element range is empty because its end wraps around. */
  lemma LargestIdIsLost()
    ensures Compress([MAX_U32]) == [IntRange(MAX_U32, 1, 1)]
    ensures Iter([IntRange(MAX_U32, 1, 1)]) == []
  {
    assert [MAX_U32][..0] == [];
    IterOne(IntRange(MAX_U32, 1, 1));
  }

  predicate StrictlyAscending(ids: seq<U32>)
  {
    forall i, j :: 0 <= i < j < |ids| ==> ids[i] < ids[j]
  }

  /** Neighbouring ranges leave a gap, so no two ranges could be merged. */
  predicate Maximal(rs: seq<IntRange>)
  {
    forall k :: 0 <= k < |rs| - 1 ==> rs[k].start + rs[k].count < rs[k + 1].start
  }

  lemma {:induction false} MaximalEnds(rs: seq<IntRange>, k: nat)
    requires UnitRanges(rs) && Maximal(rs) && k < |rs| - 1
    ensures rs[k].start + rs[k].count < rs[|rs| - 1].start
    decreases |rs| - k
  {
    if k + 1 < |rs| - 1 { MaximalEnds(rs, k + 1); }
  }

  predicate EndsAt(rs: seq<IntRange>, id: U32)
  {
    rs != [] && rs[|rs| - 1].start + rs[|rs| - 1].count == id + 1
  }

  /** A strictly ascending list comes back from the ranges as it is, and the ranges are maximal. */
  lemma {:induction false} CompressAscending(ids: seq<U32>)
    requires Representable(ids) && StrictlyAscending(ids)
    ensures UnitRanges(Compress(ids)) && Maximal(Compress(ids))
    ensures Iter(Compress(ids)) == ids
    ensures ids != [] ==> EndsAt(Compress(ids), ids[|ids| - 1])
  {
    hide Iter, AddId;
    CompressKeepsIds(ids);
    EmptyIter();
    if ids != [] {
      var init, id := ids[..|ids| - 1], ids[|ids| - 1];
      var rs := Compress(init);
      CompressAscending(init);
      assert ids == init + [id];
      if init == [] {
        assert rs == [];
        SnocId(rs, id);
      } else {
        var n := |rs| - 1;
        assert init[|init| - 1] < id;
        forall k | 0 <= k < n ensures rs[k].start + rs[k].count < id { MaximalEnds(rs, k); }
        if rs[n].start + rs[n].count == id {
          ExtendLast(rs, id);
        } else {
          SnocId(rs, id);
        }
      }
    }
  }

  lemma SnocId(rs: seq<IntRange>, id: U32)
    requires UnitRanges(rs) && id < MAX_U32
    requires forall k :: 0 <= k < |rs| ==> rs[k].start + rs[k].count < id
    ensures AddId(rs, id) == rs + [IntRange(id, 1, 1)]
    ensures Iter(AddId(rs, id)) == Iter(rs) + [id]
  {
    hide RangeIter, Iter;
    OneId(id);
    IterOne(IntRange(id, 1, 1));
    IterAppend(rs, [IntRange(id, 1, 1)]);
  }

  lemma ExtendLast(rs: seq<IntRange>, id: U32)
    requires UnitRanges(rs) && rs != [] && id < MAX_U32
    requires forall k :: 0 <= k < |rs| - 1 ==> rs[k].start + rs[k].count < id
    requires rs[|rs| - 1].start + rs[|rs| - 1].count == id
    ensures AddId(rs, id) == rs[..|rs| - 1] + [rs[|rs| - 1].(count := rs[|rs| - 1].count + 1)]
    ensures Iter(AddId(rs, id)) == Iter(rs) + [id]
  {
    hide RangeIter, Iter, Position;
    var n := |rs| - 1;
    var r' := rs[n].(count := rs[n].count + 1);
    OneMore(rs[n], id);
    assert Position(rs, id) == Some(n) by { LastPosition(rs, id); }
    assert rs[n := r'] == rs[..n] + [r'];
    LastExtends(rs, r', id);
  }

  lemma LastPosition(rs: seq<IntRange>, id: U32)
    requires UnitRanges(rs) && rs != []
    requires forall k :: 0 <= k < |rs| - 1 ==> rs[k].start + rs[k].count < id
    requires rs[|rs| - 1].start + rs[|rs| - 1].count == id
    ensures Position(rs, id) == Some(|rs| - 1)
  {
    hide Position;
    var p := Position(rs, id);
    assert Add32(rs[|rs| - 1].start, rs[|rs| - 1].count) == id;
  }

  lemma LastExtends(rs: seq<IntRange>, r': IntRange, id: U32)
    requires Iterable(rs) && rs != [] && r'.step > 0 && RangeIter(r') == RangeIter(rs[|rs| - 1]) + [id]
    ensures Iterable(rs[|rs| - 1 := r']) && Iter(rs[|rs| - 1 := r']) == Iter(rs) + [id]
  {
    hide RangeIter;
    var n := |rs| - 1;
    assert rs[n := r'][..n] == rs[..n];
    var a, b := Iter(rs[..n]), RangeIter(rs[n]);
    assert a + (b + [id]) == (a + b) + [id];
  }
}
