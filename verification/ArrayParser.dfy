/** The textual form of integer arrays: parser, overlap check and printer. */
module ArrayParser {
  import opened Bytes
  import opened IntArray
  import opened NumberParser

  // ---- The parser ----------------------------------------------------------------------------

  /** `opt(preceded(tag(c), p_u32))`: consumes nothing when either part fails. */
  function POptU32(c: char, s: string): (r: Parse<Option<U32>>)
    ensures r.Ok? && |r.rest| <= |s|
  {
    if s != [] && s[0] == c && PU32(s[1..]).Ok?
    then Ok(Some(PU32(s[1..]).value), PU32(s[1..]).rest)
    else Ok(None, s)
  }

  /** What the three numbers of `from-to:step` mean; the count wraps around. */
  function MakeRange(v: U32, w: Option<U32>, x: Option<U32>): (r: Option<IntRange>)
    ensures r.Some? ==> r.value.step > 0
  {
    match (w, x)
    case (None, None) => Some(IntRange(v, 1, 1))
    case (Some(w), None) => if v <= w then Some(IntRange(v, Add32(w - v, 1), 1)) else None
    case (Some(w), Some(x)) =>
      if v <= w && x <= w - v && x > 0 then Some(IntRange(v, Add32(w - v, 1), x)) else None
    case (None, Some(_)) => None
  }

  /** `p_range` */
  function PRange(s: string): (r: Parse<IntRange>)
    ensures r.Ok? ==> |r.rest| < |s| && r.value.step > 0
  {
    var v := PU32(s);
    if v.Fail? then Fail
    else
      var w := POptU32('-', v.rest);
      var x := POptU32(':', w.rest);
      var r := MakeRange(v.value, w.value, x.value);
      if r.Some? then Ok(r.value, x.rest) else Fail
  }

  /** The repetition of `separated_list1(tag(","), p_range)` after its first element. */
  function PMore(s: string): (r: Parse<seq<IntRange>>)
    ensures r.Ok? && Iterable(r.value)
    decreases |s|
  {
    if s != [] && s[0] == ',' && PRange(s[1..]).Ok? then
      var first := PRange(s[1..]);
      var more := PMore(first.rest);
      Ok([first.value] + more.value, more.rest)
    else Ok([], s)
  }

  /** `p_ranges` */
  function PRanges(s: string): (r: Parse<seq<IntRange>>)
    ensures r.Ok? ==> Iterable(r.value) && r.value != []
  {
    var first := PRange(s);
    if first.Fail? then Fail
    else
      var more := PMore(first.rest);
      Ok([first.value] + more.value, more.rest)
  }

  /** `parse_array`: the whole input must be read, and no id may occur twice. */
  function ParseArray(s: string): (r: Option<seq<IntRange>>)
    ensures r.Some? ==> Iterable(r.value) && r.value != [] && Distinct(Iter(r.value))
  {
    var p := PRanges(s);
    if p.Ok? && p.rest == [] && Distinct(Iter(p.value)) then Some(p.value) else None
  }

  // ---- The overlap check ---------------------------------------------------------------------

  function InsertByStart(r: IntRange, rs: seq<IntRange>): seq<IntRange>
  {
    if rs == [] then [r]
    else if rs[|rs| - 1].start <= r.start then rs + [r]
    else InsertByStart(r, rs[..|rs| - 1]) + [rs[|rs| - 1]]
  }

  /** `sort_unstable_by_key(|range| range.start)` */
  function SortByStart(rs: seq<IntRange>): seq<IntRange>
  {
    if rs == [] then [] else InsertByStart(rs[|rs| - 1], SortByStart(rs[..|rs| - 1]))
  }

  lemma {:induction false} InsertKeepsIds(r: IntRange, rs: seq<IntRange>)
    requires Iterable(rs) && r.step > 0
    ensures Iterable(InsertByStart(r, rs))
    ensures multiset(Iter(InsertByStart(r, rs))) == multiset(Iter(rs)) + multiset(RangeIter(r))
  {
    hide RangeIter, Iter;
    if rs == [] {
      IterOne(r);
      EmptyIter();
    } else if rs[|rs| - 1].start <= r.start {
      IterSnoc(rs, r);
    } else {
      var init, last := rs[..|rs| - 1], rs[|rs| - 1];
      InsertKeepsIds(r, init);
      IterSnoc(InsertByStart(r, init), last);
      IterSnoc(init, last);
      assert rs == init + [last];
    }
  }

  lemma IterSnoc(rs: seq<IntRange>, r: IntRange)
    requires Iterable(rs) && r.step > 0
    ensures Iterable(rs + [r]) && Iter(rs + [r]) == Iter(rs) + RangeIter(r)
  {
    hide RangeIter;
    assert (rs + [r])[..|rs|] == rs;
  }

  lemma {:induction false} SortKeepsIds(rs: seq<IntRange>)
    requires Iterable(rs)
    ensures Iterable(SortByStart(rs))
    ensures multiset(Iter(SortByStart(rs))) == multiset(Iter(rs))
  {
    if rs != [] {
      SortKeepsIds(rs[..|rs| - 1]);
      InsertKeepsIds(rs[|rs| - 1], SortByStart(rs[..|rs| - 1]));
    }
  }

  /** Having no duplicates does not depend on the order. */
  lemma {:induction false} DistinctCount(ids: seq<U32>)
    ensures Distinct(ids) <==> forall x :: multiset(ids)[x] <= 1
  {
    if ids != [] {
      var init, x := ids[..|ids| - 1], ids[|ids| - 1];
      DistinctCount(init);
      assert ids == init + [x];
      assert multiset(ids) == multiset(init) + multiset{x};
      if Distinct(ids) {
        assert x !in init;
        assert multiset(init)[x] == 0;
      } else if Distinct(init) {
        assert x in init;
        assert multiset(ids)[x] >= 2;
      } else {
        var y :| multiset(init)[y] > 1;
        assert multiset(ids)[y] > 1;
      }
    }
  }

  /** `is_overlapping`: inserts the ids of the sorted ranges into a set until one is already there. */
  method IsOverlapping(ranges: seq<IntRange>) returns (overlap: bool)
    requires Iterable(ranges)
    ensures overlap <==> !Distinct(Iter(ranges))
  {
    hide RangeIter, SortByStart, Distinct, Iter;
    var rs := SortByStart(ranges);
    SortKeepsIds(ranges);
    SameDistinct(Iter(rs), Iter(ranges));
    var ids: set<U32> := {};
    NoneRepeated(rs);
    for k := 0 to |rs|
      invariant Iterable(rs[..k]) && Distinct(Iter(rs[..k]))
      invariant forall x :: x in ids <==> x in Iter(rs[..k])
    {
      IterPrefix(rs, k);
      var grown, dup := InsertAll(ids, RangeIter(rs[k]), Iter(rs[..k]));
      if dup {
        NotDistinctPrefix(rs, k + 1);
        return true;
      }
      ids := grown;
    }
    assert rs[..|rs|] == rs;
    overlap := false;
  }

  lemma NoneRepeated(rs: seq<IntRange>)
    ensures Iter(rs[..0]) == [] && Distinct(Iter(rs[..0]))
  {
  }

  lemma IterPrefix(rs: seq<IntRange>, k: nat)
    requires Iterable(rs) && k < |rs|
    ensures Iterable(rs[..k + 1]) && Iter(rs[..k + 1]) == Iter(rs[..k]) + RangeIter(rs[k])
  {
    hide RangeIter, Iter;
    assert rs[..k + 1] == rs[..k] + [rs[k]];
    IterSnoc(rs[..k], rs[k]);
  }

  lemma SameDistinct(a: seq<U32>, b: seq<U32>)
    requires multiset(a) == multiset(b)
    ensures Distinct(a) <==> Distinct(b)
  {
    hide Distinct;
    DistinctCount(a);
    DistinctCount(b);
  }

  /** `range.iter().any(|x| !ids.insert(x))` */
  method InsertAll(ids: set<U32>, xs: seq<U32>, ghost before: seq<U32>) returns (r: set<U32>, dup: bool)
    requires Distinct(before) && forall x :: x in ids <==> x in before
    ensures dup <==> !Distinct(before + xs)
    ensures !dup ==> forall x :: x in r <==> x in before + xs
  {
    r := ids;
    assert before + xs[..0] == before;
    for k := 0 to |xs|
      invariant Distinct(before + xs[..k])
      invariant forall x :: x in r <==> x in before + xs[..k]
    {
      var x := xs[k];
      assert before + xs[..k + 1] == before + xs[..k] + [x];
      if x in r {
        ghost var p :| 0 <= p < |before + xs[..k]| && (before + xs[..k])[p] == x;
        assert (before + xs)[p] == (before + xs)[|before| + k];
        return r, true;
      }
      r := r + {x};
    }
    assert xs[..|xs|] == xs;
    dup := false;
  }

  lemma {:induction false} NotDistinctPrefix(rs: seq<IntRange>, n: nat)
    requires Iterable(rs) && n <= |rs| && !Distinct(Iter(rs[..n]))
    ensures !Distinct(Iter(rs))
  {
    assert rs == rs[..n] + rs[n..];
    IterAppend(rs[..n], rs[n..]);
    var a := Iter(rs[..n]);
    var i, j :| 0 <= i < j < |a| && a[i] == a[j];
    assert Iter(rs)[i] == Iter(rs)[j];
  }

  /** `parse_array`: the ranges, then the overlap check, and nothing may be left of the input. */
  method Parse(s: string) returns (r: Option<seq<IntRange>>)
    ensures r == ParseArray(s)
  {
    hide PRanges, Iter;
    var p := PRanges(s);
    if p.Fail? { return None; }
    var overlap := IsOverlapping(p.value);
    r := if overlap || p.rest != [] then None else Some(p.value);
  }

  // ---- What the parser accepts ---------------------------------------------------------------

  /** The last id a text `from-to:step` names. */
  function LastId(v: U32, w: Option<U32>): U32 { if w.Some? then w.value else v }

  /** A parsed range is empty, because its end wraps around, exactly when the largest id is named. */
  lemma MakeRangeIsSound(v: U32, w: Option<U32>, x: Option<U32>)
    requires MakeRange(v, w, x).Some?
    ensures
      var r := MakeRange(v, w, x).value;
      && (r.count > 0 && InBounds(r) <==> LastId(v, w) < MAX_U32)
      && (RangeIter(r) == [] <==> LastId(v, w) == MAX_U32)
  {
  }

  /** The last id the first range of the text names. */
  function FirstLast(s: string): U32
    requires PRange(s).Ok?
  {
    LastId(PU32(s).value, POptU32('-', PU32(s).rest).value)
  }

  /** The last ids the ranges of the text name, range by range. */
  function MoreLasts(s: string): (r: seq<U32>)
    ensures |r| == |PMore(s).value|
    decreases |s|
  {
    if s != [] && s[0] == ',' && PRange(s[1..]).Ok? then
      [FirstLast(s[1..])] + MoreLasts(PRange(s[1..]).rest)
    else []
  }

  predicate NamesLargest(s: string)
    requires PRange(s).Ok?
  {
    FirstLast(s) == MAX_U32 || MAX_U32 in MoreLasts(PRange(s).rest)
  }

  predicate Sound(r: IntRange) { r.count > 0 && InBounds(r) }

  lemma FirstIsSound(s: string)
    requires PRange(s).Ok?
    ensures Sound(PRange(s).value) <==> FirstLast(s) != MAX_U32
  {
    hide PU32, POptU32, MakeRange;
    var w := POptU32('-', PU32(s).rest);
    MakeRangeIsSound(PU32(s).value, w.value, POptU32(':', w.rest).value);
  }

  lemma {:induction false} MoreAreSound(s: string)
    ensures (forall r :: r in PMore(s).value ==> Sound(r)) <==> MAX_U32 !in MoreLasts(s)
    decreases |s|
  {
    hide PRange, Sound, FirstLast;
    if s != [] && s[0] == ',' && PRange(s[1..]).Ok? {
      FirstIsSound(s[1..]);
      MoreAreSound(PRange(s[1..]).rest);
      var first, more := PRange(s[1..]).value, PMore(PRange(s[1..]).rest).value;
      assert forall r :: r in PMore(s).value <==> r == first || r in more;
    }
  }

  /** An accepted text denotes an array without empty ranges if and only if it does not name the largest id. */
  lemma AcceptedIsWellFormed(s: string)
    requires ParseArray(s).Some?
    ensures PRange(s).Ok? && (WellFormed(ParseArray(s).value) <==> !NamesLargest(s))
  {
    hide PRange, PMore, FirstLast, MoreLasts, Iter, Distinct;
    var rs := ParseArray(s).value;
    var first, more := PRange(s).value, PMore(PRange(s).rest).value;
    assert rs == [first] + more;
    FirstIsSound(s);
    MoreAreSound(PRange(s).rest);
    assert forall r :: r in rs <==> r == first || r in more;
    WellFormedIsSound(rs);
  }

  lemma WellFormedIsSound(rs: seq<IntRange>)
    requires Iterable(rs)
    ensures WellFormed(rs) <==> forall r :: r in rs ==> Sound(r)
  {
    if forall r :: r in rs ==> Sound(r) {
      forall k | 0 <= k < |rs| ensures rs[k].count > 0 && InBounds(rs[k]) { assert Sound(rs[k]); }
    }
  }

  // ---- What a text denotes -------------------------------------------------------------------

  /** One range as a text. */
  lemma OneRangeText(s: string, v: U32, w: Option<U32>, x: Option<U32>)
    requires
      && PU32(s).Ok? && PU32(s).value == v
      && POptU32('-', PU32(s).rest).value == w
      && POptU32(':', POptU32('-', PU32(s).rest).rest) == Ok(x, [])
    ensures ParseArray(s) == if MakeRange(v, w, x).Some? then Some([MakeRange(v, w, x).value]) else None
  {
    hide PU32, POptU32, RangeIter, Iter;
    var r := MakeRange(v, w, x);
    if r.Some? {
      assert PMore([]) == Ok([], []);
      assert [r.value] + [] == [r.value];
      IterOne(r.value);
      RangeIsDistinct(r.value);
    }
  }

  lemma RangeIsDistinct(r: IntRange)
    requires r.step > 0
    ensures Distinct(RangeIter(r))
  {
    var s := RangeIter(r);
    forall i, j | 0 <= i < j < |s| ensures s[i] != s[j] {
      StepsAt(r.start, Add32(r.start, r.count), r.step, i);
      StepsAt(r.start, Add32(r.start, r.count), r.step, j);
      Ascends(i, j, r.step);
    }
  }

  lemma {:induction false} Ascends(i: nat, j: nat, step: nat)
    requires i < j && step > 0
    ensures i * step < j * step
  {
    assert j * step == (j - 1) * step + step;
    if i < j - 1 { Ascends(i, j - 1, step); }
  }

  /** `k` steps after `v`. */
  function Nth(v: nat, step: nat, k: nat): nat { v + k * step }

  /**
   * The text `v-w:x` is accepted if and only if the range goes upwards and the step is positive and not
   * longer than the range, and it denotes every x-th id from v up to and including w; nothing, though,
   * if w is the largest id.
   */
  lemma SteppedText(v: U32, w: U32, x: U32)
    ensures
      var p := ParseArray(Decimal(v) + ("-" + Decimal(w) + (":" + Decimal(x) + [])));
      && (p.Some? <==> v <= w && 0 < x <= w - v)
      && (p.Some? ==> forall id :: id in Iter(p.value) <==> id <= w < MAX_U32 && exists k :: Nth(v, x, k) == id)
  {
    hide Decimal, PU32, POptU32, Iter, ParseArray, RangeIter;
    var colon := ":" + Decimal(x) + [];
    var tail := "-" + Decimal(w) + colon;
    NumberRoundTrip(v, tail);
    OptPresent('-', w, colon);
    OptPresent(':', x, []);
    OneRangeText(Decimal(v) + tail, v, Some(w), Some(x));
    if v <= w && 0 < x <= w - v { SpanDenotes(v, w, x); }
  }

  /** The text `v-w` is accepted if and only if the range goes upwards, and denotes all ids from v to w. */
  lemma SpanText(v: U32, w: U32)
    ensures
      var p := ParseArray(Decimal(v) + ("-" + Decimal(w) + []));
      && (p.Some? <==> v <= w)
      && (p.Some? ==> forall id :: id in Iter(p.value) <==> v <= id <= w < MAX_U32)
  {
    hide Decimal, PU32, Iter, ParseArray, RangeIter;
    var tail := "-" + Decimal(w) + [];
    NumberRoundTrip(v, tail);
    OptPresent('-', w, []);
    OneRangeText(Decimal(v) + tail, v, Some(w), None);
    if v <= w { UnitSpanDenotes(v, w); }
  }

  /** A single number denotes itself, except for the largest id, which denotes nothing. */
  lemma NumberText(v: U32)
    ensures
      var p := ParseArray(Decimal(v));
      p.Some? && forall id :: id in Iter(p.value) <==> id == v < MAX_U32
  {
    hide Decimal, PU32, Iter, ParseArray, RangeIter;
    assert Decimal(v) + [] == Decimal(v);
    NumberRoundTrip(v, []);
    OneRangeText(Decimal(v), v, None, None);
    UnitSpanDenotes(v, v);
  }

  lemma SpanDenotes(v: U32, w: U32, x: U32)
    requires v <= w && 0 < x
    ensures
      var r := IntRange(v, Add32(w - v, 1), x);
      forall id :: id in Iter([r]) <==> id <= w < MAX_U32 && exists k :: Nth(v, x, k) == id
  {
    hide Iter, RangeIter;
    var r := IntRange(v, Add32(w - v, 1), x);
    IterOne(r);
    if w < MAX_U32 {
      forall id: U32 ensures id in RangeIter(r) <==> id <= w && exists k :: Nth(v, x, k) == id {
        RangeDenotes(r, id);
        ReachedFrom(r, id);
      }
    } else {
      EmptyToLargest(v, x);
    }
  }

  lemma ReachedFrom(r: IntRange, id: U32)
    ensures (exists k: nat :: IdAt(r, k) == id) <==> exists k :: Nth(r.start, r.step, k) == id
  {
    forall k: nat ensures IdAt(r, k) == Nth(r.start, r.step, k) {}
  }

  lemma UnitSpanDenotes(v: U32, w: U32)
    requires v <= w
    ensures var ids := Iter([IntRange(v, Add32(w - v, 1), 1)]); forall id :: id in ids <==> v <= id <= w < MAX_U32
  {
    hide Iter, Nth;
    SpanDenotes(v, w, 1);
    var ids := Iter([IntRange(v, Add32(w - v, 1), 1)]);
    forall id: U32 ensures id in ids <==> v <= id <= w < MAX_U32 { EveryIdFollows(v, id); }
  }

  lemma EveryIdFollows(v: U32, id: U32)
    ensures v <= id <==> exists k :: Nth(v, 1, k) == id
  {
    if v <= id { assert Nth(v, 1, id - v) == id; }
  }

  lemma EmptyToLargest(v: U32, x: U32)
    requires x > 0
    ensures RangeIter(IntRange(v, Add32(MAX_U32 - v, 1), x)) == []
  {
  }

  // ---- Printing ------------------------------------------------------------------------------

  /** `start + count - 1`, which wraps around. */
  function PrintedLast(r: IntRange): U32
  {
    if r.count > 0 then Add32(r.start, r.count - 1) else if r.start > 0 then r.start - 1 else MAX_U32
  }

  /** One range as `Display` prints it. */
  function PrintRange(r: IntRange): string
  {
    if r.count == 1 then Decimal(r.start)
    else if r.step == 1 then Decimal(r.start) + "-" + Decimal(PrintedLast(r))
    else Decimal(r.start) + "-" + Decimal(PrintedLast(r)) + ":" + Decimal(r.step)
  }

  /** A range of a form the parser builds. The empty range from zero is what `0-4294967295` becomes. */
  predicate Printable(r: IntRange)
  {
    && r.step > 0
    && if r.count == 0 then r.start == 0
       else r.start + r.count <= 0x1_0000_0000 && (r.step == 1 || r.step < r.count)
  }

  predicate RangeEnds(rest: string) { rest != [] ==> rest[0] == ',' }

  lemma OptPresent(c: char, n: U32, rest: string)
    requires NumberEnds(rest)
    ensures POptU32(c, [c] + Decimal(n) + rest) == Ok(Some(n), rest)
  {
    hide Decimal, PU32;
    var s := [c] + Decimal(n) + rest;
    assert s[1..] == Decimal(n) + rest;
    NumberRoundTrip(n, rest);
  }

  lemma ParsePrinted(r: IntRange, rest: string)
    requires RangeEnds(rest)
    ensures
      var w := if r.count == 1 then None else Some(PrintedLast(r));
      var x := if r.count == 1 || r.step == 1 then None else Some(r.step);
      var made := MakeRange(r.start, w, x);
      PRange(PrintRange(r) + rest) == if made.Some? then Ok(made.value, rest) else Fail
  {
    hide Decimal, PU32, PrintedLast;
    var a := Decimal(r.start);
    var last := PrintedLast(r);
    if r.count == 1 {
      NumberRoundTrip(r.start, rest);
    } else {
      var colon := if r.step == 1 then [] else ":" + Decimal(r.step);
      var tail := "-" + Decimal(last) + (colon + rest);
      assert PrintRange(r) + rest == a + tail;
      NumberRoundTrip(r.start, tail);
      OptPresent('-', last, colon + rest);
      if r.step == 1 {
        assert colon + rest == rest;
      } else {
        OptPresent(':', r.step, rest);
      }
    }
  }

  /** Any range, printed, parses back to itself if and only if it has a form the parser builds. */
  lemma RangeRoundTrip(r: IntRange, rest: string)
    requires RangeEnds(rest)
    ensures PRange(PrintRange(r) + rest) == Ok(r, rest) <==> Printable(r)
  {
    hide PRange, PrintRange;
    ParsePrinted(r, rest);
  }

  predicate AllPrintable(rs: seq<IntRange>) { forall k :: 0 <= k < |rs| ==> Printable(rs[k]) }

  /** The ranges separated by `sep`. */
  function Join(rs: seq<IntRange>, sep: string): string
    decreases |rs|, 0
  {
    if rs == [] then [] else PrintRange(rs[0]) + Rest(rs[1..], sep)
  }

  /** The part of the text after the first range. */
  function Rest(rs: seq<IntRange>, sep: string): string
    decreases |rs|, 1
  {
    if rs == [] then [] else sep + Join(rs, sep)
  }

  lemma {:induction false} MoreRoundTrip(rs: seq<IntRange>)
    requires AllPrintable(rs)
    ensures PMore(Rest(rs, ",")) == Ok(rs, [])
  {
    hide PRange, PrintRange;
    if rs != [] {
      var s := Rest(rs, ",");
      assert s[1..] == Join(rs, ",") == PrintRange(rs[0]) + Rest(rs[1..], ",");
      RangeRoundTrip(rs[0], Rest(rs[1..], ","));
      MoreRoundTrip(rs[1..]);
      assert [rs[0]] + rs[1..] == rs;
    }
  }

  /** A comma-joined list of ranges without a common id parses back to the same list. */
  lemma ListRoundTrip(rs: seq<IntRange>)
    requires AllPrintable(rs) && rs != [] && Iterable(rs) && Distinct(Iter(rs))
    ensures ParseArray(Join(rs, ",")) == Some(rs)
  {
    hide PRange, PrintRange, PMore, Iter;
    assert Join(rs, ",") == PrintRange(rs[0]) + Rest(rs[1..], ",");
    hide Join;
    RangeRoundTrip(rs[0], Rest(rs[1..], ","));
    MoreRoundTrip(rs[1..]);
    assert [rs[0]] + rs[1..] == rs;
  }

  /** `Display`: separates the ranges by a comma and a space; an empty array would panic. */
  method Display(rs: seq<IntRange>) returns (s: string)
    requires rs != []
    ensures s == Join(rs, ", ")
  {
    hide PrintRange;
    var str: string := [];
    for k := 0 to |rs|
      invariant str == Terminated(rs[..k], ", ")
    {
      assert rs[..k + 1] == rs[..k] + [rs[k]];
      TerminatedSnoc(rs[..k], rs[k], ", ");
      str := str + (PrintRange(rs[k]) + ", ");
    }
    assert rs[..|rs|] == rs;
    TerminatedJoin(rs, ", ");
    s := str[0..|str| - 2];
  }

  /** Every range followed by `sep`. */
  function Terminated(rs: seq<IntRange>, sep: string): string
  {
    if rs == [] then [] else PrintRange(rs[0]) + sep + Terminated(rs[1..], sep)
  }

  lemma {:induction false} TerminatedSnoc(rs: seq<IntRange>, r: IntRange, sep: string)
    ensures Terminated(rs + [r], sep) == Terminated(rs, sep) + (PrintRange(r) + sep)
  {
    hide PrintRange;
    if rs == [] {
      assert rs + [r] == [r];
      assert [r][1..] == [];
    } else {
      TerminatedSnoc(rs[1..], r, sep);
      assert (rs + [r])[1..] == rs[1..] + [r];
      var a, b, c := PrintRange(rs[0]) + sep, Terminated(rs[1..], sep), PrintRange(r) + sep;
      assert a + (b + c) == a + b + c;
    }
  }

  lemma {:induction false} TerminatedJoin(rs: seq<IntRange>, sep: string)
    requires rs != []
    ensures Terminated(rs, sep) == Join(rs, sep) + sep
  {
    hide PrintRange;
    var a := PrintRange(rs[0]);
    if |rs| > 1 {
      TerminatedJoin(rs[1..], sep);
      var b := Join(rs[1..], sep);
      assert Join(rs, sep) == a + (sep + b);
      assert Terminated(rs, sep) == a + sep + (b + sep);
      hide Join, Terminated;
      assert a + sep + (b + sep) == a + (sep + b) + sep;
    } else {
      assert Join(rs, sep) == a + [] == a;
      assert rs[1..] == [];
      assert PrintRange(rs[0]) + sep + [] == PrintRange(rs[0]) + sep;
    }
  }

  /**
   * What `Display` prints is accepted by the parser again if and only if there is a single range:
   * the parser does not know the space after the comma.
   */
  lemma DisplayRoundTrip(rs: seq<IntRange>)
    requires AllPrintable(rs) && rs != [] && Iterable(rs) && Distinct(Iter(rs))
    ensures |rs| == 1 ==> ParseArray(Join(rs, ", ")) == Some(rs)
    ensures |rs| > 1 ==> ParseArray(Join(rs, ", ")) == None
  {
    hide PRange, PrintRange, Iter;
    if |rs| == 1 {
      assert Join(rs, ", ") == Join(rs, ",") by { JoinOne(rs, ", "); JoinOne(rs, ","); }
      ListRoundTrip(rs);
    } else {
      var rest := Rest(rs[1..], ", ");
      assert Join(rs, ", ") == PrintRange(rs[0]) + rest;
      assert rest == ", " + Join(rs[1..], ", ");
      hide Join;
      RangeRoundTrip(rs[0], rest);
      assert rest[1..] == " " + Join(rs[1..], ", ");
      SpaceIsNoRange(rest[1..]);
      assert PMore(rest) == Ok([], rest);
    }
  }

  lemma JoinOne(rs: seq<IntRange>, sep: string)
    requires |rs| == 1
    ensures Join(rs, sep) == PrintRange(rs[0])
  {
    hide PrintRange;
    assert rs[1..] == [];
    assert PrintRange(rs[0]) + [] == PrintRange(rs[0]);
  }

  lemma SpaceIsNoRange(s: string)
    requires s != [] && s[0] == ' '
    ensures PRange(s) == Fail
  {
    NotANumber(s);
  }

  lemma {:induction false} MoreArePrintable(s: string)
    ensures AllPrintable(PMore(s).value)
    decreases |s|
  {
    hide PU32, POptU32;
    if s != [] && s[0] == ',' && PRange(s[1..]).Ok? {
      MoreArePrintable(PRange(s[1..]).rest);
    }
  }

  /** Every accepted text has an equivalent canonical text, the comma-joined print of what it denotes. */
  lemma AcceptedReprints(s: string)
    requires ParseArray(s).Some?
    ensures ParseArray(Join(ParseArray(s).value, ",")) == ParseArray(s)
  {
    hide PU32, POptU32, PMore, Iter, Join, Distinct;
    MoreArePrintable(PRange(s).rest);
    ListRoundTrip(ParseArray(s).value);
  }

  /** What `Display` prints, on an example: a range, a single id, a range with a step. */
  lemma DisplayExample()
    ensures Join([IntRange(1, 3, 1), IntRange(7, 1, 1), IntRange(5, 5, 2)], ", ") == "1-3, 7, 5-9:2"
  {
    hide Join, PrintRange;
    var a, b, c := IntRange(1, 3, 1), IntRange(7, 1, 1), IntRange(5, 5, 2);
    PrintExamples();
    JoinOne([c], ", ");
    JoinMore(b, [c], ", ");
    JoinMore(a, [b, c], ", ");
    assert [b] + [c] == [b, c] && [a] + [b, c] == [a, b, c];
    assert "7" + (", " + "5-9:2") == "7, 5-9:2";
    assert "1-3" + (", " + "7, 5-9:2") == "1-3, 7, 5-9:2";
  }

  lemma PrintExamples()
    ensures PrintRange(IntRange(1, 3, 1)) == "1-3"
    ensures PrintRange(IntRange(7, 1, 1)) == "7"
    ensures PrintRange(IntRange(5, 5, 2)) == "5-9:2"
    ensures PrintRange(IntRange(1, 0, 1)) == "1-0"
  {
    hide Decimal;
    DecimalDigits(0, 0);
    DecimalDigits(0, 1);
    DecimalDigits(0, 2);
    DecimalDigits(0, 3);
    DecimalDigits(0, 5);
    DecimalDigits(0, 7);
    DecimalDigits(0, 9);
  }

  lemma JoinMore(r: IntRange, rs: seq<IntRange>, sep: string)
    requires rs != []
    ensures Join([r] + rs, sep) == PrintRange(r) + (sep + Join(rs, sep))
  {
    hide PrintRange;
    assert ([r] + rs)[1..] == rs;
  }
}
