/** The sorted set of offset ranges behind unordered reassembly, and the lazy iterator returned
    by its `replace` operation. The B-tree map from range start to range end is its list of
    entries in key order. */
module RangeSets {

  import opened Basics

  /** The half-open range `start..end`. */
  datatype Range = Range(start: nat, end: nat) {
    predicate Has(x: nat) { start <= x < end }
    predicate Empty() { start == end }
  }

  type RangeSet = seq<Range>

  /** Entries ascend and never touch. An entry may be empty: see `Finish`. */
  ghost predicate Sorted(rs: RangeSet) {
    && (forall i :: 0 <= i < |rs| ==> rs[i].start <= rs[i].end)
    && (forall i, j :: 0 <= i < j < |rs| ==> rs[i].end < rs[j].start)
  }

  /** The offsets of one range. */
  function Span(r: Range): set<nat> {
    set x: nat {:trigger r.Has(x)} | r.start <= x < r.end
  }

  lemma {:induction false} SpanSize(lo: nat, hi: nat)
    requires lo <= hi
    ensures |Span(Range(lo, hi))| == hi - lo
    decreases hi - lo
  {
    if lo < hi {
      SpanSize(lo + 1, hi);
      assert Span(Range(lo, hi)) == {lo} + Span(Range(lo + 1, hi));
    }
  }

  /** All offsets in the set. */
  ghost function Offsets(rs: RangeSet): set<nat> {
    if rs == [] then {} else Span(rs[0]) + Offsets(rs[1..])
  }

  /** The only empty entries that hide nothing from the iterator are one at offset 0 and the last one. */
  ghost predicate Clean(rs: RangeSet) {
    && Sorted(rs)
    && forall i :: 0 <= i < |rs| && rs[i].Empty() ==> rs[i].start == 0 || i == |rs| - 1
  }

  /** Only the last entry is empty, if any. */
  ghost predicate Tight(rs: RangeSet) {
    forall i :: 0 <= i < |rs| - 1 ==> !rs[i].Empty()
  }

  /** No empty entry above 0 has a byte after it. */
  ghost predicate Open(rs: RangeSet) {
    && Sorted(rs)
    && forall i, j :: 0 <= i < j < |rs| && rs[i].Empty() && rs[i].start > 0 ==> rs[j].Empty()
  }

  /** State of the iterator: entries before and after the merged range, which is removed from the
      map while iterating, and the overlap with the predecessor if it is still to be yielded. */
  datatype Replace = Replace(before: RangeSet, after: RangeSet, range: Range, pred: Option<Range>)

  /** Number of entries starting at or before `x`; the last of them is the predecessor of `x`. */
  function CountUpTo(rs: RangeSet, x: nat): (k: nat)
    ensures k <= |rs|
    ensures forall i :: 0 <= i < k ==> rs[i].start <= x
    ensures k < |rs| ==> rs[k].start > x
  {
    if rs == [] || rs[0].start > x then 0 else 1 + CountUpTo(rs[1..], x)
  }

  /** `replace`: merge the predecessor if it reaches the new range. */
  function Begin(rs: RangeSet, range: Range): (it: Replace)
    requires range.start <= range.end
  {
    var k := CountUpTo(rs, range.start);
    if k > 0 && rs[k - 1].end >= range.start then
      var prev := rs[k - 1];
      var overlapEnd := Min(range.end, prev.end);
      Replace(rs[..k - 1], rs[k..],
              Range(Min(range.start, prev.start), Max(range.end, prev.end)),
              if range.start != overlapEnd then Some(Range(range.start, overlapEnd)) else None)
    else
      Replace(rs[..k], rs[k..], range, None)
  }

  /** `Iterator::next`: yields an overlap, or `None` at the end and also at an entry that starts
      where its clipped end lies. */
  function Next(it: Replace): (r: (Option<Range>, Replace))
    ensures |r.1.after| <= |it.after|
    ensures r.0.Some? && it.pred.None? ==> |r.1.after| < |it.after|
    ensures r.1.pred.None?
  {
    if it.pred.Some? then
      (it.pred, it.(pred := None))
    else if it.after == [] || it.after[0].start > it.range.end then
      (None, it)
    else
      var e := it.after[0];
      var overlapEnd := Min(it.range.end, e.end);
      var it' := it.(after := it.after[1..], range := Range(it.range.start, Max(it.range.end, e.end)));
      if e.start == overlapEnd then (None, it') else (Some(Range(e.start, overlapEnd)), it')
  }

  /** What a `for` loop over the iterator sees, and the iterator it leaves behind. */
  function Drain(it: Replace): (r: (seq<Range>, Replace))
    decreases |it.after| + if it.pred.Some? then 1 else 0
  {
    var (item, it') := Next(it);
    if item.None? then ([], it') else
      var (rest, last) := Drain(it');
      ([item.value] + rest, last)
  }

  /** `Drop`: drain once more, then insert the aggregate range, even when it is empty. */
  function Finish(it: Replace): (rs: RangeSet) {
    var last := Drain(it).1;
    last.before + [last.range] + last.after
  }

  /** The overlaps a caller of `replace` sees. */
  function Overlaps(rs: RangeSet, range: Range): seq<Range>
    requires range.start <= range.end
  {
    Drain(Begin(rs, range)).0
  }

  /** The set once the iterator has been dropped. */
  function Replaced(rs: RangeSet, range: Range): RangeSet
    requires range.start <= range.end
  {
    Finish(Drain(Begin(rs, range)).1)
  }

  /** Non-empty ascending ranges inside `range`. */
  ghost predicate Ascending(ds: seq<Range>, range: Range) {
    && (forall i :: 0 <= i < |ds| ==> range.start <= ds[i].start < ds[i].end <= range.end)
    && (forall i, j :: 0 <= i < j < |ds| ==> ds[i].end <= ds[j].start)
  }

  /** `ds` is exactly the part of `range` already in `rs`. */
  ghost predicate ExactOverlap(ds: seq<Range>, rs: RangeSet, range: Range) {
    && Ascending(ds, range)
    && Offsets(ds) == Span(range) * Offsets(rs)
  }

  // ---------------------------------------------------------------------------------------------
  // The clean case

  /** What holds of an iterator over an open set: the merged range covers the inserted one and
      extends past its end only when nothing is left to merge. */
  ghost predicate Going(it: Replace, lo: nat, hi: nat) {
    && it.pred.None?
    && Sorted(it.after)
    && it.range.start <= lo <= hi <= it.range.end
    && (forall i :: 0 <= i < |it.after| ==> it.after[i].start > lo)
    && (forall i, j :: 0 <= i < j < |it.after| && it.after[i].Empty() ==> it.after[j].Empty())
    && (it.range.end > hi ==> forall i :: 0 <= i < |it.after| ==> it.after[i].start > it.range.end)
  }

  lemma {:induction false} OffsetsFrom(rs: RangeSet, low: nat)
    requires forall i :: 0 <= i < |rs| ==> rs[i].start >= low
    ensures forall x :: x in Offsets(rs) ==> x >= low
  {
    if rs != [] {
      OffsetsFrom(rs[1..], low);
    }
  }

  /** One step over an overlapping or touching entry keeps the iterator going. */
  lemma StepClean(it: Replace, lo: nat, hi: nat)
    requires Going(it, lo, hi)
    requires it.after != [] && it.after[0].start <= it.range.end
    ensures it.range.end == hi
    ensures var (item, it') := Next(it);
            && Going(it', lo, hi)
            && it'.after == it.after[1..]
            && Span(it'.range) == Span(it.range) + Span(it.after[0])
            && item == (if it.after[0].start == hi || it.after[0].Empty() then None
                        else Some(Range(it.after[0].start, Min(hi, it.after[0].end))))
  {
    var (item, it') := Next(it);
    assert forall i :: 0 <= i < |it'.after| ==> it'.after[i] == it.after[i + 1];
  }

  lemma {:induction false} OffsetsEmpty(rs: RangeSet)
    requires forall i :: 0 <= i < |rs| ==> rs[i].Empty()
    ensures Offsets(rs) == {}
  {
    if rs != [] {
      assert Span(rs[0]) == {};
      OffsetsEmpty(rs[1..]);
    }
  }

  /** The overlaps come in order. */
  lemma {:induction false} DrainAscends(it: Replace, lo: nat, hi: nat)
    requires Going(it, lo, hi)
    ensures Ascending(Drain(it).0, Range(lo, hi))
    ensures forall i :: 0 <= i < |Drain(it).0| ==> it.after != [] && Drain(it).0[i].start >= it.after[0].start
    decreases |it.after|
  {
    if it.after != [] && it.after[0].start <= it.range.end {
      StepClean(it, lo, hi);
      if it.after[0].start != hi && !it.after[0].Empty() {
        var (item, it') := Next(it);
        DrainAscends(it', lo, hi);
        assert it'.after != [] ==> it'.after[0] == it.after[1];
        assert Drain(it).0 == [item.value] + Drain(it').0;
      }
    }
  }

  /** The overlaps are found exactly. */
  lemma {:induction false} DrainYields(it: Replace, lo: nat, hi: nat)
    requires Going(it, lo, hi)
    ensures Offsets(Drain(it).0) == Span(Range(lo, hi)) * Offsets(it.after)
    decreases |it.after|
  {
    if it.after == [] || it.after[0].start >= hi {
      OffsetsFrom(it.after, hi);
      assert Drain(it).0 == [];
    } else if it.after[0].Empty() {
      StepClean(it, lo, hi);
      OffsetsEmpty(it.after);
    } else {
      StepClean(it, lo, hi);
      var e := it.after[0];
      var (item, it') := Next(it);
      DrainYields(it', lo, hi);
      assert Drain(it).0 == [item.value] + Drain(it').0;
      assert Drain(it).0[1..] == Drain(it').0;
      assert Span(item.value) == Span(Range(lo, hi)) * Span(e);
    }
  }

  /** Nothing is lost or invented while merging, and the merge is complete. */
  lemma {:induction false} DrainMerges(it: Replace, lo: nat, hi: nat)
    requires Going(it, lo, hi) && Tight(it.after)
    ensures var last := Drain(it).1;
            && Going(last, lo, hi) && Tight(last.after)
            && last.before == it.before
            && last.range.start == it.range.start
            && Span(last.range) + Offsets(last.after) == Span(it.range) + Offsets(it.after)
            && (last.after != [] ==> last.after[0].start > last.range.end)
    decreases |it.after|
  {
    if it.after == [] || it.after[0].start > it.range.end {
    } else {
      StepClean(it, lo, hi);
      if it.after[0].start != hi && !it.after[0].Empty() {
        DrainMerges(Next(it).1, lo, hi);
      } else {
        assert it.after[1..] != [] ==> it.after[1].start > it.after[0].end;
      }
    }
  }

  lemma {:induction false} OffsetsConcat(a: RangeSet, b: RangeSet)
    ensures Offsets(a + b) == Offsets(a) + Offsets(b)
  {
    if a == [] {
      assert a + b == b;
    } else {
      assert (a + b)[1..] == a[1..] + b;
      OffsetsConcat(a[1..], b);
    }
  }

  lemma {:induction false} OffsetsBelow(rs: RangeSet, high: nat)
    requires forall i :: 0 <= i < |rs| ==> rs[i].end <= high
    ensures Offsets(rs) <= Span(Range(0, high))
  {
    if rs != [] {
      OffsetsBelow(rs[1..], high);
    }
  }

  /** Entries up to `k` start at or before `x` and the next one does not. */
  lemma {:induction false} CountUpToIs(rs: RangeSet, x: nat, k: nat)
    requires k <= |rs|
    requires forall i :: 0 <= i < k ==> rs[i].start <= x
    requires k < |rs| ==> rs[k].start > x
    ensures CountUpTo(rs, x) == k
  {
    if k > 0 {
      CountUpToIs(rs[1..], x, k - 1);
    }
  }

  lemma SortedParts(rs: RangeSet, k: nat)
    requires Sorted(rs) && k <= |rs|
    ensures Sorted(rs[..k]) && Sorted(rs[k..])
  {
  }

  lemma SortedJoin(a: RangeSet, b: RangeSet)
    requires Sorted(a) && Sorted(b)
    requires a != [] && b != [] ==> a[|a| - 1].end < b[0].start
    ensures Sorted(a + b)
  {
    forall i, j | 0 <= i < j < |a + b| ensures (a + b)[i].end < (a + b)[j].start {
      if i < |a| <= j {
        assert a[i].end <= a[|a| - 1].end;
        assert b[0].start <= b[j - |a|].start;
      }
    }
  }

  /** The entries before and after position `k`. */
  lemma AroundIndex(rs: RangeSet, k: nat)
    requires Sorted(rs) && k <= |rs|
    ensures Sorted(rs[..k]) && Sorted(rs[k..])
    ensures k < |rs| ==> forall i :: 0 <= i < |rs[..k]| ==> rs[..k][i].end < rs[k].start
    ensures k < |rs| ==> forall i :: 0 <= i < |rs[k..]| ==> rs[k].start <= rs[k..][i].start
    ensures k > 0 ==> forall i :: 0 <= i < |rs[k..]| ==> rs[k - 1].end < rs[k..][i].start
  {
    SortedParts(rs, k);
  }

  /** The entries before a merged predecessor end below it. */
  lemma BeginBefore(rs: RangeSet, range: Range)
    requires Sorted(rs) && range.start <= range.end
    ensures var it := Begin(rs, range);
            && Sorted(it.before)
            && (forall i :: 0 <= i < |it.before| ==> it.before[i].end < it.range.start)
  {
    var k := CountUpTo(rs, range.start);
    if k > 0 && rs[k - 1].end >= range.start {
      AroundIndex(rs, k - 1);
    } else {
      AroundIndex(rs, k);
      assert k > 0 ==> forall i :: 0 <= i < k - 1 ==> rs[i].end < rs[k - 1].start;
    }
  }

  /** Merging the predecessor leaves an iterator that is going. */
  lemma BeginGoing(rs: RangeSet, range: Range)
    requires Open(rs) && range.start <= range.end
    ensures Going(Begin(rs, range).(pred := None), range.start, range.end)
  {
    AroundIndex(rs, CountUpTo(rs, range.start));
  }

  lemma BeginTight(rs: RangeSet, range: Range)
    requires Clean(rs) && range.start <= range.end
    ensures Open(rs) && Tight(Begin(rs, range).after)
  {
  }

  /** A pending overlap begins the range and lies before every later entry. */
  lemma BeginPred(rs: RangeSet, range: Range)
    requires Sorted(rs) && range.start <= range.end && Begin(rs, range).pred.Some?
    ensures var it := Begin(rs, range);
            && range.start == it.pred.value.start < it.pred.value.end <= range.end
            && (it.after != [] ==> it.pred.value.end < it.after[0].start)
  {
    AroundIndex(rs, CountUpTo(rs, range.start));
  }

  /** The entries split around the predecessor. */
  lemma BeginSplits(rs: RangeSet, range: Range)
    requires Sorted(rs) && range.start <= range.end
    ensures var k := CountUpTo(rs, range.start);
            && Offsets(rs) == Offsets(rs[..k]) + Offsets(rs[k..])
            && (k > 0 ==> Offsets(rs[..k]) == Offsets(rs[..k - 1]) + Span(rs[k - 1]))
            && (k > 0 ==> Offsets(rs[..k - 1]) <= Span(Range(0, rs[k - 1].start)))
  {
    var k := CountUpTo(rs, range.start);
    assert rs == rs[..k] + rs[k..];
    OffsetsConcat(rs[..k], rs[k..]);
    if k > 0 {
      assert rs[..k] == rs[..k - 1] + [rs[k - 1]];
      OffsetsConcat(rs[..k - 1], [rs[k - 1]]);
      assert Offsets([rs[k - 1]]) == Span(rs[k - 1]);
      OffsetsBelow(rs[..k - 1], rs[k - 1].start);
    }
  }

  /** Merging the predecessor accounts for every offset. */
  lemma BeginOffsets(rs: RangeSet, range: Range)
    requires Sorted(rs) && range.start <= range.end
    ensures var it := Begin(rs, range);
            && Offsets(rs) + Span(range) == Offsets(it.before) + Span(it.range) + Offsets(it.after)
            && Span(range) * Offsets(rs)
               == (if it.pred.Some? then Span(it.pred.value) else {}) + Span(range) * Offsets(it.after)
  {
    BeginSplits(rs, range);
    var k := CountUpTo(rs, range.start);
    var it := Begin(rs, range);
    if k > 0 && rs[k - 1].end >= range.start {
      assert Span(it.range) == Span(range) + Span(rs[k - 1]);
      assert Span(range) * Offsets(it.before) == {};
    } else {
      assert Span(range) * Offsets(it.before) == {};
    }
  }

  /** On an open set `replace` yields exactly the overlaps. */
  lemma OverlapsExact(rs: RangeSet, range: Range)
    requires Open(rs) && range.start <= range.end
    ensures ExactOverlap(Overlaps(rs, range), rs, range)
  {
    hide Begin, Next, Drain, Going, Ascending, Offsets, Span, Open, Sorted;
    BeginGoing(rs, range);
    var it := Begin(rs, range);
    var it' := it.(pred := None);
    DrainAscends(it', range.start, range.end);
    DrainYields(it', range.start, range.end);
    assert Range(range.start, range.end) == range;
    assert Sorted(rs) by { OpenSorted(rs); }
    if it.pred.Some? {
      BeginPred(rs, range);
      DrainPending(it);
      AscendingCons(it.pred.value, Drain(it').0, range);
    } else {
      assert it == it';
    }
    BeginOffsets(rs, range);
  }

  lemma OpenSorted(rs: RangeSet)
    requires Open(rs)
    ensures Sorted(rs)
  {
  }

  /** A pending overlap is yielded first. */
  lemma DrainPending(it: Replace)
    requires it.pred.Some?
    ensures Drain(it).0 == [it.pred.value] + Drain(it.(pred := None)).0
  {
  }

  lemma AscendingCons(first: Range, ds: seq<Range>, range: Range)
    requires Ascending(ds, range) && range.start <= first.start < first.end <= range.end
    requires forall i :: 0 <= i < |ds| ==> first.end <= ds[i].start
    ensures Ascending([first] + ds, range) && Offsets([first] + ds) == Span(first) + Offsets(ds)
  {
    assert ([first] + ds)[1..] == ds;
  }

  /** Dropping the iterator after the loop changes nothing further. */
  lemma DrainTwice(it: Replace)
    requires it.pred.None? && (it.after != [] ==> it.after[0].start > it.range.end)
    ensures Drain(it).1 == it
  {
  }

  /** Whether the start of `range` lies inside or at the edge of an entry. */
  ghost predicate Touches(rs: RangeSet, range: Range) {
    exists i :: 0 <= i < |rs| && rs[i].start <= range.start <= rs[i].end
  }

  /** The set left behind by `replace` on a clean set. */
  lemma ReplacedIs(rs: RangeSet, range: Range) returns (last: Replace)
    requires Clean(rs) && range.start <= range.end
    ensures Replaced(rs, range) == last.before + [last.range] + last.after
    ensures Going(last, range.start, range.end) && Tight(last.after)
    ensures last.before == Begin(rs, range).before
    ensures last.range.start == Begin(rs, range).range.start
    ensures last.after != [] ==> last.after[0].start > last.range.end
    ensures last == Drain(Begin(rs, range)).1
    ensures Span(last.range) + Offsets(last.after)
         == Span(Begin(rs, range).range) + Offsets(Begin(rs, range).after)
  {
    BeginTight(rs, range);
    BeginGoing(rs, range);
    var it := Begin(rs, range);
    var it' := it.(pred := None);
    DrainMerges(it', range.start, range.end);
    assert Drain(it).1 == Drain(it').1;
    last := Drain(it').1;
    DrainTwice(last);
  }

  /** A completed merge put back between the untouched entries. */
  lemma JoinsSorted(rs: RangeSet, range: Range, last: Replace)
    requires Clean(rs) && range.start <= range.end && Going(last, range.start, range.end)
    requires last.before == Begin(rs, range).before && last.range.start == Begin(rs, range).range.start
    requires last.after != [] ==> last.after[0].start > last.range.end
    ensures Sorted(last.before + [last.range] + last.after)
  {
    hide Begin;
    BeginBefore(rs, range);
    SortedJoin(last.before, [last.range]);
    SortedJoin(last.before + [last.range], last.after);
  }

  lemma JoinsOffsets(rs: RangeSet, range: Range, last: Replace)
    requires Sorted(rs) && range.start <= range.end
    requires last.before == Begin(rs, range).before
    requires Span(last.range) + Offsets(last.after)
          == Span(Begin(rs, range).range) + Offsets(Begin(rs, range).after)
    ensures Offsets(last.before + [last.range] + last.after) == Offsets(rs) + Span(range)
  {
    hide Begin, Sorted;
    OffsetsConcat(last.before + [last.range], last.after);
    OffsetsConcat(last.before, [last.range]);
    assert Offsets([last.range]) == Span(last.range);
    BeginOffsets(rs, range);
  }

  /** On a clean set `replace` adds exactly the range. */
  lemma ReplacedUnion(rs: RangeSet, range: Range)
    requires Clean(rs) && range.start <= range.end
    ensures Sorted(Replaced(rs, range))
    ensures Offsets(Replaced(rs, range)) == Offsets(rs) + Span(range)
  {
    hide Begin, Sorted, Offsets, Going;
    var last := ReplacedIs(rs, range);
    JoinsSorted(rs, range, last);
    JoinsOffsets(rs, range, last);
  }

  /** `x` lies after every entry. */
  predicate Beyond(rs: RangeSet, x: nat) {
    rs == [] || rs[|rs| - 1].end < x
  }

  /** Adding `range` leaves no empty entry in front of another entry, unless at 0: neither `range` itself, nor
      an empty last entry behind it. */
  ghost predicate Harmless(rs: RangeSet, range: Range) {
    && (range.Empty() ==> range.start == 0 || Touches(rs, range) || Beyond(rs, range.start))
    && (Beyond(rs, range.start) && rs != [] && rs[|rs| - 1].Empty() ==> rs[|rs| - 1].start == 0)
  }

  /** The set stays clean exactly when the range is harmless. */
  lemma ReplacedClean(rs: RangeSet, range: Range)
    requires Clean(rs) && range.start <= range.end
    ensures Clean(Replaced(rs, range)) <==> Harmless(rs, range)
  {
    hide Begin, Drain, Sorted, Offsets, Going, Touches, Clean;
    var last := ReplacedIs(rs, range);
    ReplacedUnion(rs, range);
    CleanIff(rs, range, Replaced(rs, range), last);
    MergedEmpty(rs, range, last);
  }

  /** The merged range is empty only for an empty range that touches no entry, or an empty one. */
  lemma MergedEmpty(rs: RangeSet, range: Range, last: Replace)
    requires Clean(rs) && range.start <= range.end && last == Drain(Begin(rs, range)).1
    requires Going(last, range.start, range.end) && last.range.start == Begin(rs, range).range.start
    ensures (last.range.Empty() ==> last.range.start == 0 || last.after == [])
            <==> (range.Empty() ==> range.start == 0 || Touches(rs, range) || Beyond(rs, range.start))
  {
    TouchesPredecessor(rs, range);
    BeginKeeps(rs, range);
    if range.Empty() && !Touches(rs, range) {
      DrainTwice(Begin(rs, range));
    }
  }

  /** Only the merged entry can be a new empty entry, and only an empty last entry can be left behind. */
  lemma CleanIff(rs: RangeSet, range: Range, out: RangeSet, last: Replace)
    requires Clean(rs) && range.start <= range.end && Sorted(out) && out == last.before + [last.range] + last.after
    requires Going(last, range.start, range.end) && Tight(last.after) && last.before == Begin(rs, range).before
    ensures Clean(out) <==>
            && (last.range.Empty() ==> last.range.start == 0 || last.after == [])
            && (Beyond(rs, range.start) && rs != [] && rs[|rs| - 1].Empty() ==> rs[|rs| - 1].start == 0)
  {
    BeginBefore(rs, range);
    BeginKeeps(rs, range);
    hide Begin, Going;
    assert out[|last.before|] == last.range;
    if Beyond(rs, range.start) && rs != [] {
      assert out[|rs| - 1] == rs[|rs| - 1];
    }
  }

  /** The entries in front of the range stay as they are: all of them exactly when the range is beyond them. */
  lemma BeginKeeps(rs: RangeSet, range: Range)
    requires Sorted(rs) && range.start <= range.end
    ensures var it := Begin(rs, range);
            && |it.before| <= |rs| && it.before == rs[..|it.before|]
            && (it.before == rs <==> Beyond(rs, range.start))
            && (Beyond(rs, range.start) ==> it.after == [])
  {
    var k := CountUpTo(rs, range.start);
    if Beyond(rs, range.start) {
      assert k == |rs|;
      assert rs[..k] == rs && rs[k..] == [];
    }
  }

  /** Only the predecessor can be touched. */
  lemma TouchesPredecessor(rs: RangeSet, range: Range)
    requires Sorted(rs)
    ensures var k := CountUpTo(rs, range.start);
            Touches(rs, range) <==> k > 0 && rs[k - 1].end >= range.start
  {
    var k := CountUpTo(rs, range.start);
    forall i | 0 <= i < |rs| && rs[i].start <= range.start <= rs[i].end
      ensures k > 0 && rs[k - 1].end >= range.start
    {
    }
  }

  /** Empty entries are at 0 or at `top`. */
  ghost predicate EmptyAt(rs: RangeSet, top: nat) {
    forall i :: 0 <= i < |rs| && rs[i].Empty() ==> rs[i].start == 0 || rs[i].start == top
  }

  /** As long as nothing beyond `top` is added and empty ranges are added at 0 or `top` only, they are
      harmless: such is the end of a stream. */
  lemma EndHarmless(rs: RangeSet, range: Range, top: nat)
    requires Clean(rs) && EmptyAt(rs, top) && Offsets(rs) <= Span(Range(0, top))
    requires range.start <= range.end <= top && EmptyAt([range], top)
    ensures Harmless(rs, range) && EmptyAt(Replaced(rs, range), top)
  {
    ReplacedEmptyAt(rs, range, top);
    hide Replaced;
    assert [range][0] == range;
    if rs != [] {
      var last := rs[|rs| - 1];
      if !last.Empty() {
        OffsetsHas(rs, |rs| - 1, last.end - 1);
        assert last.end - 1 in Span(Range(0, top));
      }
      assert last.end <= top;
    }
  }

  lemma ReplacedEmptyAt(rs: RangeSet, range: Range, top: nat)
    requires Clean(rs) && EmptyAt(rs, top) && range.start <= range.end && EmptyAt([range], top)
    ensures EmptyAt(Replaced(rs, range), top)
  {
    hide Begin, Replaced, Drain, Offsets, Sorted, Clean, EmptyAt;
    var last := ReplacedIs(rs, range);
    BeginEmptyAt(rs, range, top);
    DrainEmptyAt(Begin(rs, range), top);
    MergedEmptyAt(range, last.range, top);
    EmptyAtConcat(last.before, [last.range], top);
    EmptyAtConcat(last.before + [last.range], last.after, top);
  }

  lemma BeginEmptyAt(rs: RangeSet, range: Range, top: nat)
    requires EmptyAt(rs, top) && range.start <= range.end
    ensures EmptyAt(Begin(rs, range).before, top) && EmptyAt(Begin(rs, range).after, top)
  {
  }

  lemma {:induction false} DrainEmptyAt(it: Replace, top: nat)
    requires EmptyAt(it.after, top)
    ensures EmptyAt(Drain(it).1.after, top)
    decreases |it.after| + if it.pred.Some? then 1 else 0
  {
    var (item, it') := Next(it);
    if item.Some? {
      DrainEmptyAt(it', top);
    }
  }

  /** A merged range is empty only if the added range is. */
  lemma MergedEmptyAt(range: Range, merged: Range, top: nat)
    requires EmptyAt([range], top) && merged.start <= range.start <= range.end <= merged.end
    ensures EmptyAt([merged], top)
  {
    assert [range][0] == range;
  }

  lemma EmptyAtConcat(a: RangeSet, b: RangeSet, top: nat)
    requires EmptyAt(a, top) && EmptyAt(b, top)
    ensures EmptyAt(a + b, top)
  {
  }

  /** No entry is empty. */
  ghost predicate Solid(rs: RangeSet) {
    Sorted(rs) && forall i :: 0 <= i < |rs| ==> !rs[i].Empty()
  }

  lemma BeginSolid(rs: RangeSet, range: Range)
    requires Solid(rs) && range.start <= range.end
    ensures var it := Begin(rs, range);
            && (forall i :: 0 <= i < |it.before| ==> !it.before[i].Empty())
            && (forall i :: 0 <= i < |it.after| ==> !it.after[i].Empty())
  {
  }

  /** `insert`: add a range, merging every entry it reaches. Nothing empty is ever added. */
  method Insert(rs: RangeSet, x: Range) returns (out: RangeSet)
    requires Clean(rs) && x.start <= x.end
    ensures Sorted(out) && Offsets(out) == Offsets(rs) + Span(x)
    ensures Clean(out) <==> x.Empty() || Harmless(rs, x)
    ensures Solid(rs) ==> Solid(out)
  {
    hide CountUpTo, Drain, Begin;
    if x.Empty() {
      assert Span(x) == {};
      return rs;
    }
    var k := CountUpTo(rs, x.start);
    if k > 0 && rs[k - 1].end >= x.end {
      BeginSplits(rs, x);
      assert Span(x) <= Span(rs[k - 1]);
      return rs;
    }
    var it := Begin(rs, x).(pred := None);
    BeginTight(rs, x);
    BeginGoing(rs, x);
    if Solid(rs) {
      BeginSolid(rs, x);
    }
    while it.after != [] && it.after[0].start <= it.range.end
      invariant Going(it, x.start, x.end) && Tight(it.after)
      invariant it.before == Begin(rs, x).before && it.range.start == Begin(rs, x).range.start
      invariant Span(it.range) + Offsets(it.after)
             == Span(Begin(rs, x).range) + Offsets(Begin(rs, x).after)
      invariant Solid(rs) ==> forall i :: 0 <= i < |it.after| ==> !it.after[i].Empty()
      decreases |it.after|
    {
      StepClean(it, x.start, x.end);
      it := Next(it).1;
    }
    out := it.before + [it.range] + it.after;
    JoinsSorted(rs, x, it);
    JoinsOffsets(rs, x, it);
    CleanIff(rs, x, out, it);
  }

  // ---------------------------------------------------------------------------------------------
  // The failing case: an isolated empty entry hides later overlaps

  /** An empty entry between the start of `range` and an overlap makes the loop stop at once. */
  lemma HiddenOverlap(rs: RangeSet, e: nat, i: nat, hi: nat)
    requires i < |rs| && rs[i] == Range(e, e) && 0 < e < hi
    requires forall j :: 0 <= j < i ==> rs[j].start <= rs[j].end < e
    ensures Overlaps(rs, Range(e - 1, hi)) == []
  {
    CountUpToIs(rs, e - 1, i);
    assert rs[i..][0] == Range(e, e);
  }

  /** Every overlap of every range is found if and only if the set is open. */
  lemma AllFoundIff(rs: RangeSet)
    requires Sorted(rs)
    ensures Open(rs) <==> forall range: Range :: range.start <= range.end ==> ExactOverlap(Overlaps(rs, range), rs, range)
  {
    hide Overlaps, ExactOverlap, Sorted;
    if Open(rs) {
      forall range: Range | range.start <= range.end
        ensures ExactOverlap(Overlaps(rs, range), rs, range)
      {
        OverlapsExact(rs, range);
      }
    } else {
      var i, j :| 0 <= i < j < |rs| && rs[i].Empty() && rs[i].start > 0 && !rs[j].Empty();
      EmptyEntryHides(rs, i, j);
    }
  }

  /** An empty entry hides every later one. */
  lemma EmptyEntryHides(rs: RangeSet, i: nat, j: nat)
    requires Sorted(rs) && i < j < |rs| && rs[i].Empty() && rs[i].start > 0 && !rs[j].Empty()
    ensures var range := Range(rs[i].start - 1, rs[j].start + 1);
            range.start <= range.end && !ExactOverlap(Overlaps(rs, range), rs, range)
  {
    hide Overlaps;
    var range := Range(rs[i].start - 1, rs[j].start + 1);
    HiddenOverlap(rs, rs[i].start, i, range.end);
    OffsetsHas(rs, j, rs[j].start);
    assert rs[j].start in Span(range) * Offsets(rs);
  }

  lemma {:induction false} OffsetsHas(rs: RangeSet, j: nat, x: nat)
    requires j < |rs| && rs[j].Has(x)
    ensures x in Offsets(rs)
  {
    if j > 0 {
      OffsetsHas(rs[1..], j - 1, x);
    }
  }

  /** An isolated empty range becomes an entry of its own. */
  lemma EmptyRangeStays(rs: RangeSet, e: nat) returns (k: nat)
    requires Clean(rs) && e > 0 && !Touches(rs, Range(e, e))
    ensures k <= |rs| && Replaced(rs, Range(e, e)) == rs[..k] + [Range(e, e)] + rs[k..]
    ensures forall i :: 0 <= i < k ==> rs[i].end < e
    ensures k < |rs| ==> rs[k].start > e
  {
    k := CountUpTo(rs, e);
    TouchesPredecessor(rs, Range(e, e));
    assert k > 0 ==> forall i :: 0 <= i < k - 1 ==> rs[i].end < rs[k - 1].start;
    var it := Begin(rs, Range(e, e));
    DrainTwice(it);
  }

  /** A byte beyond every entry is appended. */
  lemma LaterByteAppended(rs: RangeSet, p: nat)
    requires forall i :: 0 <= i < |rs| ==> rs[i].start <= rs[i].end < p
    ensures Overlaps(rs, Range(p, p + 1)) == []
    ensures Replaced(rs, Range(p, p + 1)) == rs + [Range(p, p + 1)]
  {
    CountUpToIs(rs, p, |rs|);
    var it := Begin(rs, Range(p, p + 1));
    DrainTwice(it);
  }

  /** A stored empty entry hides every byte beyond it. */
  lemma EmptyEntryHidesByte(rs: RangeSet, k: nat, e: nat, p: nat)
    requires k < |rs| && rs[k] == Range(e, e) && 0 < e < p
    requires forall i :: 0 <= i < |rs| ==> rs[i].start <= rs[i].end < p
    requires forall i :: 0 <= i < k ==> rs[i].end < e
    ensures var rs' := Replaced(rs, Range(p, p + 1));
            && p in Offsets(rs') * Span(Range(e - 1, p + 1))
            && Overlaps(rs', Range(e - 1, p + 1)) == []
  {
    hide Overlaps, Replaced;
    LaterByteAppended(rs, p);
    var rs' := rs + [Range(p, p + 1)];
    HiddenOverlap(rs', e, k, p + 1);
    OffsetsConcat(rs, [Range(p, p + 1)]);
    assert Offsets([Range(p, p + 1)]) == Span(Range(p, p + 1));
    assert p in Span(Range(p, p + 1));
  }

  /** From a clean set, an empty range that touches nothing can be followed by any later byte and then by a
      range whose overlap with that byte is not reported. */
  lemma EmptyRangeHidesByte(rs: RangeSet, e: nat, p: nat)
    requires Clean(rs) && e > 0 && !Touches(rs, Range(e, e))
    requires e < p && forall i :: 0 <= i < |rs| ==> rs[i].end < p
    ensures var rs1 := Replaced(rs, Range(e, e));
            var rs2 := Replaced(rs1, Range(p, p + 1));
            && p in Offsets(rs2) * Span(Range(e - 1, p + 1))
            && Overlaps(rs2, Range(e - 1, p + 1)) == []
  {
    hide Overlaps, Replaced, Offsets;
    var k := EmptyRangeStays(rs, e);
    EmptyEntryHidesByte(rs[..k] + [Range(e, e)] + rs[k..], k, e, p);
  }
}
