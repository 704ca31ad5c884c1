/** The heap entries of stream reassembly: ordering, coverage and defragmentation. */
module Buffers {
  import opened Basics
  import opened RangeSets

  /** A run of stream bytes at an offset, with the size of the allocation that keeps it alive. */
  datatype Buffer = Buffer(offset: nat, bytes: seq<byte>, allocation: nat, defragmented: bool) {
    function End(): nat { offset + |bytes| }

    ghost function Covers(): set<nat> { Span(Range(offset, End())) }

    /** Heap order: smaller offset first, then the longer buffer. */
    predicate Precedes(other: Buffer) {
      offset < other.offset || (offset == other.offset && |bytes| >= |other.bytes|)
    }

    /** `try_mark_defragment`: drop the bytes before `from` and flag good utilisation. */
    function Trim(from: nat): (b: Buffer) {
      var duplicate := if from > offset then from - offset else 0;
      if duplicate >= |bytes| then
        Buffer(Max(offset, from), [], 0, true)
      else
        var rest := bytes[duplicate..];
        var good := defragmented || |rest| * 6 / 5 >= allocation;
        Buffer(Max(offset, from), rest, if good then |rest| else allocation, good)
    }

    /** Drop the first `n` bytes. */
    function Advance(n: nat): (b: Buffer)
      requires n <= |bytes|
    {
      this.(offset := offset + n, bytes := bytes[n..])
    }

    /** Every byte is the one recorded for its offset. */
    ghost predicate Agrees(m: map<nat, byte>) {
      forall x: nat :: offset <= x < End() ==> x in m && m[x] == bytes[x - offset]
    }

    /** A buffer as it may sit in the heap. */
    ghost predicate Sound(m: map<nat, byte>) {
      0 < |bytes| <= allocation && Agrees(m)
    }
  }

  function LenSum(bs: seq<Buffer>): nat {
    if bs == [] then 0 else |bs[0].bytes| + LenSum(bs[1..])
  }

  function AllocationSum(bs: seq<Buffer>): nat {
    if bs == [] then 0 else bs[0].allocation + AllocationSum(bs[1..])
  }

  /** The offsets held by some buffer. */
  ghost function Covered(bs: seq<Buffer>): set<nat> {
    if bs == [] then {} else bs[0].Covers() + Covered(bs[1..])
  }

  ghost predicate AllSound(bs: seq<Buffer>, m: map<nat, byte>) {
    forall i :: 0 <= i < |bs| ==> bs[i].Sound(m)
  }

  /** No offset is held twice. */
  ghost predicate Disjoint(bs: seq<Buffer>) {
    forall i, j :: 0 <= i < j < |bs| ==> bs[i].Covers() !! bs[j].Covers()
  }

  /** In ascending offset order, longer first on a tie. */
  ghost predicate InHeapOrder(bs: seq<Buffer>) {
    forall i, j :: 0 <= i < j < |bs| ==> bs[i].Precedes(bs[j])
  }

  // ---------------------------------------------------------------------------------------------
  // Sums and coverage

  lemma {:induction false} Concat(a: seq<Buffer>, b: seq<Buffer>)
    ensures LenSum(a + b) == LenSum(a) + LenSum(b)
    ensures AllocationSum(a + b) == AllocationSum(a) + AllocationSum(b)
    ensures Covered(a + b) == Covered(a) + Covered(b)
  {
    if a == [] {
      assert a + b == b;
    } else {
      assert (a + b)[1..] == a[1..] + b;
      Concat(a[1..], b);
    }
  }

  lemma Nothing()
    ensures LenSum([]) == AllocationSum([]) == 0 && Covered([]) == {}
  {
  }

  lemma Single(b: Buffer)
    ensures LenSum([b]) == |b.bytes| && AllocationSum([b]) == b.allocation
    ensures Covered([b]) == b.Covers()
  {
  }

  lemma Append(a: seq<Buffer>, b: Buffer)
    ensures LenSum(a + [b]) == LenSum(a) + |b.bytes|
    ensures AllocationSum(a + [b]) == AllocationSum(a) + b.allocation
    ensures Covered(a + [b]) == Covered(a) + b.Covers()
  {
    Concat(a, [b]);
    Single(b);
  }

  /** Taking one buffer out of the heap. */
  lemma Without(bs: seq<Buffer>, i: nat)
    requires i < |bs|
    ensures var rest := bs[..i] + bs[i + 1..];
            && LenSum(bs) == LenSum(rest) + |bs[i].bytes|
            && AllocationSum(bs) == AllocationSum(rest) + bs[i].allocation
            && Covered(bs) == Covered(rest) + bs[i].Covers()
  {
    assert bs == (bs[..i] + [bs[i]]) + bs[i + 1..];
    Concat(bs[..i] + [bs[i]], bs[i + 1..]);
    Append(bs[..i], bs[i]);
    Concat(bs[..i], bs[i + 1..]);
  }

  /** Replacing one buffer in the heap. */
  lemma Update(bs: seq<Buffer>, i: nat, b: Buffer)
    requires i < |bs|
    ensures LenSum(bs[i := b]) == LenSum(bs) - |bs[i].bytes| + |b.bytes|
    ensures AllocationSum(bs[i := b]) == AllocationSum(bs) - bs[i].allocation + b.allocation
    ensures Covered(bs[i := b]) == Covered(bs[..i] + bs[i + 1..]) + b.Covers()
  {
    Without(bs, i);
    Without(bs[i := b], i);
    assert bs[i := b][..i] + bs[i := b][i + 1..] == bs[..i] + bs[i + 1..];
  }

  lemma {:induction false} CoveredHas(bs: seq<Buffer>, x: nat)
    ensures x in Covered(bs) <==> exists i :: 0 <= i < |bs| && x in bs[i].Covers()
  {
    if bs != [] {
      CoveredHas(bs[1..], x);
      if x in Covered(bs[1..]) {
        var i :| 0 <= i < |bs[1..]| && x in bs[1..][i].Covers();
        assert x in bs[i + 1].Covers();
      }
      if exists i :: 0 <= i < |bs| && x in bs[i].Covers() {
        var i :| 0 <= i < |bs| && x in bs[i].Covers();
        assert i == 0 || x in bs[1..][i - 1].Covers();
      }
    }
  }

  /** Coverage does not depend on the order of the heap. */
  lemma CoveredSame(a: seq<Buffer>, b: seq<Buffer>)
    requires multiset(a) == multiset(b)
    ensures Covered(a) == Covered(b)
  {
    forall x: nat ensures x in Covered(a) <==> x in Covered(b) {
      CoveredHas(a, x);
      CoveredHas(b, x);
      if x in Covered(a) {
        var i :| 0 <= i < |a| && x in a[i].Covers();
        assert a[i] in multiset(b);
      }
      if x in Covered(b) {
        var i :| 0 <= i < |b| && x in b[i].Covers();
        assert b[i] in multiset(a);
      }
    }
  }

  /** Disjoint buffers hold as many offsets as bytes. */
  lemma {:induction false} DisjointSize(bs: seq<Buffer>)
    requires Disjoint(bs)
    ensures |Covered(bs)| == LenSum(bs)
  {
    if bs != [] {
      DisjointSize(bs[1..]);
      SpanSize(bs[0].offset, bs[0].End());
      forall x | x in bs[0].Covers() ensures x !in Covered(bs[1..]) {
        CoveredHas(bs[1..], x);
      }
    }
  }

  /** A sound heap only covers recorded offsets. */
  lemma {:induction false} CoveredRecorded(bs: seq<Buffer>, m: map<nat, byte>)
    requires AllSound(bs, m)
    ensures Covered(bs) <= m.Keys
  {
    if bs != [] {
      CoveredRecorded(bs[1..], m);
      forall x | x in bs[0].Covers() ensures x in m {
        assert bs[0].bytes[x - bs[0].offset] == m[x];
      }
    }
  }

  lemma {:induction false} LenBelowAllocation(bs: seq<Buffer>, m: map<nat, byte>)
    requires AllSound(bs, m)
    ensures LenSum(bs) <= AllocationSum(bs)
  {
    if bs != [] {
      LenBelowAllocation(bs[1..], m);
    }
  }

  /** Reading the first `n` bytes of one buffer. */
  lemma AdvanceOne(bs: seq<Buffer>, i: nat, n: nat, m: map<nat, byte>)
    requires i < |bs| && n < |bs[i].bytes| && AllSound(bs, m)
    ensures var bs' := bs[i := bs[i].Advance(n)];
            && AllSound(bs', m)
            && LenSum(bs') == LenSum(bs) - n
            && AllocationSum(bs') == AllocationSum(bs)
            && Covered(bs') + Span(Range(bs[i].offset, bs[i].offset + n)) == Covered(bs)
  {
    hide LenSum, AllocationSum, Covered, Buffer.Sound, Buffer.Covers, Span;
    var b := bs[i].Advance(n);
    Update(bs, i, b);
    Without(bs, i);
    AdvanceBuffer(bs[i], n, m);
  }

  lemma AdvanceBuffer(b: Buffer, n: nat, m: map<nat, byte>)
    requires n < |b.bytes| && b.Sound(m)
    ensures b.Advance(n).Sound(m)
    ensures b.Covers() == b.Advance(n).Covers() + Span(Range(b.offset, b.offset + n))
  {
  }

  /** The bytes read are then held by no buffer. */
  lemma AdvanceDisjoint(bs: seq<Buffer>, i: nat, n: nat)
    requires i < |bs| && n < |bs[i].bytes| && Disjoint(bs)
    ensures var bs' := bs[i := bs[i].Advance(n)];
            Disjoint(bs') && Covered(bs') !! Span(Range(bs[i].offset, bs[i].offset + n))
  {
    var b := bs[i].Advance(n);
    DisjointWithout(bs, i);
    Update(bs, i, b);
    assert b.Covers() <= bs[i].Covers();
    assert Span(Range(bs[i].offset, bs[i].offset + n)) <= bs[i].Covers();
  }

  /** Taking one buffer out keeps the rest disjoint from it. */
  lemma DisjointWithout(bs: seq<Buffer>, i: nat)
    requires i < |bs| && Disjoint(bs)
    ensures Disjoint(bs[..i] + bs[i + 1..])
    ensures Covered(bs[..i] + bs[i + 1..]) !! bs[i].Covers()
  {
    var rest := bs[..i] + bs[i + 1..];
    forall x | x in bs[i].Covers() ensures x !in Covered(rest) {
      CoveredHas(rest, x);
      assert forall j :: 0 <= j < |rest| ==> rest[j] == bs[if j < i then j else j + 1];
    }
  }

  // ---------------------------------------------------------------------------------------------
  // The heap operations used by reassembly

  /** `peek`: the position of a buffer that precedes every other. */
  method Peek(bs: seq<Buffer>) returns (top: nat)
    requires bs != []
    ensures top < |bs|
    ensures forall i :: 0 <= i < |bs| ==> bs[top].Precedes(bs[i])
  {
    top := 0;
    for k := 1 to |bs|
      invariant top < |bs|
      invariant forall i :: 0 <= i < k ==> bs[top].Precedes(bs[i])
    {
      if !bs[top].Precedes(bs[k]) {
        top := k;
      }
    }
  }

  /** `into_sorted_vec().rev()`: the heap in ascending offset order. */
  method IntoSorted(bs: seq<Buffer>) returns (sorted: seq<Buffer>)
    ensures multiset(sorted) == multiset(bs)
    ensures InHeapOrder(sorted)
  {
    sorted := [];
    var rest := bs;
    while rest != []
      invariant multiset(sorted) + multiset(rest) == multiset(bs)
      invariant InHeapOrder(sorted)
      invariant forall i, j :: 0 <= i < |sorted| && 0 <= j < |rest| ==> sorted[i].Precedes(rest[j])
      decreases |rest|
    {
      var top := Peek(rest);
      assert rest == rest[..top] + [rest[top]] + rest[top + 1..];
      sorted := sorted + [rest[top]];
      rest := rest[..top] + rest[top + 1..];
    }
  }

  // ---------------------------------------------------------------------------------------------
  // Defragmentation

  /** Buffers after trimming: ascending without overlap, an emptied buffer is flagged, and a flagged
      one does not count as over-allocated. */
  ghost predicate Trimmed(t: seq<Buffer>, m: map<nat, byte>) {
    && (forall i :: 0 <= i < |t| ==>
          && t[i].Agrees(m)
          && (t[i].bytes == [] ==> t[i].defragmented)
          && (t[i].defragmented ==> t[i].allocation == |t[i].bytes|))
    && (forall i, j :: 0 <= i < j < |t| ==> t[i].End() <= t[j].offset)
  }

  /** Trimming a buffer against the end of what was kept so far loses nothing, provided everything
      from the buffer's offset up to that end is already covered. */
  lemma TrimStep(kept: set<nat>, b: Buffer, from: nat, m: map<nat, byte>)
    requires b.Sound(m)
    requires forall x: nat :: b.offset <= x < from ==> x in kept
    ensures var t := b.Trim(from);
            && kept + t.Covers() == kept + b.Covers()
            && t.Agrees(m)
            && from <= t.offset && b.offset <= t.offset
            && t.End() == Max(from, b.End())
            && (t.bytes == [] ==> t.defragmented)
            && (t.defragmented ==> t.allocation == |t.bytes|)
  {
    var t := b.Trim(from);
    assert t.offset == Max(b.offset, from);
  }

  /** First pass of `defragment`: drop duplicate bytes, in heap order, and count what is left. */
  method TrimAll(sorted: seq<Buffer>, ghost m: map<nat, byte>) returns (t: seq<Buffer>, buffered: nat)
    requires InHeapOrder(sorted) && AllSound(sorted, m)
    ensures Trimmed(t, m) && Covered(t) == Covered(sorted) && buffered == LenSum(t)
  {
    hide LenSum, AllocationSum, Buffer.Trim;
    Nothing();
    t, buffered := [], 0;
    var from := 0;
    for k := 0 to |sorted|
      invariant Trimmed(t, m)
      invariant Covered(t) == Covered(sorted[..k]) && buffered == LenSum(t)
      invariant forall i :: 0 <= i < |t| ==> t[i].End() <= from
      invariant from > 0 ==> k > 0
      invariant k > 0 ==> forall x: nat :: sorted[k - 1].offset <= x < from ==> x in Covered(t)
    {
      var b := sorted[k];
      assert k > 0 ==> sorted[k - 1].Precedes(b);
      TrimStep(Covered(t), b, from, m);
      var trimmed := b.Trim(from);
      Append(t, trimmed);
      assert sorted[..k + 1] == sorted[..k] + [b];
      Append(sorted[..k], b);
      assert forall x: nat :: b.offset <= x < trimmed.End() ==> x in Covered(t) + b.Covers();
      t := t + [trimmed];
      from := trimmed.End();
      buffered := buffered + |trimmed.bytes|;
    }
    assert sorted[..|sorted|] == sorted;
  }

  /** A merged run ready to be stored. */
  function Run(offset: nat, bytes: seq<byte>): Buffer {
    Buffer(offset, bytes, |bytes|, true)
  }

  /** Invariant of the second pass: `out` and the run being collected hold exactly `done`, without
      overlap and without over-allocation, and lie below `limit`. */
  ghost predicate Merging(out: seq<Buffer>, run: Buffer, done: seq<Buffer>, limit: nat, m: map<nat, byte>) {
    && AllSound(out, m) && run.Agrees(m)
    && Disjoint(out)
    && (forall i :: 0 <= i < |out| ==> out[i].End() <= limit && out[i].Covers() !! run.Covers())
    && (run.bytes != [] ==> run.End() <= limit)
    && Covered(out) + run.Covers() == Covered(done)
    && LenSum(out) + |run.bytes| == LenSum(done)
    && AllocationSum(out) == LenSum(out)
  }

  /** Storing the run. */
  lemma FlushRun(out: seq<Buffer>, run: Buffer, done: seq<Buffer>, limit: nat, m: map<nat, byte>)
    requires Merging(out, run, done, limit, m) && run.bytes != [] && run.allocation == |run.bytes|
    ensures Merging(out + [run], Run(limit, []), done, limit, m)
  {
    Append(out, run);
  }

  /** Storing a buffer that is already compact. */
  lemma StoreFlagged(out: seq<Buffer>, run: Buffer, done: seq<Buffer>, b: Buffer, m: map<nat, byte>)
    requires Merging(out, run, done, b.offset, m)
    requires b.Sound(m) && b.allocation == |b.bytes|
    ensures Merging(out + [b], run, done + [b], b.End(), m)
  {
    Append(out, b);
    Append(done, b);
  }

  /** Extending the run by the buffer that follows it. */
  lemma ExtendRun(out: seq<Buffer>, offset: nat, bytes: seq<byte>, done: seq<Buffer>, b: Buffer, m: map<nat, byte>)
    requires Merging(out, Run(offset, bytes), done, b.offset, m)
    requires b.Agrees(m) && b.offset == offset + |bytes|
    ensures Merging(out, Run(offset, bytes + b.bytes), done + [b], b.End(), m)
  {
    Append(done, b);
    var run := Run(offset, bytes + b.bytes);
    assert run.Covers() == Run(offset, bytes).Covers() + b.Covers();
    assert forall i :: 0 <= i < |out| ==> out[i].Covers() !! b.Covers();
  }

  /** Second pass of `defragment`: keep flagged buffers and copy contiguous others together. */
  method MergeRuns(t: seq<Buffer>, ghost m: map<nat, byte>) returns (out: seq<Buffer>)
    requires Trimmed(t, m)
    ensures AllSound(out, m) && Disjoint(out) && Covered(out) == Covered(t)
    ensures LenSum(out) == AllocationSum(out) == LenSum(t)
  {
    out := [];
    var bytes: seq<byte>, offset: nat := [], 0;
    ghost var limit: nat := 0;
    for k := 0 to |t|
      invariant Merging(out, Run(offset, bytes), t[..k], limit, m)
      invariant forall j :: k <= j < |t| ==> limit <= t[j].offset
    {
      var b := t[k];
      assert t[..k + 1] == t[..k] + [b];
      RaiseLimit(out, Run(offset, bytes), t[..k], limit, b.offset, m);
      limit := b.End();
      if b.defragmented {
        if b.bytes != [] {
          StoreFlagged(out, Run(offset, bytes), t[..k], b, m);
          out := out + [b];
        } else {
          SkipEmpty(out, Run(offset, bytes), t[..k], b, m);
        }
        continue;
      }
      if b.offset != offset + |bytes| {
        if bytes != [] {
          FlushRun(out, Run(offset, bytes), t[..k], b.offset, m);
          out := out + [Run(offset, bytes)];
          bytes := [];
        }
        offset := b.offset;
      }
      ExtendRun(out, offset, bytes, t[..k], b, m);
      bytes := bytes + b.bytes;
    }
    assert t[..|t|] == t;
    if bytes != [] {
      FlushRun(out, Run(offset, bytes), t, limit, m);
      out := out + [Run(offset, bytes)];
    }
  }

  lemma RaiseLimit(out: seq<Buffer>, run: Buffer, done: seq<Buffer>, limit: nat, limit': nat, m: map<nat, byte>)
    requires Merging(out, run, done, limit, m) && limit <= limit'
    ensures Merging(out, run, done, limit', m)
  {
  }

  lemma SkipEmpty(out: seq<Buffer>, run: Buffer, done: seq<Buffer>, b: Buffer, m: map<nat, byte>)
    requires Merging(out, run, done, b.offset, m) && b.bytes == []
    ensures Merging(out, run, done + [b], b.End(), m)
  {
    Append(done, b);
  }

  /** `defragment`: the same offsets, held once each, in compact buffers. */
  method Compact(bs: seq<Buffer>, ghost m: map<nat, byte>) returns (out: seq<Buffer>, buffered: nat)
    requires AllSound(bs, m)
    ensures AllSound(out, m) && Disjoint(out)
    ensures Covered(out) == Covered(bs)
    ensures LenSum(out) == AllocationSum(out) == buffered
  {
    var sorted := IntoSorted(bs);
    CoveredSame(bs, sorted);
    forall i | 0 <= i < |sorted| ensures sorted[i].Sound(m) {
      assert sorted[i] in multiset(bs);
    }
    var t;
    t, buffered := TrimAll(sorted, m);
    out := MergeRuns(t, m);
  }
}
