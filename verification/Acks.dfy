/** ACK ranges on the wire: the encoder, the scanner that validates them, and the iterator that reads
    them without further checks (section 19.3 of RFC 9000). */
module Acks {
  import opened Basics
  import opened RangeSets
  import opened Wire

  datatype Error = UnexpectedEnd | InvalidFrameId | Malformed | EmptyPayload

  /** An inclusive range of acknowledged packet numbers. */
  datatype Block = Block(low: nat, high: nat)

  /** Received packet numbers as the encoder sees them: ascending, separated, non-empty ranges. */
  ghost predicate Encodable(ranges: seq<Range>) {
    && (forall i :: 0 <= i < |ranges| ==> ranges[i].start < ranges[i].end <= VARINT_END)
    && (forall i, j :: 0 <= i < j < |ranges| ==> ranges[i].end < ranges[j].start)
  }

  /** The first `n` ranges as inclusive blocks, from the highest down. */
  function Blocks(ranges: seq<Range>, n: nat): (bs: seq<Block>)
    requires n <= |ranges| && forall i :: 0 <= i < n ==> ranges[i].start < ranges[i].end
    ensures |bs| == n && forall i :: 0 <= i < n ==> bs[i] == Block(ranges[n - 1 - i].start, ranges[n - 1 - i].end - 1)
  {
    if n == 0 then [] else [Block(ranges[n - 1].start, ranges[n - 1].end - 1)] + Blocks(ranges, n - 1)
  }

  /** Strictly descending blocks with a gap between each two, from `largest` down. */
  ghost predicate Descending(bs: seq<Block>, largest: nat) {
    && (forall i :: 0 <= i < |bs| ==> bs[i].low <= bs[i].high <= largest)
    && (forall i, j :: 0 <= i < j < |bs| ==> bs[j].high + 2 <= bs[i].low)
  }

  /** What the encoder writes for the ranges up to the `k`-th: its size, then a gap and the size of the
      range below, and so on down. */
  function RangeBytes(ranges: seq<Range>, k: nat): seq<byte>
    requires k < |ranges| && Encodable(ranges)
  {
    PutVar(ranges[k].end - ranges[k].start - 1)
    + if k == 0 then [] else PutVar(ranges[k].start - ranges[k - 1].end - 1) + RangeBytes(ranges, k - 1)
  }

  /** The loop of `Ack::encode`. */
  method EncodeRanges(ranges: seq<Range>) returns (bytes: seq<byte>)
    requires ranges != [] && Encodable(ranges)
    ensures bytes == RangeBytes(ranges, |ranges| - 1)
  {
    hide PutVar, VarSize;
    var k := |ranges| - 1;
    bytes := PutVar(ranges[k].end - ranges[k].start - 1);
    var prev := ranges[k].start;
    ghost var done: seq<byte> := [];
    while k > 0
      invariant 0 <= k < |ranges| && prev == ranges[k].start
      invariant bytes == done + PutVar(ranges[k].end - ranges[k].start - 1)
      invariant RangeBytes(ranges, |ranges| - 1) == done + RangeBytes(ranges, k)
    {
      var block := ranges[k - 1];
      ghost var next := bytes + PutVar(prev - block.end - 1);
      assert done + RangeBytes(ranges, k) == next + RangeBytes(ranges, k - 1);
      bytes := bytes + PutVar(prev - block.end - 1) + PutVar(block.end - block.start - 1);
      prev := block.start;
      done := next;
      k := k - 1;
    }
    assert RangeBytes(ranges, 0) == PutVar(ranges[0].end - ranges[0].start - 1);
  }

  /** `scan_ack_blocks`: what follows `n + 1` valid blocks counted down from `largest`. */
  function Scan(bytes: seq<byte>, largest: nat, n: nat): (r: Result<seq<byte>, Error>)
    ensures r.Ok? ==> |r.value| < |bytes|
    decreases n
  {
    var first := GetVar(bytes);
    if first.None? then Err(UnexpectedEnd)
    else if first.value.0 > largest then Err(Malformed)
    else if n == 0 then Ok(first.value.1)
    else
      var smallest := largest - first.value.0;
      var gap := GetVar(first.value.1);
      if gap.None? then Err(UnexpectedEnd)
      else if gap.value.0 + 2 > smallest then Err(Malformed)
      else Scan(gap.value.1, smallest - (gap.value.0 + 2), n - 1)
  }

  /** The scanner as a loop over a running minimum; it returns how many bytes the blocks cover. */
  method ScanAckBlocks(bytes: seq<byte>, largest: nat, n: nat) returns (r: Result<nat, Error>)
    ensures var s := Scan(bytes, largest, n);
            r == if s.Ok? then Ok(|bytes| - |s.value|) else Err(s.error)
  {
    hide GetVar;
    var first := GetVar(bytes);
    if first.None? {
      return Err(UnexpectedEnd);
    }
    if first.value.0 > largest {
      return Err(Malformed);
    }
    var smallest := largest - first.value.0;
    var rest := first.value.1;
    var k := n;
    while k > 0
      invariant 0 <= k <= n && 0 <= smallest
      invariant Scan(bytes, largest, n) == ScanRest(rest, smallest, k)
    {
      var gap := GetVar(rest);
      if gap.None? {
        return Err(UnexpectedEnd);
      }
      if gap.value.0 + 2 > smallest {
        return Err(Malformed);
      }
      smallest := smallest - (gap.value.0 + 2);
      var block := GetVar(gap.value.1);
      if block.None? {
        return Err(UnexpectedEnd);
      }
      if block.value.0 > smallest {
        return Err(Malformed);
      }
      smallest := smallest - block.value.0;
      rest := block.value.1;
      k := k - 1;
    }
    return Ok(|bytes| - |rest|);
  }

  /** Scanning from after a block that reaches down to `smallest`. */
  function ScanRest(rest: seq<byte>, smallest: nat, n: nat): Result<seq<byte>, Error> {
    if n == 0 then Ok(rest) else
      var gap := GetVar(rest);
      if gap.None? then Err(UnexpectedEnd)
      else if gap.value.0 + 2 > smallest then Err(Malformed)
      else Scan(gap.value.1, smallest - (gap.value.0 + 2), n - 1)
  }

  /** `AckIter`: all blocks it yields, or `None` if it would panic on a missing value or an underflow. */
  function Iterate(largest: nat, data: seq<byte>): Option<seq<Block>>
    decreases |data|
  {
    if data == [] then Some([]) else
      var first := GetVar(data);
      if first.None? || first.value.0 > largest then None else
        var (block, after) := first.value;
        var gap := GetVar(after);
        if gap.Some? && block + gap.value.0 + 2 > largest then None else
          var rest :=
            if gap.Some? then Iterate(largest - (block + gap.value.0 + 2), gap.value.1)
            else Iterate(largest, if after == [] then [] else after[1..]);
          if rest.None? then None else Some([Block(largest - block, largest)] + rest.value)
  }

  // ---------------------------------------------------------------------------------------------

  /** A value is read the same way from any prefix that contains it. */
  lemma GetVarPrefix(bytes: seq<byte>, k: nat)
    requires GetVar(bytes).Some? && |bytes| - |GetVar(bytes).value.1| <= k <= |bytes|
    ensures var (x, rest) := GetVar(bytes).value;
            GetVar(bytes[..k]) == Some((x, rest[..k - (|bytes| - |rest|)]))
  {
    var n := |bytes| - |GetVar(bytes).value.1|;
    var prefix := bytes[..k];
    assert prefix[0] == bytes[0];
    assert prefix[1..n] == bytes[1..n];
    assert bytes[n..][..k - n] == prefix[n..];
    hide GetUint;
  }

  lemma ScanStep(bytes: seq<byte>, largest: nat, n: nat)
    requires Scan(bytes, largest, n).Ok?
    ensures GetVar(bytes).Some? && GetVar(bytes).value.0 <= largest
    ensures n == 0 ==> Scan(bytes, largest, n).value == GetVar(bytes).value.1
    ensures n > 0 ==>
              var (block, after) := GetVar(bytes).value;
              && GetVar(after).Some? && block + GetVar(after).value.0 + 2 <= largest
              && var (gap, after') := GetVar(after).value;
                 Scan(bytes, largest, n) == Scan(after', largest - (block + gap + 2), n - 1)
  {
    hide GetVar;
  }

  lemma IterateLast(largest: nat, data: seq<byte>)
    requires GetVar(data).Some? && GetVar(data).value.0 <= largest && GetVar(data).value.1 == []
    ensures Iterate(largest, data) == Some([Block(largest - GetVar(data).value.0, largest)])
  {
    var block := GetVar(data).value.0;
    assert GetVar(GetVar(data).value.1) == None;
    var none: seq<Block> := [];
    assert [Block(largest - block, largest)] + none == [Block(largest - block, largest)];
  }

  lemma IterateStep(largest: nat, data: seq<byte>)
    requires GetVar(data).Some? && GetVar(GetVar(data).value.1).Some?
    requires GetVar(data).value.0 + GetVar(GetVar(data).value.1).value.0 + 2 <= largest
    ensures var (block, after) := GetVar(data).value;
            var (gap, after') := GetVar(after).value;
            var rest := Iterate(largest - (block + gap + 2), after');
            rest.Some? ==> Iterate(largest, data) == Some([Block(largest - block, largest)] + rest.value)
  {
    hide GetVar;
  }

  lemma DescendingCons(bs: seq<Block>, block: Block)
    requires bs != [] && Descending(bs, bs[0].high) && bs[0].high + 2 <= block.low <= block.high
    ensures Descending([block] + bs, block.high)
  {
  }

  /** Whatever the scanner accepts, the iterator reads without failing, as one block per range, strictly
      descending and disjoint from `largest` down. */
  lemma {:induction false} ScannedIterates(bytes: seq<byte>, largest: nat, n: nat)
    requires Scan(bytes, largest, n).Ok?
    ensures var k := |bytes| - |Scan(bytes, largest, n).value|;
            var blocks := Iterate(largest, bytes[..k]);
            && blocks.Some? && |blocks.value| == n + 1
            && Descending(blocks.value, largest) && blocks.value[0].high == largest
    decreases n
  {
    hide GetVar, Scan, Iterate, Descending;
    var k := |bytes| - |Scan(bytes, largest, n).value|;
    ScanStep(bytes, largest, n);
    var (block, after) := GetVar(bytes).value;
    var c := |bytes| - |after|;
    if n == 0 {
      GetVarPrefix(bytes, k);
      IterateLast(largest, bytes[..k]);
      SingleDescending(Block(largest - block, largest));
    } else {
      var (gap, after') := GetVar(after).value;
      var largest' := largest - (block + gap + 2);
      ScannedIterates(after', largest', n - 1);
      GetVarPrefix(bytes, k);
      GetVarPrefix(after, k - c);
      IterateStep(largest, bytes[..k]);
      var rest := Iterate(largest', after'[..|after'| - |Scan(bytes, largest, n).value|]);
      DescendingCons(rest.value, Block(largest - block, largest));
    }
  }

  lemma SingleDescending(block: Block)
    requires block.low <= block.high
    ensures Descending([block], block.high)
  {
  }

  /** The scanner accepts what the encoder writes, and the iterator gives the ranges back. */
  lemma {:induction false} RangesRoundTrip(ranges: seq<Range>, k: nat, rest: seq<byte>)
    requires k < |ranges| && Encodable(ranges)
    ensures Scan(RangeBytes(ranges, k) + rest, ranges[k].end - 1, k) == Ok(rest)
    ensures Iterate(ranges[k].end - 1, RangeBytes(ranges, k)) == Some(Blocks(ranges, k + 1))
  {
    hide GetVar, PutVar, VarSize, Iterate;
    var largest := ranges[k].end - 1;
    var size := ranges[k].end - ranges[k].start - 1;
    if k == 0 {
      VarRoundTrip(size, rest);
      VarRoundTrip(size, []);
      assert RangeBytes(ranges, k) == PutVar(size) == PutVar(size) + [];
      IterateLast(largest, PutVar(size));
      assert Blocks(ranges, 1) == [Block(ranges[0].start, largest)];
    } else {
      var gap := ranges[k].start - ranges[k - 1].end - 1;
      RangesRoundTrip(ranges, k - 1, rest);
      var tail := RangeBytes(ranges, k - 1);
      ReadTwo(size, gap, tail + rest, largest, k);
      ReadTwo(size, gap, tail, largest, k);
      assert RangeBytes(ranges, k) + rest == PutVar(size) + (PutVar(gap) + (tail + rest));
      IterateStep(largest, RangeBytes(ranges, k));
    }
  }

  lemma ReadTwo(size: nat, gap: nat, rest: seq<byte>, largest: nat, n: nat)
    requires size < VARINT_END && gap < VARINT_END && size + gap + 2 <= largest && n > 0
    ensures var data := PutVar(size) + (PutVar(gap) + rest);
            && GetVar(data) == Some((size, PutVar(gap) + rest)) && GetVar(PutVar(gap) + rest) == Some((gap, rest))
            && Scan(data, largest, n) == Scan(rest, largest - (size + gap + 2), n - 1)
  {
    hide GetVar, PutVar, VarSize;
    VarRoundTrip(size, PutVar(gap) + rest);
    VarRoundTrip(gap, rest);
  }
}
