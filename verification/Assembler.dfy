/** Reassembly of a stream from fragments: an inline slot for in-order data, a heap of overlapping
    buffers and a defragmenter, against the plain map from offset to byte. */
module Assembly {
  import opened Basics
  import opened RangeSets
  import opened Buffers

  datatype Chunk = Chunk(offset: nat, bytes: seq<byte>) {
    ghost function Covers(): set<nat> { Span(Range(offset, offset + |bytes|)) }
  }

  datatype State = Ordered | Unordered(recvd: RangeSet)

  /** The bytes of a fragment by offset. */
  ghost function FragmentMap(offset: nat, bytes: seq<byte>): (m: map<nat, byte>)
    ensures m.Keys == Span(Range(offset, offset + |bytes|))
  {
    var span := Span(Range(offset, offset + |bytes|));
    map x | x in span :: bytes[x - offset]
  }

  /** `m'` records everything `m` does. */
  ghost predicate Extends(m: map<nat, byte>, m': map<nat, byte>) {
    forall x :: x in m ==> x in m' && m'[x] == m[x]
  }

  /** The fragment repeats what was recorded for the offsets it shares. */
  ghost predicate Consistent(m: map<nat, byte>, offset: nat, bytes: seq<byte>) {
    forall x: nat :: x in m && offset <= x < offset + |bytes| ==> m[x] == bytes[x - offset]
  }

  /** The fragment leaves no empty entry in the set of received offsets that hides later ones. */
  ghost predicate KeepsTrack(state: State, offset: nat, bytes: seq<byte>) {
    state.Unordered? ==> Harmless(state.recvd, Range(offset, offset + |bytes|))
  }

  /** The buffered data and counters of an assembler, with the history they answer for: every byte
      inserted so far, the offsets handed to the application, and the concatenated ordered reads. */
  datatype View = View(
    held: seq<Buffer>, buffered: nat, allocation: nat, bytesRead: nat, end: nat, state: State,
    recorded: map<nat, byte>, delivered: set<nat>, output: seq<byte>)
  {
    /** The counters are the sums over the buffered data, which agrees with the byte map, and every
        recorded offset is delivered or buffered. */
    ghost predicate Accounted() {
      && AllSound(held, recorded)
      && buffered == LenSum(held)
      && allocation == AllocationSum(held)
      && recorded.Keys <= Span(Range(0, end))
      && recorded.Keys == delivered + Covered(held)
    }

    /** Ordered mode: exactly the prefix up to the read position was output. */
    ghost predicate InOrder() {
      && delivered == Span(Range(0, bytesRead))
      && |output| == bytesRead
      && forall x :: x in delivered ==> x in recorded && recorded[x] == output[x]
    }

    /** Unordered mode: nothing is buffered twice, and nothing delivered is buffered. */
    ghost predicate OutOfOrder() {
      && state.Unordered?
      && Clean(state.recvd)
      && Offsets(state.recvd) == recorded.Keys
      && Disjoint(held)
      && delivered !! Covered(held)
      && |delivered| == bytesRead
    }

    ghost predicate Ok() {
      Accounted() && if state.Ordered? then InOrder() else OutOfOrder()
    }

    /** Remove a buffer from the heap. */
    ghost function Without(i: nat): View
      requires i < |held| && |held[i].bytes| <= buffered && held[i].allocation <= allocation
    {
      this.(held := held[..i] + held[i + 1..],
            buffered := buffered - |held[i].bytes|, allocation := allocation - held[i].allocation)
    }

    /** Drop the first bytes of a buffer. */
    ghost function Advance(i: nat, n: nat): View
      requires i < |held| && n < |held[i].bytes| && n <= buffered
    {
      this.(held := held[i := held[i].Advance(n)], buffered := buffered - n)
    }

    /** Hand bytes to the application. */
    ghost function Deliver(c: Chunk): View {
      this.(bytesRead := bytesRead + |c.bytes|, delivered := delivered + c.Covers(), output := output + c.bytes)
    }

    /** A buffer's share of the counters can be subtracted. */
    lemma Removable(i: nat)
      requires Accounted() && i < |held|
      ensures |held[i].bytes| <= buffered && held[i].allocation <= allocation
    {
      Buffers.Without(held, i);
    }

    /** A buffer behind the read position can be dropped. */
    lemma DropStale(i: nat)
      requires Ok() && state.Ordered? && i < |held| && held[i].End() <= bytesRead
      ensures |held[i].bytes| <= buffered && held[i].allocation <= allocation && Without(i).Ok()
    {
      Buffers.Without(held, i);
    }

    /** Bytes behind the read position can be dropped. */
    lemma SkipStale(i: nat, n: nat)
      requires Ok() && state.Ordered? && i < |held| && n < |held[i].bytes| && held[i].offset + n == bytesRead
      ensures n <= buffered && Advance(i, n).Ok()
    {
      Removable(i);
      AdvanceOne(held, i, n, recorded);
    }

    /** Delivering recorded bytes at the read position. */
    lemma DeliverInOrder(held': seq<Buffer>, c: Chunk)
      requires Ok() && state.Ordered? && c.offset == bytesRead
      requires Buffer(c.offset, c.bytes, 0, true).Agrees(recorded)
      requires AllSound(held', recorded) && Covered(held') + c.Covers() == Covered(held)
      ensures delivered !! c.Covers()
      ensures this.(held := held', buffered := LenSum(held'), allocation := AllocationSum(held')).Deliver(c).Ok()
    {
      hide AllSound, Covered, LenSum, AllocationSum;
      assert Span(Range(0, bytesRead + |c.bytes|)) == delivered + c.Covers();
    }

    /** Delivering bytes that are buffered once and then no more. */
    lemma DeliverOutOfOrder(held': seq<Buffer>, c: Chunk)
      requires Ok() && state.Unordered?
      requires AllSound(held', recorded) && Covered(held') + c.Covers() == Covered(held)
      requires Disjoint(held') && Covered(held') !! c.Covers()
      ensures delivered !! c.Covers()
      ensures this.(held := held', buffered := LenSum(held'), allocation := AllocationSum(held')).Deliver(c).Ok()
    {
      hide AllSound, Clean, Disjoint, Offsets, Covered, LenSum, AllocationSum;
      SpanSize(c.offset, c.offset + |c.bytes|);
      assert |delivered + c.Covers()| == |delivered| + |c.Covers()|;
    }

    /** Serving the front of a buffer. */
    lemma ServeFront(i: nat, n: nat)
      requires Ok() && i < |held| && n < |held[i].bytes| && n <= buffered
      requires state.Ordered? ==> held[i].offset == bytesRead
      ensures var c := Chunk(held[i].offset, held[i].bytes[..n]);
              && Advance(i, n).Deliver(c).Ok()
              && ReadOutcome(this, Advance(i, n).Deliver(c), n, Some(c))
    {
      hide Ok;
      FrontKept(i, n);
      FrontOutcome(i, n);
    }

    lemma FrontKept(i: nat, n: nat)
      requires Ok() && i < |held| && n < |held[i].bytes| && n <= buffered
      requires state.Ordered? ==> held[i].offset == bytesRead
      ensures var c := Chunk(held[i].offset, held[i].bytes[..n]);
              Advance(i, n).Deliver(c).Ok() && delivered !! c.Covers()
    {
      hide AllSound, Clean, Disjoint, Offsets, Covered, LenSum, AllocationSum, InOrder;
      var c := Chunk(held[i].offset, held[i].bytes[..n]);
      var held' := held[i := held[i].Advance(n)];
      AdvanceOne(held, i, n, recorded);
      assert Advance(i, n) == this.(held := held', buffered := LenSum(held'), allocation := AllocationSum(held'));
      FrontAgrees(i, n);
      if state.Unordered? {
        AdvanceDisjoint(held, i, n);
      }
      hide Ok, Accounted, Deliver, Advance;
      if state.Ordered? {
        DeliverInOrder(held', c);
      } else {
        DeliverOutOfOrder(held', c);
      }
    }

    lemma FrontOutcome(i: nat, n: nat)
      requires Ok() && i < |held| && n < |held[i].bytes| && n <= buffered
      requires state.Ordered? ==> held[i].offset == bytesRead
      requires delivered !! Chunk(held[i].offset, held[i].bytes[..n]).Covers()
      ensures var c := Chunk(held[i].offset, held[i].bytes[..n]);
              ReadOutcome(this, Advance(i, n).Deliver(c), n, Some(c))
    {
      hide AllSound, Clean, Disjoint, Offsets, Covered, LenSum, AllocationSum, InOrder;
      CoversStart(i);
      FrontAgrees(i, n);
    }

    lemma FrontSound(i: nat)
      requires AllSound(held, recorded) && i < |held|
      ensures held[i].bytes != []
    {
      assert held[i].Sound(recorded);
    }

    lemma FrontAgrees(i: nat, n: nat)
      requires AllSound(held, recorded) && i < |held| && n <= |held[i].bytes|
      ensures Buffer(held[i].offset, held[i].bytes[..n], 0, true).Agrees(recorded)
    {
      assert held[i].Agrees(recorded);
    }

    /** Serving a whole buffer. */
    lemma ServeAll(i: nat, maxLength: nat)
      requires Ok() && i < |held| && |held[i].bytes| <= buffered && held[i].allocation <= allocation
      requires state.Ordered? ==> held[i].offset == bytesRead
      requires |held[i].bytes| <= maxLength
      ensures var c := Chunk(held[i].offset, held[i].bytes);
              && Without(i).Deliver(c).Ok()
              && ReadOutcome(this, Without(i).Deliver(c), maxLength, Some(c))
    {
      hide Ok;
      AllKept(i);
      AllOutcome(i, maxLength);
    }

    lemma AllKept(i: nat)
      requires Ok() && i < |held| && |held[i].bytes| <= buffered && held[i].allocation <= allocation
      requires state.Ordered? ==> held[i].offset == bytesRead
      ensures var c := Chunk(held[i].offset, held[i].bytes);
              Without(i).Deliver(c).Ok() && delivered !! c.Covers()
    {
      hide Clean, Disjoint, Offsets, Covered, LenSum, AllocationSum, InOrder;
      var c := Chunk(held[i].offset, held[i].bytes);
      var held' := held[..i] + held[i + 1..];
      Buffers.Without(held, i);
      assert Without(i) == this.(held := held', buffered := LenSum(held'), allocation := AllocationSum(held'));
      assert held[i].bytes[..|held[i].bytes|] == held[i].bytes;
      FrontAgrees(i, |held[i].bytes|);
      assert AllSound(held', recorded);
      if state.Unordered? {
        DisjointWithout(held, i);
      }
      hide AllSound, Ok, Accounted, Deliver, Without;
      if state.Ordered? {
        DeliverInOrder(held', c);
      } else {
        DeliverOutOfOrder(held', c);
      }
    }

    lemma AllOutcome(i: nat, maxLength: nat)
      requires Ok() && i < |held| && |held[i].bytes| <= buffered && held[i].allocation <= allocation
      requires state.Ordered? ==> held[i].offset == bytesRead
      requires |held[i].bytes| <= maxLength && delivered !! Chunk(held[i].offset, held[i].bytes).Covers()
      ensures var c := Chunk(held[i].offset, held[i].bytes);
              ReadOutcome(this, Without(i).Deliver(c), maxLength, Some(c))
    {
      hide AllSound, Clean, Disjoint, Offsets, Covered, LenSum, AllocationSum, InOrder;
      CoversStart(i);
      assert held[i].bytes[..|held[i].bytes|] == held[i].bytes;
      FrontAgrees(i, |held[i].bytes|);
      FrontSound(i);
    }

    /** Serving the front of a buffer, or all of it, loses nothing, whatever else is buffered or was read. */
    lemma FrontAccounted(i: nat, n: nat)
      requires Accounted() && i < |held| && n < |held[i].bytes| && n <= buffered
      ensures var c := Chunk(held[i].offset, held[i].bytes[..n]);
              && Advance(i, n).Deliver(c).Accounted()
              && Served(held, Advance(i, n).held, n, c)
              && Delivers(this, Advance(i, n).Deliver(c), n, Some(c))
    {
      hide AllSound, Covered, LenSum, AllocationSum;
      FrontSound(i);
      AdvanceOne(held, i, n, recorded);
    }

    lemma AllAccounted(i: nat, maxLength: nat)
      requires Accounted() && i < |held| && |held[i].bytes| <= buffered && held[i].allocation <= allocation
      requires |held[i].bytes| <= maxLength
      ensures var c := Chunk(held[i].offset, held[i].bytes);
              && Without(i).Deliver(c).Accounted()
              && Served(held, Without(i).held, maxLength, c)
              && Delivers(this, Without(i).Deliver(c), maxLength, Some(c))
    {
      hide Covered, LenSum, AllocationSum;
      FrontSound(i);
      Buffers.Without(held, i);
      assert held[i].bytes[..|held[i].bytes|] == held[i].bytes;
    }

    /** There is nothing to read where nothing is held. */
    lemma NothingToRead(maxLength: nat)
      requires Ok() && (if state.Ordered? then bytesRead !in Covered(held) else held == [])
      ensures ReadOutcome(this, this, maxLength, None)
    {
      NothingHeld();
      hide AllSound, Clean, Disjoint, Offsets, Covered, LenSum, AllocationSum;
    }

    /** The outcome of a read does not depend on how the data is held. */
    lemma OutcomeSame(v: View, v': View, maxLength: nat, r: Option<Chunk>)
      requires ReadOutcome(v, v', maxLength, r)
      requires recorded == v.recorded && state == v.state && end == v.end
      requires delivered == v.delivered && output == v.output && bytesRead == v.bytesRead
      ensures ReadOutcome(this, v', maxLength, r)
    {
    }

    /** A buffered byte is recorded, and in unordered mode not delivered. */
    lemma CoversStart(i: nat)
      requires Ok() && i < |held|
      ensures held[i].offset in recorded && held[i].offset in Covered(held)
    {
      Buffers.Without(held, i);
      assert held[i].offset in held[i].Covers();
    }
    /** Buffers for the bytes that are new, and possibly for some that are not. */
    ghost function Grow(new': seq<Buffer>, m: map<nat, byte>, end': nat, state': State): View {
      this.(held := held + new', buffered := buffered + LenSum(new'),
            allocation := allocation + AllocationSum(new'), recorded := m, end := end', state := state')
    }

    lemma GrowAccounted(new': seq<Buffer>, m: map<nat, byte>, end': nat, state': State)
      requires Accounted() && AllSound(new', m) && Extends(recorded, m)
      requires m.Keys == recorded.Keys + Covered(new') && m.Keys <= Span(Range(0, end'))
      ensures Grow(new', m, end', state').Accounted()
    {
      Concat(held, new');
      SoundExtends(held, recorded, m);
    }

    lemma GrowInOrder(new': seq<Buffer>, m: map<nat, byte>, end': nat)
      requires Ok() && state.Ordered? && AllSound(new', m) && Extends(recorded, m)
      requires m.Keys == recorded.Keys + Covered(new') && m.Keys <= Span(Range(0, end'))
      ensures Grow(new', m, end', Ordered).Ok()
    {
      hide AllSound, Covered, LenSum, AllocationSum;
      GrowAccounted(new', m, end', Ordered);
    }

    lemma GrowOutOfOrder(new': seq<Buffer>, m: map<nat, byte>, end': nat, recvd: RangeSet)
      requires Ok() && state.Unordered? && AllSound(new', m) && Extends(recorded, m)
      requires m.Keys == recorded.Keys + Covered(new') && m.Keys <= Span(Range(0, end'))
      requires Disjoint(new') && Covered(new') !! recorded.Keys
      requires Clean(recvd) && Offsets(recvd) == m.Keys
      ensures Grow(new', m, end', Unordered(recvd)).Ok()
    {
      hide AllSound, Clean, Offsets, LenSum, AllocationSum;
      GrowAccounted(new', m, end', Unordered(recvd));
      DisjointConcat(held, new');
      Concat(held, new');
    }

    /** A fragment without bytes at or after the read position changes nothing but the end. */
    lemma GrowSeen(offset: nat, bytes: seq<byte>, m: map<nat, byte>, end': nat)
      requires Ok() && state.Ordered? && Consistent(recorded, offset, bytes) && end <= end'
      requires m == recorded + FragmentMap(offset, bytes)
      ensures offset + |bytes| <= bytesRead || bytes == [] ==> this.(recorded := m, end := end').Ok()
    {
      if offset + |bytes| <= bytesRead || bytes == [] {
        assert m == recorded;
      }
    }

    /** A fragment of which `b` holds everything at or after the read position. */
    lemma GrowSuffix(offset: nat, bytes: seq<byte>, b: Buffer, m: map<nat, byte>, end': nat)
      requires Ok() && state.Ordered? && Consistent(recorded, offset, bytes)
      requires m == recorded + FragmentMap(offset, bytes) && end' == Max(end, offset + |bytes|)
      requires b.offset == Max(offset, bytesRead) < offset + |bytes| && b.bytes == bytes[b.offset - offset..]
      requires |b.bytes| <= b.allocation
      ensures Grow([b], m, end', Ordered).Ok()
    {
      hide LenSum, AllocationSum, AllSound;
      Single(b);
      assert AllSound([b], m) by { SoundSuffix(offset, bytes, b, m); }
      GrowInOrder([b], m, end');
    }

    lemma SoundSuffix(offset: nat, bytes: seq<byte>, b: Buffer, m: map<nat, byte>)
      requires m == recorded + FragmentMap(offset, bytes)
      requires offset <= b.offset < offset + |bytes| && b.bytes == bytes[b.offset - offset..]
      requires |b.bytes| <= b.allocation
      ensures AllSound([b], m)
    {
    }

    /** The pieces of a fragment between its duplicates. */
    lemma GrowSplit(offset: nat, bytes: seq<byte>, new': seq<Buffer>, m: map<nat, byte>, end': nat, recvd: RangeSet)
      requires Ok() && state.Unordered? && Consistent(recorded, offset, bytes)
      requires m == recorded + FragmentMap(offset, bytes) && end' == Max(end, offset + |bytes|)
      requires Clean(recvd) && Offsets(recvd) == m.Keys
      requires AllSound(new', FragmentMap(offset, bytes)) && Disjoint(new')
      requires Covered(new') == Span(Range(offset, offset + |bytes|)) - recorded.Keys
      ensures Grow(new', m, end', Unordered(recvd)).Ok()
    {
      hide LenSum, AllocationSum, Clean, Offsets, Covered, Disjoint, AllSound, OutOfOrder;
      SoundExtends(new', FragmentMap(offset, bytes), m);
      assert Extends(recorded, m);
      GrowOutOfOrder(new', m, end', recvd);
    }

    /** The pieces of a fragment between `dups`, which were received before. */
    lemma GrowLoose(offset: nat, bytes: seq<byte>, new': seq<Buffer>, m: map<nat, byte>, end': nat, state': State, dups: set<nat>)
      requires Accounted() && Consistent(recorded, offset, bytes)
      requires m == recorded + FragmentMap(offset, bytes) && end' == Max(end, offset + |bytes|)
      requires AllSound(new', FragmentMap(offset, bytes))
      requires dups <= recorded.Keys && Covered(new') == Span(Range(offset, offset + |bytes|)) - dups
      ensures Grow(new', m, end', state').Accounted()
    {
      hide LenSum, AllocationSum, Covered, AllSound;
      SoundExtends(new', FragmentMap(offset, bytes), m);
      assert Extends(recorded, m);
      GrowAccounted(new', m, end', state');
    }

    /** The received offsets are tracked exactly. */
    lemma Tracked()
      requires Ok() && state.Unordered?
      ensures Clean(state.recvd) && Open(state.recvd) && Offsets(state.recvd) == recorded.Keys
    {
    }

    /** Either way; if `dups` is all that was received before, a clean set keeps the guarantees. */
    lemma GrowFragment(offset: nat, bytes: seq<byte>, new': seq<Buffer>, m: map<nat, byte>, end': nat, recvd: RangeSet, dups: set<nat>)
      requires Accounted() && state.Unordered? && Consistent(recorded, offset, bytes)
      requires m == recorded + FragmentMap(offset, bytes) && end' == Max(end, offset + |bytes|)
      requires AllSound(new', FragmentMap(offset, bytes)) && Disjoint(new')
      requires dups <= recorded.Keys && Covered(new') == Span(Range(offset, offset + |bytes|)) - dups
      requires Ok() ==> dups == Span(Range(offset, offset + |bytes|)) * recorded.Keys
                        && Offsets(recvd) == recorded.Keys + Span(Range(offset, offset + |bytes|))
      ensures var v := Grow(new', m, end', Unordered(recvd));
              v.Accounted() && (Ok() && Clean(recvd) ==> v.Ok())
    {
      hide LenSum, AllocationSum, Covered, AllSound, Ok, Accounted, Clean, Offsets, Disjoint;
      GrowLoose(offset, bytes, new', m, end', Unordered(recvd), dups);
      if Ok() && Clean(recvd) {
        GrowSplit(offset, bytes, new', m, end', recvd);
      }
    }

    /** The pieces between the duplicates, with what follows the last one. */
    lemma GrowPieces(offset: nat, bytes: seq<byte>, allocationSize: nat, pieces: seq<Buffer>, off: nat, m: map<nat, byte>, recvd: RangeSet, dups: set<nat>)
      requires Accounted() && state.Unordered? && Consistent(recorded, offset, bytes) && |bytes| <= allocationSize
      requires m == recorded + FragmentMap(offset, bytes) && offset <= off <= offset + |bytes|
      requires AllSound(pieces, FragmentMap(offset, bytes)) && Disjoint(pieces) && Covered(pieces) <= Span(Range(0, off))
      requires Covered(pieces) + Span(Range(off, offset + |bytes|)) == Span(Range(offset, offset + |bytes|)) - dups
      requires dups <= recorded.Keys
      requires Ok() ==> dups == Span(Range(offset, offset + |bytes|)) * recorded.Keys
                        && Offsets(recvd) == recorded.Keys + Span(Range(offset, offset + |bytes|))
      ensures var rest := bytes[off - offset..];
              var new' := if rest == [] then pieces else pieces + [Buffer(off, rest, allocationSize, false)];
              var v := Grow(new', m, Max(end, offset + |bytes|), Unordered(recvd));
              && v.Accounted() && (Ok() && Clean(recvd) ==> v.Ok())
    {
      hide LenSum, AllocationSum, Covered, AllSound, Ok, Accounted, Clean, Offsets, Disjoint, FragmentMap, Consistent, Grow;
      var rest := bytes[off - offset..];
      if rest == [] {
        assert Span(Range(off, offset + |bytes|)) == {};
        GrowFragment(offset, bytes, pieces, m, Max(end, offset + |bytes|), recvd, dups);
      } else {
        var buffer := Buffer(off, rest, allocationSize, false);
        LastPiece(offset, bytes, pieces, buffer);
        GrowFragment(offset, bytes, pieces + [buffer], m, Max(end, offset + |bytes|), recvd, dups);
      }
    }

    lemma GrowTwice(pieces: seq<Buffer>, b: Buffer, m: map<nat, byte>, end': nat, state': State)
      ensures Grow(pieces, m, end', state').Grow([b], m, end', state') == Grow(pieces + [b], m, end', state')
    {
      Concat(pieces, [b]);
      assert held + pieces + [b] == held + (pieces + [b]);
    }

    /** Holding the same offsets in compact, disjoint buffers. */
    lemma Compacted(held': seq<Buffer>)
      requires Ok() && AllSound(held', recorded) && Disjoint(held') && Covered(held') == Covered(held)
      ensures this.(held := held', buffered := LenSum(held'), allocation := AllocationSum(held')).Ok()
    {
      hide LenSum, AllocationSum, Covered, Clean, Offsets;
    }

    lemma CompactedLoose(held': seq<Buffer>)
      requires Accounted() && AllSound(held', recorded) && Covered(held') == Covered(held)
      ensures this.(held := held', buffered := LenSum(held'), allocation := AllocationSum(held')).Accounted()
    {
      hide LenSum, AllocationSum, Covered;
    }

    /** In ordered mode, what was recorded is what was read or is held. */
    lemma Everything()
      requires Ok() && state.Ordered?
      ensures Accounted() && recorded.Keys == Span(Range(0, bytesRead)) + Covered(held)
    {
    }

    /** Entering unordered mode with compact buffers is sound exactly when nothing held was read. */
    lemma SwitchIff(held': seq<Buffer>, recvd: RangeSet)
      requires Ok() && state.Ordered? && AllSound(held', recorded) && Disjoint(held')
      requires Covered(held') == Covered(held) && Clean(recvd) && Offsets(recvd) == recorded.Keys
      ensures this.(held := held', buffered := LenSum(held'), allocation := AllocationSum(held'),
                    state := Unordered(recvd)).Ok()
              <==> (forall i :: 0 <= i < |held| ==> held[i].offset >= bytesRead)
    {
      hide LenSum, AllocationSum, AllSound, Clean, Offsets, Disjoint, Covered;
      StaleIff(held, bytesRead, recorded);
      SpanSize(0, bytesRead);
    }

    lemma SwitchLossless(held': seq<Buffer>, recvd: RangeSet)
      requires Accounted() && AllSound(held', recorded) && Covered(held') == Covered(held)
      ensures this.(held := held', buffered := LenSum(held'), allocation := AllocationSum(held'),
                    state := Unordered(recvd)).Accounted()
    {
      hide LenSum, AllocationSum, AllSound, Covered;
    }

    /** The amounts subtracted by `insert` never underflow; in unordered mode everything read or
        buffered fits below `end`. */
    lemma Counters()
      requires Ok()
      ensures bytesRead <= end && buffered <= allocation
      ensures state.Unordered? ==> bytesRead + buffered <= end
    {
      SpanSize(0, end);
      LenBelowAllocation(held, recorded);
      if state.Ordered? {
        assert bytesRead > 0 ==> bytesRead - 1 in delivered;
      } else {
        DisjointSize(held);
        Subset(recorded.Keys, Span(Range(0, end)));
        assert |delivered + Covered(held)| == |delivered| + |Covered(held)|;
      }
    }
  }

  /** The buffer that holds a whole fragment, if it has any bytes. */
  ghost function Whole(offset: nat, bytes: seq<byte>, allocationSize: nat): seq<Buffer> {
    if bytes == [] then [] else [Buffer(offset, bytes, allocationSize, false)]
  }

  /** The outcome of a read of at most `maxLength` bytes. In ordered mode there is a chunk exactly
      when the byte at the read position was inserted, and it continues the output; in unordered mode
      there is one exactly when some inserted byte was not delivered, and it is delivered now. */
  ghost predicate ReadOutcome(v: View, v': View, maxLength: nat, r: Option<Chunk>) {
    && v'.recorded == v.recorded && v'.state == v.state && v'.end == v.end
    && (r.None? <==> if v.state.Ordered? then v.bytesRead !in v.recorded else v.delivered == v.recorded.Keys)
    && (r.None? ==> v'.delivered == v.delivered && v'.output == v.output && v'.bytesRead == v.bytesRead)
    && (r.Some? ==>
          var c := r.value;
          && |c.bytes| <= maxLength && (maxLength > 0 ==> c.bytes != [])
          && Buffer(c.offset, c.bytes, 0, true).Agrees(v.recorded)
          && v.delivered !! c.Covers() && v'.delivered == v.delivered + c.Covers()
          && v'.bytesRead == v.bytesRead + |c.bytes| && v'.output == v.output + c.bytes
          && (v.state.Ordered? ==> c.offset == v.bytesRead))
  }

  /** `c` is the front of a buffer of `held`, which is gone from `held'` if it was served whole. */
  ghost predicate Served(held: seq<Buffer>, held': seq<Buffer>, maxLength: nat, c: Chunk) {
    exists i :: 0 <= i < |held| && c.offset == held[i].offset
      && c.bytes == held[i].bytes[..Min(maxLength, |held[i].bytes|)]
      && (|held[i].bytes| <= maxLength ==> held' == held[..i] + held[i + 1..])
  }

  /** A read in unordered mode, even if something is buffered twice or was read already. */
  ghost predicate Delivers(v: View, v': View, maxLength: nat, r: Option<Chunk>) {
    && v'.recorded == v.recorded && v'.state == v.state && v'.end == v.end
    && (r.None? <==> v.held == [])
    && (r.None? ==> v' == v)
    && (r.Some? ==>
          && Served(v.held, v'.held, maxLength, r.value)
          && (maxLength > 0 ==> r.value.bytes != [])
          && v'.buffered + |r.value.bytes| == v.buffered
          && Covered(v'.held) + r.value.Covers() == Covered(v.held)
          && v'.delivered == v.delivered + r.value.Covers()
          && v'.bytesRead == v.bytesRead + |r.value.bytes| && v'.output == v.output + r.value.bytes)
  }

  lemma SoundExtends(bs: seq<Buffer>, m: map<nat, byte>, m': map<nat, byte>)
    requires AllSound(bs, m) && Extends(m, m')
    ensures AllSound(bs, m')
  {
    forall i | 0 <= i < |bs| ensures bs[i].Sound(m') {
      assert bs[i].Sound(m);
    }
  }

  lemma DisjointConcat(a: seq<Buffer>, b: seq<Buffer>)
    requires Disjoint(a) && Disjoint(b) && Covered(a) !! Covered(b)
    ensures Disjoint(a + b)
  {
    forall i, j | 0 <= i < j < |a + b| ensures (a + b)[i].Covers() !! (a + b)[j].Covers() {
      if i < |a| <= j {
        Buffers.Without(a, i);
        Buffers.Without(b, j - |a|);
      }
    }
  }

  /** Between two duplicates everything is fresh. */
  lemma GapStep(lo: nat, off: nat, d: Range, seen: set<nat>)
    requires lo <= off <= d.start <= d.end && seen <= Span(Range(0, off))
    ensures (Span(Range(lo, off)) - seen) + Span(Range(off, d.start)) == Span(Range(lo, d.end)) - (seen + Span(d))
    ensures seen + Span(d) <= Span(Range(0, d.end))
  {
  }

  /** The loop over the reported duplicates: buffers for the bytes between them, and what follows
      the last one. */
  method SplitFresh(dups: seq<Range>, offset: nat, bytes: seq<byte>, allocationSize: nat)
    returns (pieces: seq<Buffer>, off: nat, rest: seq<byte>)
    requires Ascending(dups, Range(offset, offset + |bytes|)) && |bytes| <= allocationSize
    ensures offset <= off && off + |rest| == offset + |bytes| && rest == bytes[off - offset..]
    ensures AllSound(pieces, FragmentMap(offset, bytes)) && Disjoint(pieces)
    ensures Covered(pieces) <= Span(Range(0, off))
    ensures dups == [] ==> pieces == [] && off == offset
    ensures Covered(pieces) + Span(Range(off, offset + |bytes|))
         == Span(Range(offset, offset + |bytes|)) - Offsets(dups)
  {
    hide AllSound, Disjoint, FragmentMap;
    NoPieces(FragmentMap(offset, bytes));
    pieces, off, rest := [], offset, bytes;
    for k := 0 to |dups|
      invariant offset <= off && off + |rest| == offset + |bytes| && rest == bytes[off - offset..]
      invariant k == 0 ==> pieces == [] && off == offset
      invariant forall j :: k <= j < |dups| ==> off <= dups[j].start
      invariant AllSound(pieces, FragmentMap(offset, bytes)) && Disjoint(pieces)
      invariant Offsets(dups[..k]) <= Span(Range(0, off))
      invariant Covered(pieces) == Span(Range(offset, off)) - Offsets(dups[..k])
    {
      var d := dups[k];
      assert dups[..k + 1] == dups[..k] + [d];
      OffsetsConcat(dups[..k], [d]);
      assert Offsets([d]) == Span(d);
      GapStep(offset, off, d, Offsets(dups[..k]));
      assert Span(Range(off, d.start)) !! Covered(pieces);
      if d.start > off {
        var piece := Buffer(off, rest[..d.start - off], allocationSize, false);
        OnePiece(offset, bytes, pieces, piece);
        pieces := pieces + [piece];
      }
      rest := rest[d.end - off..];
      off := d.end;
    }
    assert dups[..|dups|] == dups;
  }

  lemma NoneAllocated(pieces: seq<Buffer>)
    ensures pieces == [] ==> AllocationSum(pieces) == 0
  {
  }

  lemma NoPieces(m: map<nat, byte>)
    ensures AllSound([], m) && Disjoint([]) && Covered([]) == {}
  {
  }

  /** What follows the last duplicate is one more piece. */
  lemma LastPiece(offset: nat, bytes: seq<byte>, pieces: seq<Buffer>, b: Buffer)
    requires AllSound(pieces, FragmentMap(offset, bytes)) && Disjoint(pieces)
    requires offset <= b.offset < offset + |bytes| && b.bytes == bytes[b.offset - offset..]
    requires |b.bytes| <= b.allocation && Covered(pieces) <= Span(Range(0, b.offset))
    ensures AllSound(pieces + [b], FragmentMap(offset, bytes)) && Disjoint(pieces + [b])
    ensures Covered(pieces + [b]) == Covered(pieces) + Span(Range(b.offset, offset + |bytes|))
  {
    Append(pieces, b);
    Single(b);
    assert b.bytes == bytes[b.offset - offset..b.End() - offset];
    OnePiece(offset, bytes, pieces, b);
  }

  /** One more piece of the fragment that the others do not reach. */
  lemma OnePiece(offset: nat, bytes: seq<byte>, pieces: seq<Buffer>, b: Buffer)
    requires AllSound(pieces, FragmentMap(offset, bytes)) && Disjoint(pieces)
    requires offset <= b.offset < b.End() <= offset + |bytes| && b.bytes == bytes[b.offset - offset..b.End() - offset]
    requires |b.bytes| <= b.allocation && Covered(pieces) !! Span(Range(b.offset, b.End()))
    ensures AllSound(pieces + [b], FragmentMap(offset, bytes)) && Disjoint(pieces + [b])
    ensures Covered(pieces + [b]) == Covered(pieces) + Span(Range(b.offset, b.End()))
  {
    Append(pieces, b);
    Single(b);
    DisjointConcat(pieces, [b]);
  }

  lemma Subset(a: set<nat>, b: set<nat>)
    requires a <= b
    ensures |a| <= |b|
  {
    assert b == a + (b - a);
    assert |b| == |a| + |b - a|;
  }

  lemma NothingHeld()
    ensures Covered([]) == {} && Disjoint([])
  {
  }

  /** Nothing is held below the top of the heap. */
  lemma NotCovered(bs: seq<Buffer>, top: nat, x: nat)
    requires top < |bs| && x < bs[top].offset
    requires forall i :: 0 <= i < |bs| ==> bs[top].Precedes(bs[i])
    ensures x !in Covered(bs)
  {
    CoveredHas(bs, x);
  }

  class Assembler {
    var state: State
    var next: Option<Buffer>
    var data: seq<Buffer>
    var buffered: nat
    var allocation: nat
    var bytesRead: nat
    var end: nat

    ghost var recorded: map<nat, byte>
    ghost var delivered: set<nat>
    ghost var output: seq<byte>

    /** All buffered data: the slot, then the heap. */
    ghost function Held(): seq<Buffer>
      reads this
    {
      (if next.Some? then [next.value] else []) + data
    }

    ghost function Viewed(): View
      reads this
    {
      View(Held(), buffered, allocation, bytesRead, end, state, recorded, delivered, output)
    }

    /** The slot is only used when it alone holds the data at the read position. */
    ghost predicate Valid()
      reads this
    {
      && Viewed().Ok()
      && (next.Some? ==> state.Ordered? && data == [] && next.value.offset == bytesRead)
    }

    /** What every operation keeps: in unordered mode the guarantee that nothing is delivered twice may be
        lost, but nothing that was inserted is. */
    ghost predicate Lossless()
      reads this
    {
      Valid() || (state.Unordered? && Viewed().Accounted() && next.None?)
    }

    constructor ()
      ensures Valid() && state == Ordered && Held() == [] && allocation == 0 && end == 0
      ensures recorded == map[] && delivered == {} && output == [] && bytesRead == 0
    {
      state, next, data := Ordered, None, [];
      buffered, allocation, bytesRead, end := 0, 0, 0, 0;
      recorded, delivered, output := map[], {}, [];
    }

    method Read(maxLength: nat, ordered: bool) returns (r: Option<Chunk>)
      requires Lossless() && ordered == state.Ordered?
      modifies this
      ensures Lossless() && (!ordered ==> Delivers(old(Viewed()), Viewed(), maxLength, r))
      ensures old(Valid()) ==> Valid() && ReadOutcome(old(Viewed()), Viewed(), maxLength, r)
      ensures ordered && old(NoStale()) && r.Some? ==> Served(old(Held()), Held(), maxLength, r.value)
    {
      if ordered && next.Some? {
        r := ReadSlot(maxLength);
      } else {
        r := ReadHeap(maxLength, ordered);
      }
    }

    ghost method Deliver(c: Chunk)
      modifies this`delivered, this`output
      ensures delivered == old(delivered) + c.Covers() && output == old(output) + c.bytes
    {
      delivered, output := delivered + c.Covers(), output + c.bytes;
    }

    /** The fast path: serve the slot. */
    method ReadSlot(maxLength: nat) returns (r: Option<Chunk>)
      requires Valid() && next.Some?
      modifies this
      ensures Valid() && ReadOutcome(old(Viewed()), Viewed(), maxLength, r)
      ensures r.Some? && Served(old(Held()), Held(), maxLength, r.value)
    {
      hide View.Ok, View.Accounted, ReadOutcome, Delivers, Served;
      SubtractSlot();
      var slot := next.value;
      ghost var v := Viewed();
      if maxLength < |slot.bytes| {
        v.ServeFront(0, maxLength);
        v.FrontAccounted(0, maxLength);
        r := Some(Chunk(slot.offset, slot.bytes[..maxLength]));
        bytesRead, buffered := bytesRead + maxLength, buffered - maxLength;
        next := Some(slot.Advance(maxLength));
        Deliver(r.value);
        assert Viewed() == v.Advance(0, maxLength).Deliver(r.value);
      } else {
        v.ServeAll(0, maxLength);
        v.AllAccounted(0, maxLength);
        r := Some(Chunk(slot.offset, slot.bytes));
        bytesRead, buffered := bytesRead + |slot.bytes|, buffered - |slot.bytes|;
        allocation := allocation - slot.allocation;
        next := None;
        Deliver(r.value);
        assert Viewed() == v.Without(0).Deliver(r.value);
      }
    }

    /** The heap part of `read`: discard buffers that were read already, then serve the top one. */
    method ReadHeap(maxLength: nat, ordered: bool) returns (r: Option<Chunk>)
      requires Lossless() && ordered == state.Ordered? && next.None?
      modifies this
      ensures Lossless() && (!ordered ==> Delivers(old(Viewed()), Viewed(), maxLength, r))
      ensures old(Valid()) ==> Valid() && ReadOutcome(old(Viewed()), Viewed(), maxLength, r)
      ensures ordered && old(NoStale()) && r.Some? ==> Served(old(Held()), Held(), maxLength, r.value)
    {
      hide View.Ok, View.Accounted, ReadOutcome, Delivers, Served, Covered;
      ghost var w := Viewed();
      while data != []
        invariant Lossless() && (old(Valid()) ==> Valid()) && next.None? && state == old(state)
        invariant unchanged(`recorded) && unchanged(`end)
        invariant unchanged(`delivered) && unchanged(`output) && unchanged(`bytesRead)
        invariant !ordered || old(NoStale()) ==> Viewed() == w
        decreases |data|
      {
        var top := Peek(data);
        ghost var v := Viewed();
        assert v.held == data;
        SubtractTop(top);
        if ordered {
          if data[top].offset > bytesRead {
            NotCovered(data, top, bytesRead);
            v.NothingToRead(maxLength);
            w.OutcomeSame(v, v, maxLength, None);
            return None;
          } else if data[top].End() <= bytesRead {
            v.DropStale(top);
            StaleTop(top);
            Pop(top);
            assert Viewed() == v.Without(top);
            continue;
          }
          SkipRead(top);
        }
        ghost var u := Viewed();
        r := Serve(top, maxLength);
        if old(Valid()) {
          w.OutcomeSame(u, Viewed(), maxLength, r);
        }
        return;
      }
      assert Held() == [];
      NothingLeft(w, maxLength);
      return None;
    }

    /** The share of the top buffer in the counters. */
    lemma SubtractTop(top: nat)
      requires Lossless() && next.None? && top < |data|
      ensures Held() == data && Viewed().Accounted()
      ensures |data[top].bytes| <= buffered && data[top].allocation <= allocation
    {
      hide LenSum, AllocationSum, AllSound, Covered;
      assert Held() == data;
      Viewed().Removable(top);
    }

    lemma SubtractSlot()
      requires Valid() && next.Some?
      ensures Held() == [next.value] && Viewed().Accounted()
      ensures |next.value.bytes| <= buffered && next.value.allocation <= allocation
    {
      hide LenSum, AllocationSum, AllSound, Covered;
      assert Held() == [next.value];
      Viewed().Removable(0);
    }

    /** A buffer that was read already starts before the read position. */
    lemma StaleTop(top: nat)
      requires Lossless() && state.Ordered? && next.None? && top < |data| && data[top].End() <= bytesRead
      ensures !NoStale()
    {
      assert Held() == data;
      Viewed().FrontSound(top);
      assert Held()[top].offset < bytesRead;
    }

    /** The outcome of a read that finds nothing, possibly after dropping what was read already. */
    lemma NothingLeft(w: View, maxLength: nat)
      requires Lossless() && Held() == []
      requires w.recorded == recorded && w.state == state && w.end == end
      requires w.delivered == delivered && w.output == output && w.bytesRead == bytesRead
      ensures Valid() ==> ReadOutcome(w, Viewed(), maxLength, None)
      ensures w == Viewed() ==> Delivers(w, Viewed(), maxLength, None)
    {
      hide View.Ok;
      if Valid() {
        NothingHeld();
        Viewed().NothingToRead(maxLength);
        w.OutcomeSame(Viewed(), Viewed(), maxLength, None);
      }
    }

    /** Drop the part of the top buffer that was read already. */
    method SkipRead(top: nat)
      requires Valid() && next.None? && state.Ordered? && top < |data|
      requires data[top].offset <= bytesRead < data[top].End()
      modifies this`data, this`buffered
      ensures Valid() && |data| == old(|data|) && data[top].offset == bytesRead
      ensures old(NoStale()) ==> unchanged(this)
    {
      ghost var v := Viewed();
      assert v.held == data;
      assert NoStale() ==> Held()[top].offset >= bytesRead;
      hide View.Ok;
      var start := bytesRead - data[top].offset;
      if start > 0 {
        v.SkipStale(top, start);
        data := data[top := data[top].Advance(start)];
        buffered := buffered - start;
        assert Viewed() == v.Advance(top, start);
      }
    }

    /** Serve from the top buffer. */
    method Serve(top: nat, maxLength: nat) returns (r: Option<Chunk>)
      requires Lossless() && next.None? && top < |data| && (state.Ordered? ==> data[top].offset == bytesRead)
      modifies this
      ensures Lossless() && Delivers(old(Viewed()), Viewed(), maxLength, r)
      ensures old(Valid()) ==> Valid() && ReadOutcome(old(Viewed()), Viewed(), maxLength, r)
      ensures r.Some? && Served(old(Held()), Held(), maxLength, r.value)
    {
      hide View.Ok, View.Accounted, ReadOutcome, Delivers, Served;
      ghost var v, valid := Viewed(), Valid();
      SubtractTop(top);
      if maxLength < |data[top].bytes| {
        if valid {
          v.ServeFront(top, maxLength);
        }
        v.FrontAccounted(top, maxLength);
        r := Some(Chunk(data[top].offset, data[top].bytes[..maxLength]));
        bytesRead, buffered := bytesRead + maxLength, buffered - maxLength;
        data := data[top := data[top].Advance(maxLength)];
        Deliver(r.value);
        assert Viewed() == v.Advance(top, maxLength).Deliver(r.value);
      } else {
        if valid {
          v.ServeAll(top, maxLength);
        }
        v.AllAccounted(top, maxLength);
        r := Some(Chunk(data[top].offset, data[top].bytes));
        bytesRead := bytesRead + |data[top].bytes|;
        Pop(top);
        Deliver(r.value);
        assert Viewed() == v.Without(top).Deliver(r.value);
      }
    }

    /** `PeekMut::pop` with its counters. */
    method Pop(top: nat)
      requires top < |data| && |data[top].bytes| <= buffered && data[top].allocation <= allocation
      modifies this`data, this`buffered, this`allocation
      ensures data == old(data[..top] + data[top + 1..])
      ensures buffered == old(buffered - |data[top].bytes|)
      ensures allocation == old(allocation - data[top].allocation)
    {
      buffered := buffered - |data[top].bytes|;
      allocation := allocation - data[top].allocation;
      data := data[..top] + data[top + 1..];
    }

    /** Record a fragment. Every byte that was neither read nor buffered becomes buffered, whether it
        goes to the slot, to the heap, or through defragmentation. In unordered mode the guarantees of
        reading survive exactly when the received offsets stay tracked. */
    method Insert(offset: nat, bytes: seq<byte>, allocationSize: nat)
      requires Lossless() && |bytes| <= allocationSize && Consistent(recorded, offset, bytes)
      requires Valid() || Unseen(offset, bytes)
      modifies this
      ensures Lossless() && recorded == old(recorded) + FragmentMap(offset, bytes)
      ensures old(Valid()) ==> (Valid() <==> old(KeepsTrack(state, offset, bytes)))
      ensures unchanged(`delivered) && unchanged(`output) && unchanged(`bytesRead)
      ensures end == Max(old(end), offset + |bytes|)
      ensures state == if old(state).Ordered? then Ordered else
                Unordered(Replaced(old(state).recvd, Range(offset, offset + |bytes|)))
      ensures old(Unseen(offset, bytes)) && old(allocation) + allocationSize <= 32768 ==>
                && Held() == old(Held()) + Whole(offset, bytes, allocationSize)
                && allocation <= old(allocation) + allocationSize
    {
      if state.Unordered? {
        InsertUnordered(offset, bytes, allocationSize);
      } else {
        InsertOrdered(offset, bytes, allocationSize);
      }
    }

    /** `insert` finds nothing in the fragment that it knows to have read or received. */
    ghost predicate Unseen(offset: nat, bytes: seq<byte>)
      reads this
    {
      match state
      case Ordered => offset >= bytesRead
      case Unordered(recvd) => Overlaps(recvd, Range(offset, offset + |bytes|)) == []
    }

    /** `insert` in ordered mode: drop what was read already. */
    method InsertOrdered(offset: nat, bytes: seq<byte>, allocationSize: nat)
      requires Valid() && state.Ordered? && |bytes| <= allocationSize
      requires Consistent(recorded, offset, bytes)
      modifies this
      ensures Valid() && recorded == old(recorded) + FragmentMap(offset, bytes)
      ensures unchanged(`delivered) && unchanged(`output) && unchanged(`bytesRead)
      ensures end == Max(old(end), offset + |bytes|) && state == old(state)
      ensures offset >= bytesRead && old(allocation) + allocationSize <= 32768 ==>
                && Held() == old(Held()) + Whole(offset, bytes, allocationSize)
                && allocation <= old(allocation) + allocationSize
    {
      hide View.Ok, View.Accounted, Consistent;
      ghost var v := Viewed();
      ghost var m := recorded + FragmentMap(offset, bytes);
      v.GrowSeen(offset, bytes, m, Max(end, offset + |bytes|));
      end := Max(end, offset + |bytes|);
      recorded := m;
      var off, rest := offset, bytes;
      if offset < bytesRead {
        if offset + |bytes| <= bytesRead {
          return;
        }
        off, rest := bytesRead, bytes[bytesRead - offset..];
      }
      if rest == [] {
        return;
      }
      var buffer := Buffer(off, rest, allocationSize, false);
      v.GrowSuffix(offset, bytes, buffer, m, end);
      assert Viewed().Grow([buffer], m, end, state) == v.Grow([buffer], m, end, state);
      Push(buffer);
    }

    /** `insert` in unordered mode: drop what is found to have been received already. */
    method InsertUnordered(offset: nat, bytes: seq<byte>, allocationSize: nat)
      requires Lossless() && state.Unordered? && |bytes| <= allocationSize && Consistent(recorded, offset, bytes)
      requires Valid() || Unseen(offset, bytes)
      modifies this
      ensures Lossless() && recorded == old(recorded) + FragmentMap(offset, bytes)
      ensures old(Valid()) ==> (Valid() <==> old(KeepsTrack(state, offset, bytes)))
      ensures unchanged(`delivered) && unchanged(`output) && unchanged(`bytesRead)
      ensures end == Max(old(end), offset + |bytes|)
      ensures state == Unordered(Replaced(old(state).recvd, Range(offset, offset + |bytes|)))
      ensures old(Unseen(offset, bytes)) && old(allocation) + allocationSize <= 32768 ==>
                && Held() == old(Held()) + Whole(offset, bytes, allocationSize)
                && allocation <= old(allocation) + allocationSize
    {
      hide LenSum, AllocationSum, AllSound, Clean, Disjoint, Overlaps, Replaced, Covered, View.Ok, View.Accounted, View.Grow, Offsets, Ascending, FragmentMap, Consistent, Harmless;
      ghost var v, m := Viewed(), recorded + FragmentMap(offset, bytes);
      var range := Range(offset, offset + |bytes|);
      OverlapsTracked(range);
      LosslessOnly();
      var dups := Overlaps(state.recvd, range);
      var pieces, off, rest := SplitFresh(dups, offset, bytes, allocationSize);
      v.GrowPieces(offset, bytes, allocationSize, pieces, off, m, Replaced(state.recvd, range), Offsets(dups));
      AddPieces(pieces, Replaced(state.recvd, range), m, Max(end, offset + |bytes|));
      NoneAllocated(pieces);
      if rest != [] {
        var buffer := Buffer(off, rest, allocationSize, false);
        v.GrowTwice(pieces, buffer, m, end, state);
        Push(buffer);
      }
      CleanWhenValid();
    }

    /** Buffers for the bytes between the duplicates. */
    method AddPieces(pieces: seq<Buffer>, recvd: RangeSet, ghost m: map<nat, byte>, end': nat)
      requires next.None?
      modifies this`data, this`buffered, this`allocation, this`state, this`recorded, this`end
      ensures Viewed() == old(Viewed()).Grow(pieces, m, end', Unordered(recvd))
      ensures Held() == data == old(data) + pieces && allocation == old(allocation) + AllocationSum(pieces)
      ensures state == Unordered(recvd) && end == end' && recorded == m
    {
      end, recorded, state := end', m, Unordered(recvd);
      data := data + pieces;
      buffered, allocation := buffered + LenSum(pieces), allocation + AllocationSum(pieces);
    }

    lemma LosslessOnly()
      requires Lossless() && state.Unordered?
      ensures Viewed().Accounted() && next.None? && (Viewed().Ok() ==> Valid())
    {
    }

    lemma CleanWhenValid()
      requires state.Unordered?
      ensures Valid() ==> Clean(state.recvd)
    {
    }

    /** What is reported as received was received; in a valid state it is all of it. */
    lemma OverlapsTracked(range: Range)
      requires Lossless() && state.Unordered? && range.start <= range.end
      requires Valid() || Overlaps(state.recvd, range) == []
      ensures Ascending(Overlaps(state.recvd, range), range)
      ensures Offsets(Overlaps(state.recvd, range)) <= recorded.Keys
      ensures Valid() ==>
                && Offsets(Overlaps(state.recvd, range)) == Span(range) * recorded.Keys
                && Offsets(Replaced(state.recvd, range)) == recorded.Keys + Span(range)
                && (Clean(Replaced(state.recvd, range)) <==> Harmless(state.recvd, range))
    {
      if Valid() {
        Viewed().Tracked();
        hide View.Ok, Overlaps, Replaced, Harmless;
        OverlapsExact(state.recvd, range);
        ReplacedUnion(state.recvd, range);
        ReplacedClean(state.recvd, range);
      }
    }

    /** Store a buffer in the slot or the heap, and defragment when too much is over-allocated. When more was
        read than lies before the end, their difference wraps around and is no bound; a build with overflow
        checks panics instead. */
    method Push(b: Buffer)
      requires var v := Viewed().Grow([b], recorded, end, state); v.Ok() || (state.Unordered? && v.Accounted())
      requires next.Some? ==> state.Ordered? && data == [] && next.value.offset == bytesRead
      modifies this`next, this`data, this`buffered, this`allocation
      ensures Lossless() && (old(Viewed().Grow([b], recorded, end, state).Ok()) ==> Valid())
      ensures old(allocation) + b.allocation <= 32768 ==>
                Held() == old(Held()) + [b] && allocation == old(allocation) + b.allocation
    {
      hide LenSum, AllocationSum, Covered, AllSound, View.InOrder, View.OutOfOrder;
      ghost var v := Viewed().Grow([b], recorded, end, state);
      Single(b);
      buffered, allocation := buffered + |b.bytes|, allocation + b.allocation;
      if state.Ordered? && next.None? && data == [] && b.offset == bytesRead {
        next := Some(b);
        assert Viewed() == v;
        return;
      }
      FlushSlot();
      data := data + [b];
      assert Viewed() == v;
      LenBelowAllocation(data, recorded);
      var unique := if bytesRead <= end then Min(buffered, end - bytesRead) else buffered;
      var overAllocation := allocation - unique;
      if overAllocation > Max(32768, unique * 3 / 2) {
        Defragment();
        v.CompactedLoose(data);
        if v.Ok() {
          v.Compacted(data);
        }
        assert Held() == data;
      }
    }

    /** Move the slot to the heap. */
    method FlushSlot()
      requires next.Some? ==> data == []
      modifies this`next, this`data
      ensures next == None && data == old(Held())
    {
      if next.Some? {
        data := data + [next.value];
        next := None;
      }
    }

    /** `defragment`: the same coverage, without overlap, in the heap alone. */
    method Defragment()
      requires AllSound(Held(), recorded) && (next.Some? ==> data == [])
      modifies this`next, this`data, this`buffered, this`allocation
      ensures next == None && AllSound(data, recorded) && Disjoint(data)
      ensures Covered(data) == old(Covered(Held()))
      ensures buffered == allocation == LenSum(data) == AllocationSum(data)
    {
      FlushSlot();
      data, buffered := Compact(data, recorded);
      allocation := buffered;
    }

    /** The read position never passes the end. */
    lemma Counted()
      requires Valid()
      ensures bytesRead <= end && (state.Ordered? ==> |output| == bytesRead)
    {
      Viewed().Counters();
    }

    /** The output is the recorded prefix. */
    lemma Prefix()
      requires Valid() && state.Ordered?
      ensures |output| == bytesRead
      ensures forall x: nat :: x < bytesRead ==> x in recorded && output[x] == recorded[x]
    {
    }

    /** No buffered byte was read already. */
    ghost predicate NoStale()
      reads this
    {
      forall i :: 0 <= i < |Held()| ==> Held()[i].offset >= bytesRead
    }

    lemma StaleExactly()
      requires Valid() && state.Ordered?
      ensures NoStale() <==> Span(Range(0, bytesRead)) * Covered(Held()) == {}
    {
      hide Covered, Span;
      StaleIff(Held(), bytesRead, recorded);
      var a, b := Span(Range(0, bytesRead)), Covered(Held());
      forall x | x in a && x in b ensures x in a * b {
      }
    }

    lemma NothingReceived()
      requires Valid() && state.Unordered? && Solid(state.recvd) && recorded == map[]
      ensures state.recvd == [] && Held() == [] && allocation == 0
    {
      if Held() != [] {
        Viewed().CoversStart(0);
      }
      if state.recvd != [] {
        OffsetsHas(state.recvd, 0, state.recvd[0].start);
      }
    }

    lemma AllDelivered()
      requires Lossless() && Held() == []
      ensures delivered == recorded.Keys
    {
    }

    /** Switch to the requested mode if that is allowed. Entering unordered mode defragments without
        regard to the read position, so it keeps the guarantees of unordered reading exactly when no
        buffer starts below that position. */
    method EnsureOrdering(ordered: bool) returns (ok: bool)
      requires Lossless()
      modifies this
      ensures ok <==> !ordered || old(state.Ordered?)
      ensures unchanged(`recorded) && unchanged(`delivered) && unchanged(`bytesRead) && unchanged(`end)
      ensures ok ==> state.Ordered? == ordered
      ensures ordered || old(state.Unordered?) ==> unchanged(this)
      ensures !ordered && old(state.Ordered?) ==>
                && (Valid() <==> old(NoStale()))
                && Lossless() && Solid(state.recvd) && Covered(Held()) == old(Covered(Held()))
    {
      if ordered && !state.Ordered? {
        return false;
      } else if !ordered && state.Ordered? {
        EnterUnordered();
      }
      return true;
    }

    method EnterUnordered()
      requires Valid() && state.Ordered?
      modifies this`state, this`next, this`data, this`buffered, this`allocation
      ensures state.Unordered? && Solid(state.recvd)
      ensures Valid() <==> old(NoStale())
      ensures Lossless() && Covered(Held()) == old(Covered(Held()))
    {
      ghost var v := Viewed();
      v.Everything();
      hide LenSum, AllocationSum, AllSound, Clean, Offsets, Covered, Disjoint, Span, View.Ok, View.Accounted;
      CompactHeap();
      var recvd := CollectReceived(data, bytesRead);
      state := Unordered(recvd);
      v.SwitchIff(data, recvd);
      v.SwitchLossless(data, recvd);
      assert Held() == data;
    }

    /** Everything moves to the heap, and a heap that is not empty is defragmented. */
    method CompactHeap()
      requires Viewed().Accounted() && (next.Some? ==> data == [])
      modifies this`next, this`data, this`buffered, this`allocation
      ensures next == None && AllSound(data, recorded) && Disjoint(data) && Covered(data) == old(Covered(Held()))
      ensures buffered == LenSum(data) && allocation == AllocationSum(data)
    {
      hide LenSum, AllocationSum, AllSound, Covered, Span;
      FlushSlot();
      assert Held() == data == old(Held());
      if data != [] {
        hide Disjoint;
        Defragment();
      }
    }
  }

  /** The set of received offsets when entering unordered mode. */
  method CollectReceived(bs: seq<Buffer>, position: nat) returns (recvd: RangeSet)
    ensures Clean(recvd) && Solid(recvd) && Offsets(recvd) == Span(Range(0, position)) + Covered(bs)
  {
    recvd := RangeSets.Insert([], Range(0, position));
    for k := 0 to |bs|
      invariant Solid(recvd) && Offsets(recvd) == Span(Range(0, position)) + Covered(bs[..k])
    {
      assert bs[..k + 1] == bs[..k] + [bs[k]];
      Append(bs[..k], bs[k]);
      recvd := RangeSets.Insert(recvd, Range(bs[k].offset, bs[k].End()));
    }
    assert bs[..|bs|] == bs;
  }

  /** Sound buffers all start at or after `position` exactly when they hold nothing below it. */
  lemma StaleIff(bs: seq<Buffer>, position: nat, m: map<nat, byte>)
    requires AllSound(bs, m)
    ensures (forall i :: 0 <= i < |bs| ==> bs[i].offset >= position) <==> Span(Range(0, position)) !! Covered(bs)
  {
    forall x | x in Covered(bs) ensures exists i :: 0 <= i < |bs| && x in bs[i].Covers() {
      CoveredHas(bs, x);
    }
    forall i | 0 <= i < |bs| ensures bs[i].offset in Covered(bs) {
      CoveredHas(bs, bs[i].offset);
      assert bs[i].offset in bs[i].Covers();
    }
  }

  // ---------------------------------------------------------------------------------------------
  // Whole runs

  /** An insertion of the bytes `lo..hi` of a stream, or a read. */
  datatype Op = Arrive(lo: nat, hi: nat, allocation: nat) | Take(maxLength: nat)

  /** Insertions are slices of the stream. */
  predicate Fits(ops: seq<Op>, stream: seq<byte>) {
    forall i :: 0 <= i < |ops| && ops[i].Arrive? ==>
      ops[i].lo <= ops[i].hi <= |stream| && ops[i].hi - ops[i].lo <= ops[i].allocation
  }

  /** The offsets inserted by a run. */
  ghost function Arrived(ops: seq<Op>): set<nat> {
    if ops == [] then {} else
      (if ops[0].Arrive? then Span(Range(ops[0].lo, ops[0].hi)) else {}) + Arrived(ops[1..])
  }

  lemma NothingArrived(m: map<nat, byte>, stream: seq<byte>)
    requires m == map[]
    ensures Faithful(m, stream) && m.Keys == {}
  {
  }

  lemma ArrivedNone(ops: seq<Op>)
    ensures Arrived(ops[..0]) == {}
  {
  }

  lemma {:induction false} ArrivedNext(ops: seq<Op>, k: nat)
    requires k < |ops|
    ensures Arrived(ops[..k + 1])
         == Arrived(ops[..k]) + (if ops[k].Arrive? then Span(Range(ops[k].lo, ops[k].hi)) else {})
  {
    if k == 0 {
      assert ops[..1] == [ops[0]] && ops[..0] == [];
      assert Arrived(ops[..1][1..]) == {};
    } else {
      ArrivedNext(ops[1..], k - 1);
      assert ops[1..][..k] == ops[..k + 1][1..] && ops[1..][..k - 1] == ops[..k][1..];
    }
  }

  /** The byte map only holds bytes of the stream. */
  ghost predicate Faithful(m: map<nat, byte>, stream: seq<byte>) {
    forall x :: x in m ==> x < |stream| && m[x] == stream[x]
  }

  /** A slice of the stream repeats what arrived and adds only bytes of the stream. */
  lemma FaithfulInsert(m: map<nat, byte>, lo: nat, hi: nat, stream: seq<byte>)
    requires Faithful(m, stream) && lo <= hi <= |stream|
    ensures Consistent(m, lo, stream[lo..hi])
    ensures Faithful(m + FragmentMap(lo, stream[lo..hi]), stream)
    ensures (m + FragmentMap(lo, stream[lo..hi])).Keys == m.Keys + Span(Range(lo, hi))
  {
  }

  /** Any interleaving of insertions, in any order and with any overlap, and reads of any length,
      followed by reading until nothing is available, outputs exactly the longest prefix of the
      stream whose bytes all arrived. */
  method Reassemble(stream: seq<byte>, ops: seq<Op>) returns (output: seq<byte>)
    requires Fits(ops, stream)
    ensures output <= stream
    ensures forall x: nat :: x < |output| ==> x in Arrived(ops)
    ensures |output| !in Arrived(ops)
  {
    hide View.Ok, Arrived;
    var a := new Assembler();
    output := [];
    ArrivedNone(ops);
    for k := 0 to |ops|
      invariant a.Valid() && a.state == Ordered && fresh(a)
      invariant a.recorded.Keys == Arrived(ops[..k]) && Faithful(a.recorded, stream)
      invariant output == a.output
    {
      ArrivedNext(ops, k);
      if ops[k].Arrive? {
        FaithfulInsert(a.recorded, ops[k].lo, ops[k].hi, stream);
        a.Insert(ops[k].lo, stream[ops[k].lo..ops[k].hi], ops[k].allocation);
      } else {
        var r := a.Read(ops[k].maxLength, true);
        if r.Some? {
          output := output + r.value.bytes;
        }
      }
    }
    assert ops[..|ops|] == ops;
    a.Counted();
    while true
      invariant a.Valid() && a.state == Ordered && fresh(a)
      invariant a.recorded.Keys == Arrived(ops) && Faithful(a.recorded, stream)
      invariant output == a.output && |output| == a.bytesRead <= a.end
      decreases a.end - a.bytesRead
    {
      var r := a.Read(65536, true);
      a.Counted();
      if r.None? {
        break;
      }
      output := output + r.value.bytes;
    }
    a.Prefix();
    assert output != [] ==> |output| - 1 in a.recorded;
    assert output == stream[..|output|];
  }

  /** No insertion is empty unless it is at the start or the end of the stream. */
  predicate EmptyAtEnds(ops: seq<Op>, stream: seq<byte>) {
    forall i :: 0 <= i < |ops| && ops[i].Arrive? ==>
      ops[i].lo == 0 || ops[i].lo < ops[i].hi || ops[i].lo == |stream|
  }

  /** The offsets of a list of chunks. */
  ghost function ChunkOffsets(chunks: seq<Chunk>): set<nat> {
    if chunks == [] then {} else ChunkOffsets(chunks[..|chunks| - 1]) + chunks[|chunks| - 1].Covers()
  }

  /** Each chunk is a slice of the stream, and no offset occurs in two chunks. */
  ghost predicate Once(chunks: seq<Chunk>, stream: seq<byte>) {
    chunks == [] ||
    var rest, c := chunks[..|chunks| - 1], chunks[|chunks| - 1];
    && Once(rest, stream)
    && c.Covers() !! ChunkOffsets(rest)
    && forall x: nat :: x in c.Covers() ==> x < |stream| && c.bytes[x - c.offset] == stream[x]
  }

  /** Unordered reading, entered before anything was read: over any interleaving of insertions and
      reads, and then reading until nothing is available, every inserted offset is delivered exactly
      once and every chunk is right. */
  method Scatter(stream: seq<byte>, early: seq<Op>, ops: seq<Op>) returns (chunks: seq<Chunk>)
    requires Fits(early, stream) && (forall i :: 0 <= i < |early| ==> early[i].Arrive?)
    requires Fits(ops, stream) && EmptyAtEnds(ops, stream)
    ensures Once(chunks, stream)
    ensures ChunkOffsets(chunks) == Arrived(early) + Arrived(ops)
  {
    hide View.Ok, Fits, EmptyAtEnds, EmptyAt;
    var a := new Assembler();
    ArriveAll(a, stream, early);
    var ok := a.EnsureOrdering(false);
    SolidEmptyAt(a.state.recvd, |stream|);
    chunks := ScatterOps(a, stream, ops);
    chunks := ScatterRest(a, stream, chunks);
  }

  method ArriveAll(a: Assembler, stream: seq<byte>, ops: seq<Op>)
    requires a.Valid() && a.state == Ordered && a.bytesRead == 0 && a.recorded == map[]
    requires Fits(ops, stream) && (forall i :: 0 <= i < |ops| ==> ops[i].Arrive?)
    modifies a
    ensures a.Valid() && a.state == Ordered && a.bytesRead == 0 && a.delivered == old(a.delivered)
    ensures a.recorded.Keys == Arrived(ops) && Faithful(a.recorded, stream)
  {
    NothingArrived(a.recorded, stream);
    hide View.Ok, Arrived, Faithful, Consistent, FragmentMap, Span;
    ArrivedNone(ops);
    for k := 0 to |ops|
      invariant a.Valid() && a.state == Ordered && a.bytesRead == 0 && a.delivered == old(a.delivered)
      invariant a.recorded.Keys == Arrived(ops[..k]) && Faithful(a.recorded, stream)
    {
      ArrivedNext(ops, k);
      FaithfulInsert(a.recorded, ops[k].lo, ops[k].hi, stream);
      a.Insert(ops[k].lo, stream[ops[k].lo..ops[k].hi], ops[k].allocation);
    }
    assert ops[..|ops|] == ops;
  }

  method ScatterOps(a: Assembler, stream: seq<byte>, ops: seq<Op>) returns (chunks: seq<Chunk>)
    requires a.Valid() && a.state.Unordered? && a.delivered == {} && Faithful(a.recorded, stream)
    requires EmptyAt(a.state.recvd, |stream|)
    requires Fits(ops, stream) && EmptyAtEnds(ops, stream)
    modifies a
    ensures a.Valid() && a.state.Unordered? && Faithful(a.recorded, stream)
    ensures a.recorded.Keys == old(a.recorded).Keys + Arrived(ops)
    ensures Once(chunks, stream) && ChunkOffsets(chunks) == a.delivered
  {
    hide View.Ok, View.Accounted, Delivers, Once, ChunkOffsets, Arrived, Faithful, Consistent, FragmentMap, Span, Replaced, Harmless, EmptyAt;
    chunks := [];
    OnceNone(stream);
    ArrivedNone(ops);
    for k := 0 to |ops|
      invariant a.Valid() && a.state.Unordered? && Faithful(a.recorded, stream)
      invariant EmptyAt(a.state.recvd, |stream|)
      invariant a.recorded.Keys == old(a.recorded).Keys + Arrived(ops[..k])
      invariant Once(chunks, stream) && ChunkOffsets(chunks) == a.delivered
    {
      ArrivedNext(ops, k);
      if ops[k].Arrive? {
        FaithfulInsert(a.recorded, ops[k].lo, ops[k].hi, stream);
        StreamHarmless(a, ops[k].lo, ops[k].hi, stream);
        a.Insert(ops[k].lo, stream[ops[k].lo..ops[k].hi], ops[k].allocation);
      } else {
        var r := a.Read(ops[k].maxLength, false);
        if r.Some? {
          OnceMore(chunks, r.value, stream, a.recorded);
          chunks := chunks + [r.value];
        }
      }
    }
    assert ops[..|ops|] == ops;
  }

  lemma SolidEmptyAt(rs: RangeSet, top: nat)
    requires Solid(rs)
    ensures EmptyAt(rs, top)
  {
  }

  /** Slices of the stream keep the received offsets tracked. */
  lemma StreamHarmless(a: Assembler, lo: nat, hi: nat, stream: seq<byte>)
    requires a.Valid() && a.state.Unordered? && Faithful(a.recorded, stream) && EmptyAt(a.state.recvd, |stream|)
    requires lo <= hi <= |stream| && (lo == 0 || lo < hi || lo == |stream|)
    ensures Harmless(a.state.recvd, Range(lo, hi)) && EmptyAt(Replaced(a.state.recvd, Range(lo, hi)), |stream|)
  {
    a.Viewed().Tracked();
    hide View.Ok, Harmless, Replaced;
    assert forall x :: x in a.recorded ==> Range(0, |stream|).Has(x);
    EndHarmless(a.state.recvd, Range(lo, hi), |stream|);
  }

  method ScatterRest(a: Assembler, stream: seq<byte>, early: seq<Chunk>) returns (chunks: seq<Chunk>)
    requires a.Valid() && a.state.Unordered? && Faithful(a.recorded, stream)
    requires Once(early, stream) && ChunkOffsets(early) == a.delivered
    modifies a
    ensures Once(chunks, stream) && ChunkOffsets(chunks) == old(a.recorded).Keys
  {
    hide View.Ok, Once, ChunkOffsets;
    chunks := early;
    a.Counted();
    while true
      invariant a.Valid() && a.state.Unordered? && a.bytesRead <= a.end && a.recorded == old(a.recorded)
      invariant Once(chunks, stream) && ChunkOffsets(chunks) == a.delivered
      decreases a.end - a.bytesRead
    {
      var r := a.Read(65536, false);
      a.Counted();
      if r.None? {
        break;
      }
      OnceMore(chunks, r.value, stream, a.recorded);
      chunks := chunks + [r.value];
    }
  }

  lemma OnceNone(stream: seq<byte>)
    ensures Once([], stream) && ChunkOffsets([]) == {}
  {
  }

  lemma OnceMore(chunks: seq<Chunk>, c: Chunk, stream: seq<byte>, m: map<nat, byte>)
    requires Once(chunks, stream) && Faithful(m, stream)
    requires Buffer(c.offset, c.bytes, 0, true).Agrees(m) && ChunkOffsets(chunks) !! c.Covers()
    ensures Once(chunks + [c], stream) && ChunkOffsets(chunks + [c]) == ChunkOffsets(chunks) + c.Covers()
  {
    assert (chunks + [c])[..|chunks|] == chunks;
    forall x: nat | x in c.Covers() ensures x < |stream| && c.bytes[x - c.offset] == stream[x] {
      assert x in m;
    }
  }

  // ---------------------------------------------------------------------------------------------
  // Where bytes are delivered twice

  /** Switch to unordered mode and read everything: a chunk repeats bytes that were read before the switch if
      and only if a buffer started below the read position. */
  method SwitchAndRead(a: Assembler) returns (repeated: bool)
    requires a.Valid() && a.state.Ordered?
    modifies a
    ensures repeated <==> old(!a.NoStale())
    ensures a.delivered == a.recorded.Keys == old(a.recorded).Keys
  {
    hide View.Ok, Served, Covered, Span, Solid;
    var position := a.bytesRead;
    ghost var stale := Span(Range(0, position)) * Covered(a.Held());
    a.StaleExactly();
    var ok := a.EnsureOrdering(false);
    repeated := false;
    while true
      invariant a.Lossless() && a.state.Unordered? && a.recorded == old(a.recorded)
      invariant Covered(a.Held()) <= old(Covered(a.Held()))
      invariant if repeated then stale != {} else Span(Range(0, position)) * Covered(a.Held()) == stale
      decreases a.buffered
    {
      var r := a.Read(65536, false);
      if r.None? {
        NothingHeld();
        a.AllDelivered();
        break;
      }
      ChunkBefore(r.value, position);
      assert r.value.offset < position ==> r.value.offset in stale;
      repeated := repeated || r.value.offset < position;
    }
  }

  lemma ChunkBefore(c: Chunk, position: nat)
    requires c.bytes != []
    ensures c.offset < position ==> c.offset in Span(Range(0, position)) * c.Covers()
    ensures c.offset >= position ==> Span(Range(0, position)) !! c.Covers()
  {
    assert c.offset in c.Covers();
  }

  /** It happens: two bytes that arrive twice and are read once, in order. Reading them again takes the read
      position past the end. */
  method StaleSwitch(x: byte, y: byte) returns (first: Chunk, again: Chunk, position: nat, end: nat)
    ensures first == Chunk(0, [x, y])
    ensures again.bytes != [] && again.Covers() <= first.Covers()
    ensures position == 2 + |again.bytes| && end == 2
  {
    hide View.Ok, View.Accounted, ReadOutcome;
    var a;
    a, first := ReadOnce(x, y);
    var ok := a.EnsureOrdering(false);
    Single(Buffer(0, [x, y], 2, false));
    NothingHeld();
    assert Covered(a.Held()) == Buffer(0, [x, y], 2, false).Covers();
    assert 0 in Buffer(0, [x, y], 2, false).Covers();
    var r := a.Read(2, false);
    again, position, end := r.value, a.bytesRead, a.end;
    assert again.Covers() <= Buffer(0, [x, y], 2, false).Covers();
  }

  method ReadOnce(x: byte, y: byte) returns (a: Assembler, first: Chunk)
    ensures fresh(a) && a.Valid() && a.state.Ordered? && !a.NoStale()
    ensures first == Chunk(0, [x, y]) && a.delivered == first.Covers()
    ensures a.Held() == [Buffer(0, [x, y], 2, false)] && a.bytesRead == a.end == 2
  {
    hide View.Ok, View.Accounted;
    a := new Assembler();
    a.Insert(0, [x, y], 2);
    a.Insert(0, [x, y], 2);
    ghost var held := a.Held();
    var r := a.Read(2, true);
    first := r.value;
    SameServed(held, a.Held(), first, Buffer(0, [x, y], 2, false));
    assert a.Held()[0].offset < a.bytesRead;
  }

  lemma SameServed(held: seq<Buffer>, held': seq<Buffer>, c: Chunk, b: Buffer)
    requires held == [b, b] && Served(held, held', |b.bytes|, c)
    ensures held' == [b] && c == Chunk(b.offset, b.bytes)
  {
  }

  /** The sets of received offsets on the way to a byte that is delivered twice. */
  lemma TwoEntries()
    ensures Overlaps([], Range(1, 1)) == [] && Replaced([], Range(1, 1)) == [Range(1, 1)]
    ensures Overlaps([Range(1, 1)], Range(2, 3)) == []
    ensures Replaced([Range(1, 1)], Range(2, 3)) == [Range(1, 1), Range(2, 3)]
    ensures Overlaps([Range(1, 1), Range(2, 3)], Range(0, 3)) == []
  {
    var k := EmptyRangeStays([], 1);
    LaterByteAppended([Range(1, 1)], 2);
    HiddenOverlap([Range(1, 1), Range(2, 3)], 1, 0, 3);
  }

  /** In unordered mode, an empty fragment at 1, then the byte at 2, then the bytes from 0 to 2: the byte at 2
      is delivered twice. */
  method EmptyFragment(x: byte, y: byte, z: byte) returns (first: Chunk, second: Chunk)
    ensures 2 in first.Covers() * second.Covers()
  {
    hide View.Ok, View.Accounted, Overlaps, Replaced, FragmentMap, ReadOutcome, Harmless;
    var a := HeldTwice(x, y, z);
    ghost var held := a.Held();
    var r := a.Read(3, false);
    first := r.value;
    FirstServed(held, a.Held(), first, x, y, z);
    held := a.Held();
    r := a.Read(3, false);
    second := r.value;
  }

  method HeldTwice(x: byte, y: byte, z: byte) returns (a: Assembler)
    ensures fresh(a) && a.Lossless() && a.state.Unordered?
    ensures a.Held() == [Buffer(2, [z], 1, false), Buffer(0, [x, y, z], 3, false)]
  {
    hide View.Ok, View.Accounted, Overlaps, Replaced, Harmless;
    TwoEntries();
    a := new Assembler();
    var ok := a.EnsureOrdering(false);
    a.NothingReceived();
    a.Insert(1, [], 0);
    a.Insert(2, [z], 1);
    a.Insert(0, [x, y, z], 3);
  }

  /** Either buffer may come first; the other one is left. */
  lemma FirstServed(held: seq<Buffer>, held': seq<Buffer>, c: Chunk, x: byte, y: byte, z: byte)
    requires held == [Buffer(2, [z], 1, false), Buffer(0, [x, y, z], 3, false)] && Served(held, held', 3, c)
    ensures (held' == [held[0]] || held' == [held[1]]) && 2 in c.Covers()
  {
  }
}
