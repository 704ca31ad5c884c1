/** The connection IDs issued by the peer: a ring buffer over a sliding window of sequence numbers,
    against a finite map whose least key is the active connection ID. */
module CidQueues {
  import opened Basics
  import opened RangeSets

  type Cid = seq<byte>
  type Token = seq<byte>

  datatype CidData = CidData(id: Cid, token: Option<Token>)

  /** The fields of a NEW_CONNECTION_ID frame. */
  datatype NewConnectionId = NewConnectionId(sequence: nat, retirePriorTo: nat, id: Cid, resetToken: Token)

  datatype InsertError = Retired | ExceedsLimit

  const LEN: nat := 5

  /** Ring position `k` steps after the cursor. */
  function Slot(cursor: nat, k: nat): nat { (cursor + k) % LEN }

  /** The entry for sequence number `s`, if it lies in the window. */
  function Entry(ring: seq<Option<CidData>>, cursor: nat, offset: nat, s: nat): Option<CidData>
    requires |ring| == LEN
  {
    if offset <= s < offset + LEN then ring[Slot(cursor, s - offset)] else None
  }

  /** The window as a map from sequence number to connection ID. */
  ghost function Window(ring: seq<Option<CidData>>, cursor: nat, offset: nat): (w: map<nat, CidData>)
    requires |ring| == LEN
    ensures forall s :: s in w <==> Entry(ring, cursor, offset, s).Some?
    ensures forall s :: s in w ==> w[s] == Entry(ring, cursor, offset, s).value
  {
    map s | s in Span(Range(offset, offset + LEN)) && Entry(ring, cursor, offset, s).Some? ::
      Entry(ring, cursor, offset, s).value
  }

  /** The first step from `step` on, relative to the cursor, whose entry is present; `LEN` if none. */
  function FirstStep(ring: seq<Option<CidData>>, cursor: nat, step: nat): (i: nat)
    requires |ring| == LEN && step <= LEN
    ensures step <= i <= LEN
    ensures i < LEN ==> ring[Slot(cursor, i)].Some?
    ensures forall j :: step <= j < i ==> ring[Slot(cursor, j)].None?
    decreases LEN - step
  {
    if step == LEN || ring[Slot(cursor, step)].Some? then step else FirstStep(ring, cursor, step + 1)
  }

  /** The least sequence number is the active one, and only sequence 0 has no reset token. */
  ghost predicate Shape(w: map<nat, CidData>, offset: nat) {
    IsLeast(offset, w) && forall s :: s in w && w[s].token.None? ==> s == 0
  }

  /** Retired ranges are non-empty, increasing and disjoint, and cover every recorded connection ID
      that left the window. */
  ghost predicate History(w: map<nat, CidData>, offset: nat, stored: set<nat>, retired: seq<Range>) {
    && (forall s :: s in w ==> s in stored)
    && (forall s :: s in stored && s >= offset ==> s in w)
    && (forall s :: s in stored && s < offset ==> s in Offsets(retired))
    && Ascending(retired, Range(0, offset))
  }

  ghost predicate IsLeast(s: nat, w: map<nat, CidData>) {
    s in w && forall t :: t in w ==> s <= t
  }

  /** The window after a frame was accepted: retired entries go, the new one is recorded. */
  ghost function Inserted(w: map<nat, CidData>, cid: NewConnectionId): map<nat, CidData> {
    (map s | s in w && s >= cid.retirePriorTo :: w[s])[cid.sequence := CidData(cid.id, Some(cid.resetToken))]
  }

  lemma SlotAdd(cursor: nat, a: nat, b: nat)
    ensures Slot(Slot(cursor, a), b) == Slot(cursor, a + b)
  {
  }

  lemma SlotWrap(cursor: nat, a: nat)
    ensures Slot(cursor, a) < LEN
    ensures Slot(cursor, a) == Slot(cursor, a % LEN)
    ensures a >= LEN ==> Slot(cursor, a) == Slot(cursor, a - LEN)
  {
  }

  /** Positions within one window length are distinct. */
  lemma SlotEqual(cursor: nat, a: nat, b: nat, n: nat)
    requires n <= a < n + LEN && n <= b < n + LEN
    ensures Slot(cursor, a) == Slot(cursor, b) <==> a == b
  {
  }

  /** Moving the cursor over absent entries leaves every entry as it is. */
  lemma ShiftAt(ring: seq<Option<CidData>>, cursor: nat, offset: nat, i: nat, s: nat)
    requires |ring| == LEN && i <= LEN
    requires forall k :: 0 <= k < i ==> ring[Slot(cursor, k)].None?
    ensures Entry(ring, Slot(cursor, i), offset + i, s) == Entry(ring, cursor, offset, s)
  {
    hide Slot;
    if offset + i <= s {
      SlotAdd(cursor, i, s - (offset + i));
      SlotWrap(cursor, s - offset);
    }
  }

  lemma Shift(ring: seq<Option<CidData>>, cursor: nat, offset: nat, i: nat)
    requires |ring| == LEN && i <= LEN
    requires forall k :: 0 <= k < i ==> ring[Slot(cursor, k)].None?
    ensures Window(ring, Slot(cursor, i), offset + i) == Window(ring, cursor, offset)
  {
    hide Slot, Entry;
    forall s: nat ensures Entry(ring, Slot(cursor, i), offset + i, s) == Entry(ring, cursor, offset, s) {
      ShiftAt(ring, cursor, offset, i, s);
    }
  }

  /** The ring after clearing `n` retired entries and recording the frame, seen from the first
      sequence number that is not retired. */
  ghost predicate Recorded(ring: seq<Option<CidData>>, ring': seq<Option<CidData>>, cursor: nat,
                           n: nat, index: nat, data: CidData)
  {
    && |ring| == |ring'| == LEN
    && (forall k :: 0 <= k < LEN ==>
          ring'[Slot(cursor, k)] ==
          if Slot(cursor, k) == Slot(cursor, index) then Some(data)
          else if k < n then None else ring[Slot(cursor, k)])
  }

  lemma InsertedAt(ring: seq<Option<CidData>>, ring': seq<Option<CidData>>, cursor: nat, offset: nat,
                   n: nat, sequence: nat, data: CidData, s: nat)
    requires offset + n <= sequence < offset + n + LEN
    requires Recorded(ring, ring', cursor, n, sequence - offset, data)
    ensures Entry(ring', Slot(cursor, n), offset + n, s)
         == if s == sequence then Some(data) else if s < offset + n then None else Entry(ring, cursor, offset, s)
  {
    hide Slot;
    if offset + n <= s < offset + n + LEN {
      SlotAdd(cursor, n, s - (offset + n));
      SlotWrap(cursor, s - offset);
      SlotEqual(cursor, s - offset, sequence - offset, n);
      var k := (s - offset) % LEN;
      assert Slot(cursor, k) == Slot(cursor, s - offset);
      assert s - offset >= LEN ==> k < n;
    }
  }

  lemma InsertedWindow(ring: seq<Option<CidData>>, ring': seq<Option<CidData>>, cursor: nat, offset: nat,
                       cid: NewConnectionId)
    requires |ring| == |ring'| == LEN && offset <= cid.sequence && cid.retirePriorTo <= cid.sequence
    requires cid.sequence < Max(offset, cid.retirePriorTo) + LEN
    requires var n := Max(offset, cid.retirePriorTo) - offset;
             Recorded(ring, ring', cursor, n, cid.sequence - offset, CidData(cid.id, Some(cid.resetToken)))
    ensures var n := Max(offset, cid.retirePriorTo) - offset;
            Window(ring', Slot(cursor, n), offset + n) == Inserted(Window(ring, cursor, offset), cid)
  {
    hide Slot, Entry, Recorded;
    var n := Max(offset, cid.retirePriorTo) - offset;
    forall s: nat
      ensures Entry(ring', Slot(cursor, n), offset + n, s)
           == if s == cid.sequence then Some(CidData(cid.id, Some(cid.resetToken)))
              else if s < offset + n then None else Entry(ring, cursor, offset, s)
    {
      InsertedAt(ring, ring', cursor, offset, n, cid.sequence, CidData(cid.id, Some(cid.resetToken)), s);
    }
    forall s | s in Window(ring, cursor, offset) ensures s >= offset {
      InWindow(ring, cursor, offset, s);
    }
    var l, r := Window(ring', Slot(cursor, n), offset + n), Inserted(Window(ring, cursor, offset), cid);
    assert forall s :: s in l <==> s in r;
    forall s | s in l ensures l[s] == r[s] {
      assert l[s] == Entry(ring', Slot(cursor, n), offset + n, s).value;
      assert s != cid.sequence ==> Window(ring, cursor, offset)[s] == Entry(ring, cursor, offset, s).value;
    }
  }

  /** A present entry is found, and the first one found is the least of the window. */
  lemma FirstIsLeast(ring: seq<Option<CidData>>, cursor: nat, offset: nat, s: nat)
    requires |ring| == LEN && s in Window(ring, cursor, offset)
    ensures var i := FirstStep(ring, cursor, 0);
            && i < LEN && Window(ring, Slot(cursor, i), offset + i) == Window(ring, cursor, offset)
            && IsLeast(offset + i, Window(ring, cursor, offset))
            && Some(Window(ring, cursor, offset)[offset + i]) == ring[Slot(cursor, i)]
  {
    hide Slot, FirstStep, Entry;
    var i := FirstStep(ring, cursor, 0);
    forall t | t in Window(ring, cursor, offset) ensures offset + i <= t && t < offset + LEN {
      InWindow(ring, cursor, offset, t);
      EntryAt(ring, cursor, offset, t - offset);
    }
    assert i <= s - offset < LEN;
    Shift(ring, cursor, offset, i);
    EntryAt(ring, cursor, offset, i);
  }

  lemma InWindow(ring: seq<Option<CidData>>, cursor: nat, offset: nat, s: nat)
    requires |ring| == LEN && Entry(ring, cursor, offset, s).Some?
    ensures offset <= s < offset + LEN
  {
  }

  lemma RetireOne(retired: seq<Range>, range: Range)
    requires Ascending(retired, Range(0, range.start)) && range.start < range.end
    ensures Ascending(retired + [range], Range(0, range.end))
    ensures Offsets(retired + [range]) == Offsets(retired) + Span(range)
  {
    OffsetsConcat(retired, [range]);
    assert Offsets([range]) == Span(range);
  }

  /** Accepting a frame that retires the active connection ID moves the window to its new least key,
      which has a reset token, and one range covers everything recorded in between. */
  lemma AfterRetire(w: map<nat, CidData>, offset: nat, stored: set<nat>, retired: seq<Range>,
                    cid: NewConnectionId, offset': nat)
    requires Shape(w, offset) && History(w, offset, stored, retired)
    requires forall s :: s in w ==> s < offset + LEN
    requires offset < cid.retirePriorTo <= cid.sequence
    requires IsLeast(offset', Inserted(w, cid))
    ensures var w' := Inserted(w, cid);
            && Shape(w', offset') && w'[offset'].token.Some?
            && offset < offset'
            && History(w', offset', stored + {cid.sequence},
                       retired + [Range(offset, Min(offset', offset + LEN))])
  {
    hide Offsets;
    var range := Range(offset, Min(offset', offset + LEN));
    RetireOne(retired, range);
    forall s | s in stored && offset <= s < offset' ensures s in Span(range) {
      assert s in w;
    }
  }

  lemma AfterRecord(w: map<nat, CidData>, offset: nat, stored: set<nat>, retired: seq<Range>, cid: NewConnectionId)
    requires Shape(w, offset) && History(w, offset, stored, retired)
    requires cid.retirePriorTo <= offset <= cid.sequence
    ensures Shape(Inserted(w, cid), offset)
    ensures History(Inserted(w, cid), offset, stored + {cid.sequence}, retired)
  {
    hide Offsets;
  }

  /** The entry at the cursor is the one for the window's offset. */
  lemma ActiveEntry(ring: seq<Option<CidData>>, cursor: nat, offset: nat)
    requires |ring| == LEN && cursor < LEN
    ensures Entry(ring, cursor, offset, offset) == ring[cursor]
  {
  }

  lemma ReplaceAt(ring: seq<Option<CidData>>, cursor: nat, offset: nat, e: Option<CidData>, s: nat)
    requires |ring| == LEN && cursor < LEN
    ensures Entry(ring[cursor := e], cursor, offset, s) == if s == offset then e else Entry(ring, cursor, offset, s)
  {
    if offset <= s < offset + LEN {
      SlotEqual(cursor, 0, s - offset, 0);
    }
  }

  /** Writing the entry at the cursor. */
  lemma ReplaceActive(ring: seq<Option<CidData>>, cursor: nat, offset: nat, d: CidData)
    requires |ring| == LEN && cursor < LEN
    ensures Window(ring[cursor := Some(d)], cursor, offset) == Window(ring, cursor, offset)[offset := d]
  {
    hide Entry;
    forall s: nat ensures Entry(ring[cursor := Some(d)], cursor, offset, s)
                       == if s == offset then Some(d) else Entry(ring, cursor, offset, s) {
      ReplaceAt(ring, cursor, offset, Some(d), s);
    }
    var l, r := Window(ring[cursor := Some(d)], cursor, offset), Window(ring, cursor, offset)[offset := d];
    assert forall s :: s in l <==> s in r;
    forall s | s in l ensures l[s] == r[s] {
      ReplaceAt(ring, cursor, offset, Some(d), s);
      assert l[s] == Entry(ring[cursor := Some(d)], cursor, offset, s).value;
      if s != offset {
        assert s in Window(ring, cursor, offset);
        assert r[s] == Window(ring, cursor, offset)[s] == Entry(ring, cursor, offset, s).value;
      }
    }
  }

  /** Without a second present entry the window holds the active one only. */
  lemma OnlyActive(ring: seq<Option<CidData>>, cursor: nat, offset: nat)
    requires |ring| == LEN && FirstStep(ring, cursor, 1) == LEN
    requires offset in Window(ring, cursor, offset)
    ensures Window(ring, cursor, offset).Keys == {offset}
  {
    hide Slot, FirstStep;
    forall s | s in Window(ring, cursor, offset) ensures s == offset {
      InWindow(ring, cursor, offset, s);
    }
  }

  /** Dropping the active entry leaves the rest, seen from the second present entry. */
  lemma DropActive(ring: seq<Option<CidData>>, cursor: nat, offset: nat)
    requires |ring| == LEN && cursor < LEN && FirstStep(ring, cursor, 1) < LEN
    ensures var i := FirstStep(ring, cursor, 1);
            var w := Window(ring, cursor, offset);
            var ring' := ring[cursor := None];
            && Window(ring', Slot(cursor, i), offset + i) == w - {offset}
            && IsLeast(offset + i, w - {offset})
            && Some((w - {offset})[offset + i]) == ring[Slot(cursor, i)]
  {
    hide Entry, FirstStep, Slot;
    var i := FirstStep(ring, cursor, 1);
    var ring' := ring[cursor := None];
    forall s: nat ensures Entry(ring', cursor, offset, s)
                       == if s == offset then None else Entry(ring, cursor, offset, s) {
      ReplaceAt(ring, cursor, offset, None, s);
    }
    var l, r := Window(ring', cursor, offset), Window(ring, cursor, offset) - {offset};
    assert forall s :: s in l <==> s in r;
    forall s | s in l ensures l[s] == r[s] {
      assert l[s] == Entry(ring', cursor, offset, s).value;
      assert Window(ring, cursor, offset)[s] == Entry(ring, cursor, offset, s).value;
    }
    assert l == r;
    EntryAt(ring, cursor, offset, i);
    SecondIsFirst(ring, cursor);
    FirstIsLeast(ring', cursor, offset, offset + i);
  }

  lemma EntryAt(ring: seq<Option<CidData>>, cursor: nat, offset: nat, i: nat)
    requires |ring| == LEN && i < LEN
    ensures Slot(cursor, i) < LEN && Entry(ring, cursor, offset, offset + i) == ring[Slot(cursor, i)]
  {
  }

  /** With the active entry gone, the second present entry comes first. */
  lemma SecondIsFirst(ring: seq<Option<CidData>>, cursor: nat)
    requires |ring| == LEN && cursor < LEN && FirstStep(ring, cursor, 1) < LEN
    ensures FirstStep(ring[cursor := None], cursor, 0) == FirstStep(ring, cursor, 1)
  {
    var ring' := ring[cursor := None];
    var i, j := FirstStep(ring, cursor, 1), FirstStep(ring', cursor, 0);
    hide FirstStep, Slot;
    SlotZero(cursor);
    forall k | 1 <= k < LEN ensures Slot(cursor, k) != cursor && Slot(cursor, k) < LEN {
      SlotEqual(cursor, k, 0, 0);
      SlotWrap(cursor, k);
    }
  }

  lemma AfterNext(w: map<nat, CidData>, offset: nat, stored: set<nat>, retired: seq<Range>, offset': nat)
    requires Shape(w, offset) && History(w, offset, stored, retired)
    requires IsLeast(offset', w - {offset})
    ensures Shape(w - {offset}, offset') && (w - {offset})[offset'].token.Some? && offset < offset'
    ensures History(w - {offset}, offset', stored, retired + [Range(offset, offset')])
  {
    hide Offsets;
    RetireOne(retired, Range(offset, offset'));
    forall s | s in stored && offset <= s < offset' ensures s in Span(Range(offset, offset')) {
      assert s in w;
    }
  }

  lemma AfterReplace(w: map<nat, CidData>, stored: set<nat>, retired: seq<Range>, d: CidData)
    requires Shape(w, 0) && History(w, 0, stored, retired)
    ensures Shape(w[0 := d], 0) && History(w[0 := d], 0, stored, retired)
  {
  }

  lemma WindowBound(ring: seq<Option<CidData>>, cursor: nat, offset: nat)
    requires |ring| == LEN
    ensures forall s :: s in Window(ring, cursor, offset) ==> offset <= s < offset + LEN
  {
  }

  lemma SlotZero(cursor: nat)
    requires cursor < LEN
    ensures Slot(cursor, 0) == cursor
  {
  }

  lemma InsertedHas(w: map<nat, CidData>, cid: NewConnectionId)
    ensures cid.sequence in Inserted(w, cid)
  {
  }

  class CidQueue {
    const buffer: array<Option<CidData>>
    var cursor: nat
    var offset: nat

    /** Every sequence number ever recorded, and the ranges reported as retired, in order. */
    ghost var stored: set<nat>
    ghost var retired: seq<Range>

    ghost function View(): map<nat, CidData>
      requires buffer.Length == LEN
      reads this, buffer
    {
      Window(buffer[..], cursor, offset)
    }

    ghost predicate Valid()
      reads this, buffer
    {
      && buffer.Length == LEN && cursor < LEN
      && Shape(View(), offset)
      && History(View(), offset, stored, retired)
    }

    constructor (cid: Cid)
      ensures Valid() && fresh(buffer)
      ensures View() == map[0 := CidData(cid, None)] && retired == []
    {
      buffer := new Option<CidData>[LEN](i => None);
      cursor, offset := 0, 0;
      stored, retired := {0}, [];
      new;
      buffer[0] := Some(CidData(cid, None));
    }

    /** `iter().next()` from `step` on: the first present entry. */
    method NextStep(step: nat) returns (i: nat)
      requires buffer.Length == LEN && step <= LEN
      ensures i == FirstStep(buffer[..], cursor, step)
    {
      i := step;
      while i < LEN && buffer[Slot(cursor, i)].None?
        invariant step <= i <= LEN
        invariant FirstStep(buffer[..], cursor, step) == FirstStep(buffer[..], cursor, i)
      {
        i := i + 1;
      }
    }

    /** Discard the first `n` entries. */
    method Clear(n: nat)
      requires buffer.Length == LEN && n <= LEN
      modifies buffer
      ensures forall k :: 0 <= k < n ==> buffer[Slot(cursor, k)].None?
      ensures forall k :: n <= k < LEN ==> buffer[Slot(cursor, k)] == old(buffer[Slot(cursor, k)])
    {
      for i := 0 to n
        invariant forall k :: 0 <= k < i ==> buffer[Slot(cursor, k)].None?
        invariant forall k :: i <= k < LEN ==> buffer[Slot(cursor, k)] == old(buffer[Slot(cursor, k)])
      {
        buffer[Slot(cursor, i)] := None;
      }
    }

    /** Handle a NEW_CONNECTION_ID frame. The error cases change nothing; otherwise the window is the
        map with retired entries dropped and the new one added, and if the active connection ID was
        retired, the next one and the range to retire are reported. */
    method Insert(cid: NewConnectionId) returns (r: Result<Option<(Range, Token)>, InsertError>)
      requires Valid() && cid.retirePriorTo <= cid.sequence
      modifies this, buffer
      ensures Valid()
      ensures r == Err(Retired) <==> cid.sequence < old(offset)
      ensures r == Err(ExceedsLimit) <==>
                cid.sequence >= old(offset) && cid.sequence >= Max(old(offset), cid.retirePriorTo) + LEN
      ensures r.Err? ==> View() == old(View()) && offset == old(offset) && retired == old(retired)
      ensures r.Ok? ==> View() == Inserted(old(View()), cid) && stored == old(stored) + {cid.sequence}
      ensures r.Ok? ==> (r.value.None? <==> cid.retirePriorTo <= old(offset))
      ensures r.Ok? && r.value.None? ==> offset == old(offset) && retired == old(retired)
      ensures r.Ok? && r.value.Some? ==>
                && r.value.value.0 == Range(old(offset), Min(offset, old(offset) + LEN))
                && retired == old(retired) + [r.value.value.0]
                && View()[offset].token == Some(r.value.value.1)
    {
      hide Inserted, Shape, History, Window;
      if cid.sequence < offset {
        return Err(Retired);
      }
      var index := cid.sequence - offset;
      var retiredCount := if cid.retirePriorTo > offset then cid.retirePriorTo - offset else 0;
      if index >= LEN + retiredCount {
        return Err(ExceedsLimit);
      }
      r := Ok(None);
      if retiredCount == 0 {
        Store(cid);
      } else {
        var retirement := StoreAndRetire(cid);
        r := Ok(Some(retirement));
      }
    }

    /** Record a frame that retires nothing. */
    method Store(cid: NewConnectionId)
      requires Valid() && cid.retirePriorTo <= offset <= cid.sequence < offset + LEN
      modifies this`stored, buffer
      ensures Valid() && View() == Inserted(old(View()), cid) && stored == old(stored) + {cid.sequence}
    {
      hide Slot, Inserted, Shape, History, Recorded, Window;
      ghost var before := buffer[..];
      Record(0, cid.sequence - offset, CidData(cid.id, Some(cid.resetToken)));
      InsertedWindow(before, buffer[..], cursor, offset, cid);
      SlotZero(cursor);
      AfterRecord(Window(before, cursor, offset), offset, stored, retired, cid);
      stored := stored + {cid.sequence};
    }

    /** Record a frame that retires the active connection ID, and find the next one. */
    method StoreAndRetire(cid: NewConnectionId) returns (r: (Range, Token))
      requires Valid() && offset < cid.retirePriorTo <= cid.sequence < cid.retirePriorTo + LEN
      modifies this, buffer
      ensures Valid() && View() == Inserted(old(View()), cid) && stored == old(stored) + {cid.sequence}
      ensures r.0 == Range(old(offset), Min(offset, old(offset) + LEN)) && retired == old(retired) + [r.0]
      ensures View()[offset].token == Some(r.1)
    {
      hide Slot, Entry, Inserted, Shape, History, IsLeast, Recorded, Window, FirstStep;
      ghost var before := buffer[..];
      ghost var w := Window(before, cursor, offset);
      WindowBound(before, cursor, offset);
      Record(cid.retirePriorTo - offset, cid.sequence - offset, CidData(cid.id, Some(cid.resetToken)));
      InsertedWindow(before, buffer[..], cursor, offset, cid);
      cursor := Slot(cursor, cid.retirePriorTo - offset);
      InsertedHas(w, cid);
      FirstIsLeast(buffer[..], cursor, cid.retirePriorTo, cid.sequence);
      var i := NextStep(0);
      SlotWrap(cursor, i);
      var active := buffer[Slot(cursor, i)].value;
      cursor := Slot(cursor, i);
      var origOffset := offset;
      offset := cid.retirePriorTo + i;
      AfterRetire(w, origOffset, stored, retired, cid, offset);
      var range := Range(origOffset, Min(offset, origOffset + LEN));
      stored, retired := stored + {cid.sequence}, retired + [range];
      return (range, active.token.value);
    }

    /** Switch to the next connection ID if there is one: the active entry is dropped, the next least
        becomes active, and its token and the range to retire are returned. */
    method Next() returns (r: Option<(Token, Range)>)
      requires Valid()
      modifies this, buffer
      ensures Valid() && stored == old(stored)
      ensures r.None? <==> old(View()).Keys == {old(offset)}
      ensures r.None? ==> View() == old(View()) && offset == old(offset) && retired == old(retired)
      ensures r.Some? ==>
                && View() == old(View()) - {old(offset)}
                && r.value.1 == Range(old(offset), offset) && retired == old(retired) + [r.value.1]
                && View()[offset].token == Some(r.value.0)
    {
      hide Slot, Entry, History, Window, FirstStep;
      ghost var before := buffer[..];
      ghost var w := Window(before, cursor, offset);
      var i := NextStep(1);
      if i == LEN {
        OnlyActive(before, cursor, offset);
        return None;
      }
      DropActive(before, cursor, offset);
      SlotZero(cursor);
      SlotWrap(cursor, i);
      var data := buffer[Slot(cursor, i)].value;
      buffer[cursor] := None;
      assert buffer[..] == before[cursor := None];
      var origOffset := offset;
      offset := offset + i;
      cursor := Slot(cursor, i);
      AfterNext(w, origOffset, stored, retired, offset);
      var range := Range(origOffset, offset);
      retired := retired + [range];
      return Some((data.token.value, range));
    }

    /** Replace the connection ID chosen before the peer's first packet. */
    method UpdateInitialCid(cid: Cid)
      requires Valid() && offset == 0
      modifies buffer
      ensures Valid() && View() == old(View())[0 := CidData(cid, None)]
    {
      hide Slot, Shape, History, Window;
      ghost var before := buffer[..];
      buffer[cursor] := Some(CidData(cid, None));
      assert buffer[..] == before[cursor := Some(CidData(cid, None))];
      ReplaceActive(before, cursor, offset, CidData(cid, None));
      AfterReplace(Window(before, cursor, offset), stored, retired, CidData(cid, None));
    }

    /** The active connection ID is the one with the least sequence number. */
    method Active() returns (id: Cid)
      requires Valid()
      ensures offset in View() && id == View()[offset].id
    {
      ActiveEntry(buffer[..], cursor, offset);
      id := buffer[cursor].value.id;
    }

    /** Discard retired entries and store the new one. */
    method Record(retiredCount: nat, index: nat, data: CidData)
      requires buffer.Length == LEN && cursor < LEN
      modifies buffer
      ensures Recorded(old(buffer[..]), buffer[..], cursor, retiredCount, index, data)
    {
      Clear(Min(retiredCount, LEN));
      buffer[Slot(cursor, index)] := Some(data);
    }
  }
}
