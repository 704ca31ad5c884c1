/** Issuing connection IDs to the peer: the connection's bookkeeping, the endpoint that allocates
    sequence numbers, and the events queued between them while a datagram is processed. */
module CidIssuing {
  import opened Basics
  import opened RangeSets

  /** The highest sequence number of a batch that expires together. */
  datatype CidTimestamp = CidTimestamp(sequence: nat, timestamp: nat)

  /** The connection's side. */
  datatype Local = Local(
    retireTimestamp: seq<CidTimestamp>, issued: nat, active: set<nat>,
    prevRetireSeq: nat, retireSeq: nat, lifetime: Option<nat>)

  /** `track_lifetime`. */
  function TrackLifetime(l: Local, sequence: nat, now: nat): Local {
    if l.lifetime.None? then l else
      var expires := now + l.lifetime.value;
      var n := |l.retireTimestamp|;
      if n > 0 && l.retireTimestamp[n - 1].timestamp == expires then
        l.(retireTimestamp := l.retireTimestamp[n - 1 := CidTimestamp(sequence, expires)])
      else
        l.(retireTimestamp := l.retireTimestamp + [CidTimestamp(sequence, expires)])
  }

  /** Whether some sequence number in `from..to` is still active. */
  predicate AnyActive(active: set<nat>, from: nat, to: nat) {
    exists s | s in active :: from <= s < to
  }

  /** `on_cid_timeout`: the new state, and how many identifiers to request. */
  function OnTimeout(l: Local): (Local, nat) {
    var unretired := AnyActive(l.active, l.prevRetireSeq, l.retireSeq);
    var popped := if l.retireTimestamp == [] then l else l.(retireTimestamp := l.retireTimestamp[1..]);
    var l' :=
      if unretired then popped
      else popped.(prevRetireSeq := l.retireSeq,
                   retireSeq := if l.retireTimestamp == [] then l.retireSeq else l.retireTimestamp[0].sequence + 1);
    (l', if AnyActive(l.active, l.retireSeq, l'.retireSeq) then 1 else 0)
  }

  /** `on_cid_retirement` for a legal sequence number: the new state and whether to allow one more. */
  function OnRetirement(l: Local, sequence: nat, limit: nat): (Local, bool) {
    var l' := l.(active := l.active - {sequence});
    (l', limit > |l'.active|)
  }

  /** `new_cids` for `n` consecutive sequence numbers from `first`. */
  function NewCids(l: Local, first: nat, n: nat, now: nat): Local {
    if n == 0 then l else
      TrackLifetime(l.(issued := l.issued + n, active := l.active + Span(Range(first, first + n))),
                    first + n - 1, now)
  }

  /** The connection's bookkeeping, updated in place. */
  class CidState {
    var retireTimestamp: seq<CidTimestamp>
    var issued: nat
    var active: set<nat>
    var prevRetireSeq: nat
    var retireSeq: nat
    var lifetime: Option<nat>
    const cidLen: nat

    ghost function View(): Local
      reads this
    {
      Local(retireTimestamp, issued, active, prevRetireSeq, retireSeq, lifetime)
    }

    constructor (cidLen: nat, lifetime: Option<nat>, now: nat, issued: nat)
      ensures this.cidLen == cidLen
      ensures View().issued == issued && View().active == Span(Range(0, issued))
      ensures View().prevRetireSeq == View().retireSeq == 0 && View().lifetime == lifetime
      ensures Ordered(View())
      ensures issued == 0 || lifetime.None? ==> View().retireTimestamp == []
      ensures issued > 0 && lifetime.Some? ==>
                View().retireTimestamp == [CidTimestamp(issued - 1, now + lifetime.value)]
    {
      retireTimestamp, prevRetireSeq, retireSeq := [], 0, 0;
      this.cidLen, this.lifetime := cidLen, lifetime;
      this.issued := issued;
      active := Span(Range(0, issued));
      new;
      for k := 0 to issued
        invariant active == Span(Range(0, issued)) && prevRetireSeq == retireSeq == 0
        invariant this.lifetime == lifetime && this.issued == issued
        invariant k == 0 || lifetime.None? ==> retireTimestamp == []
        invariant k > 0 && lifetime.Some? ==>
                    retireTimestamp == [CidTimestamp(k - 1, now + lifetime.value)]
      {
        Track(k, now);
      }
    }

    method Track(sequence: nat, now: nat)
      modifies this`retireTimestamp
      ensures View() == TrackLifetime(old(View()), sequence, now)
    {
      if lifetime.None? {
        return;
      }
      var expires := now + lifetime.value;
      var n := |retireTimestamp|;
      if n > 0 && retireTimestamp[n - 1].timestamp == expires {
        retireTimestamp := retireTimestamp[n - 1 := CidTimestamp(sequence, expires)];
      } else {
        retireTimestamp := retireTimestamp + [CidTimestamp(sequence, expires)];
      }
    }

    /** Whether a sequence number in `from..to` is active, by trying each. */
    method Any(from: nat, to: nat) returns (found: bool)
      ensures found == AnyActive(active, from, to)
    {
      var s := from;
      while s < to
        invariant s >= from
        invariant !AnyActive(active, from, s)
      {
        if s in active {
          return true;
        }
        s := s + 1;
      }
      return false;
    }

    method OnCidTimeout() returns (needed: bool)
      modifies this
      ensures (View(), if needed then 1 else 0) == OnTimeout(old(View()))
    {
      var unretired := Any(prevRetireSeq, retireSeq);
      var current := retireSeq;
      var next := None;
      if retireTimestamp != [] {
        next := Some(retireTimestamp[0].sequence + 1);
        retireTimestamp := retireTimestamp[1..];
      }
      if !unretired {
        prevRetireSeq := retireSeq;
        if next.Some? {
          retireSeq := next.value;
        }
      }
      needed := Any(current, retireSeq);
    }

    /** Legal frames remove the sequence number; it is an error to retire when connection IDs are empty or
        beyond the next sequence number. */
    method OnCidRetirement(sequence: nat, limit: nat) returns (r: Option<bool>)
      modifies this`active
      ensures r.None? <==> cidLen == 0 || sequence > issued
      ensures r.None? ==> View() == old(View())
      ensures r.Some? ==> (View(), r.value) == OnRetirement(old(View()), sequence, limit)
    {
      if cidLen == 0 {
        return None;
      }
      if sequence > issued {
        return None;
      }
      active := active - {sequence};
      return Some(limit > |active|);
    }

    method AddCids(ids: seq<nat>, now: nat)
      requires forall i :: 0 <= i < |ids| ==> ids[i] == ids[0] + i
      modifies this
      ensures View() == if ids == [] then old(View()) else NewCids(old(View()), ids[0], |ids|, now)
    {
      if ids == [] {
        return;
      }
      issued := issued + |ids|;
      for i := 0 to |ids|
        invariant active == old(active) + Span(Range(ids[0], ids[0] + i))
        invariant unchanged(`retireTimestamp) && issued == old(issued) + |ids|
        invariant unchanged(`prevRetireSeq) && unchanged(`retireSeq) && unchanged(`lifetime)
      {
        active := active + {ids[i]};
      }
      Track(ids[|ids| - 1], now);
    }
  }

  /** Expiry records ascend, and name sequence numbers that are issued and not yet asked to retire;
      active numbers are issued and at or above the last retirement that completed. */
  ghost predicate Ordered(l: Local) {
    && l.prevRetireSeq <= l.retireSeq <= l.issued
    && (forall s :: s in l.active ==> l.prevRetireSeq <= s < l.issued)
    && (forall i :: 0 <= i < |l.retireTimestamp| ==> l.retireSeq <= l.retireTimestamp[i].sequence < l.issued)
    && (forall i, j :: 0 <= i < j < |l.retireTimestamp| ==>
          l.retireTimestamp[i].sequence < l.retireTimestamp[j].sequence)
  }

  // ---------------------------------------------------------------------------------------------
  // The connection and its endpoint

  datatype Event = NeedIdentifiers(n: nat) | RetireConnectionId(sequence: nat, allowMore: bool)

  /** The endpoint's record for the connection: sequence numbers with a live connection ID, and how
      many were allocated; with the queue of events between the two and whether the first batch was
      requested. */
  datatype System = System(local: Local, queue: seq<Event>, locCids: set<nat>, cidsIssued: nat, first: bool)

  /** `send_new_identifiers` and the connection's handling of its reply. */
  function Issue(s: System, n: nat, now: nat): System {
    s.(local := NewCids(s.local, s.cidsIssued, n, now),
       locCids := s.locCids + Span(Range(s.cidsIssued, s.cidsIssued + n)), cidsIssued := s.cidsIssued + n)
  }

  /** `Endpoint::handle_event` on one event. */
  function HandleEvent(s: System, e: Event, now: nat): System {
    match e
    case NeedIdentifiers(n) => Issue(s, n, now)
    case RetireConnectionId(sequence, allowMore) =>
      if sequence in s.locCids then
        var s' := s.(locCids := s.locCids - {sequence});
        if allowMore then Issue(s', 1, now) else s'
      else s
  }

  /** Draining the queue in order. */
  function Drain(s: System, now: nat): System
    decreases |s.queue|
  {
    if s.queue == [] then s else Drain(HandleEvent(s.(queue := s.queue[1..]), s.queue[0], now), now)
  }

  /** What a datagram can bring: RETIRE_CONNECTION_ID frames, and the end of the handshake, which
      requests the first batch up to the limit. */
  datatype Item = Retire(sequence: nat) | Handshake

  function Process(s: System, item: Item, limit: nat, initial: nat): System
    requires initial <= limit
  {
    match item
    case Retire(sequence) =>
      var (l, allow) := OnRetirement(s.local, sequence, limit);
      s.(local := l, queue := s.queue + [RetireConnectionId(sequence, allow)])
    case Handshake =>
      if s.first then s else s.(first := true, queue := s.queue + [NeedIdentifiers(limit - initial)])
  }

  /** The timer only runs once the first batch was issued. */
  function Timeout(s: System): System {
    var (l, n) := OnTimeout(s.local);
    s.(local := l, queue := s.queue + [NeedIdentifiers(n)])
  }

  // ---------------------------------------------------------------------------------------------
  // Safety over whole runs

  /** The sequence numbers whose retirement is still queued. */
  ghost function Retiring(q: seq<Event>): set<nat> {
    if q == [] then {} else (if q[0].RetireConnectionId? then {q[0].sequence} else {}) + Retiring(q[1..])
  }

  /** How many identifiers draining the queue will issue: a retirement counts once, and only if its
      connection ID is still live when its turn comes. */
  ghost function Pending(q: seq<Event>, locCids: set<nat>): nat {
    if q == [] then 0 else
      match q[0]
      case NeedIdentifiers(n) => n + Pending(q[1..], locCids)
      case RetireConnectionId(sequence, allow) =>
        (if allow && sequence in locCids then 1 else 0) + Pending(q[1..], locCids - {sequence})
  }

  /** Identifiers reserved for the first batch. */
  function Reserved(s: System, limit: nat, initial: nat): nat {
    if s.first || limit < initial then 0 else limit - initial
  }

  /** Both sides agree up to the queue. */
  ghost predicate Agree(s: System) {
    && Ordered(s.local)
    && s.cidsIssued == s.local.issued
    && s.locCids <= Span(Range(0, s.cidsIssued))
    && Retiring(s.queue) <= Span(Range(0, s.cidsIssued))
    && s.local.active == s.locCids - Retiring(s.queue)
  }

  /** Active, queued and reserved identifiers stay within the limit, except for one extra while the
      peer still holds an identifier it was asked to retire. */
  ghost predicate Within(s: System, limit: nat, initial: nat) {
    var more := Pending(s.queue, s.locCids) + Reserved(s, limit, initial);
    || |s.local.active| + more <= limit
    || (|s.local.active| == limit + 1 && more == 0 && AnyActive(s.local.active, 0, s.local.retireSeq))
  }

  ghost predicate Inv(s: System, limit: nat, initial: nat) {
    Agree(s) && Within(s, limit, initial)
  }

  lemma {:induction false} PendingAppend(q: seq<Event>, e: Event, locCids: set<nat>)
    ensures Retiring(q + [e]) == Retiring(q) + (if e.RetireConnectionId? then {e.sequence} else {})
    ensures Pending(q + [e], locCids) == Pending(q, locCids)
         + match e
           case NeedIdentifiers(n) => n
           case RetireConnectionId(t, allow) => if allow && t in locCids - Retiring(q) then 1 else 0
  {
    if q == [] {
      assert q + [e] == [e];
      assert Retiring([e][1..]) == {} && Pending([e][1..], locCids) == 0;
    } else {
      assert (q + [e])[1..] == q[1..] + [e];
      var locCids' := if q[0].RetireConnectionId? then locCids - {q[0].sequence} else locCids;
      PendingAppend(q[1..], e, locCids');
      assert locCids - Retiring(q) == locCids' - Retiring(q[1..]);
    }
  }

  /** Identifiers the queue does not mention do not change what it will issue. */
  lemma {:induction false} PendingGrow(q: seq<Event>, locCids: set<nat>, fresh': set<nat>)
    requires fresh' !! Retiring(q)
    ensures Pending(q, locCids + fresh') == Pending(q, locCids)
  {
    if q != [] {
      if q[0].RetireConnectionId? {
        assert (locCids + fresh') - {q[0].sequence} == (locCids - {q[0].sequence}) + fresh';
        PendingGrow(q[1..], locCids - {q[0].sequence}, fresh');
      } else {
        PendingGrow(q[1..], locCids, fresh');
      }
    }
  }

  lemma NewCidsOrdered(l: Local, n: nat, now: nat)
    requires Ordered(l)
    ensures Ordered(NewCids(l, l.issued, n, now))
    ensures NewCids(l, l.issued, n, now).active == l.active + Span(Range(l.issued, l.issued + n))
    ensures NewCids(l, l.issued, n, now).issued == l.issued + n
    ensures NewCids(l, l.issued, n, now).retireSeq == l.retireSeq
    ensures |NewCids(l, l.issued, n, now).active| == |l.active| + n
  {
    hide Span, Ordered;
    NewlyActive(l, n);
    if n > 0 {
      GrownOrdered(l, n);
      TrackOrdered(l.(issued := l.issued + n, active := l.active + Span(Range(l.issued, l.issued + n))), l.issued + n - 1, now);
    }
  }

  lemma GrownOrdered(l: Local, n: nat)
    requires Ordered(l) && n > 0
    ensures Ordered(l.(issued := l.issued + n, active := l.active + Span(Range(l.issued, l.issued + n))))
    ensures l.retireSeq <= l.issued && forall i :: 0 <= i < |l.retireTimestamp| ==> l.retireTimestamp[i].sequence < l.issued
  {
  }

  lemma TrackOrdered(l: Local, sequence: nat, now: nat)
    requires Ordered(l) && l.retireSeq <= sequence < l.issued
    requires forall i :: 0 <= i < |l.retireTimestamp| ==> l.retireTimestamp[i].sequence < sequence
    ensures Ordered(TrackLifetime(l, sequence, now))
  {
  }

  lemma NewlyActive(l: Local, n: nat)
    requires Ordered(l)
    ensures var added := Span(Range(l.issued, l.issued + n));
            && |l.active + added| == |l.active| + n
            && (forall s :: s in added <==> l.issued <= s < l.issued + n)
            && (n == 0 ==> l.active + added == l.active)
  {
    SpanSize(l.issued, l.issued + n);
    assert l.active !! Span(Range(l.issued, l.issued + n));
  }

  lemma FreshAbove(old': set<nat>, locCids: set<nat>, issued: nat, n: nat)
    requires old' <= Span(Range(0, issued)) && locCids <= Span(Range(0, issued))
    ensures old' <= Span(Range(0, issued + n))
    ensures Span(Range(issued, issued + n)) !! old'
    ensures (locCids + Span(Range(issued, issued + n))) - old' == (locCids - old') + Span(Range(issued, issued + n))
    ensures locCids + Span(Range(issued, issued + n)) <= Span(Range(0, issued + n))
  {
  }

  /** Issuing keeps both sides in agreement. */
  lemma IssueAgrees(s: System, n: nat, now: nat)
    requires Agree(s)
    ensures Agree(Issue(s, n, now))
  {
    hide Ordered, NewCids, Retiring, Span;
    NewCidsOrdered(s.local, n, now);
    FreshAbove(Retiring(s.queue), s.locCids, s.cidsIssued, n);
  }

  /** Issuing turns queued identifiers into active ones. */
  lemma IssueKeeps(s: System, n: nat, now: nat)
    requires Agree(s)
    ensures Issue(s, n, now).local.active == s.local.active + Span(Range(s.cidsIssued, s.cidsIssued + n))
    ensures |Issue(s, n, now).local.active| == |s.local.active| + n
    ensures Issue(s, n, now).local.retireSeq == s.local.retireSeq
    ensures Pending(s.queue, Issue(s, n, now).locCids) == Pending(s.queue, s.locCids)
  {
    hide Ordered, NewCids, Pending, Retiring, Span;
    NewCidsOrdered(s.local, n, now);
    FreshAbove(Retiring(s.queue), s.locCids, s.cidsIssued, n);
    PendingGrow(s.queue, s.locCids, Span(Range(s.cidsIssued, s.cidsIssued + n)));
  }

  /** Taking the first event off the queue. */
  lemma Unqueue(q: seq<Event>, locCids: set<nat>)
    requires q != []
    ensures Retiring(q) == Retiring(q[1..]) + (if q[0].RetireConnectionId? then {q[0].sequence} else {})
    ensures q[0].NeedIdentifiers? ==> Pending(q, locCids) == q[0].n + Pending(q[1..], locCids)
    ensures q[0].RetireConnectionId? ==>
              Pending(q, locCids) == (if q[0].allowMore && q[0].sequence in locCids then 1 else 0)
                                   + Pending(q[1..], locCids - {q[0].sequence})
  {
  }

  /** Identifiers that were queued are now active. */
  lemma WithinIssued(s: System, n: nat, limit: nat, initial: nat, now: nat)
    requires Agree(s)
    requires var more := Pending(s.queue, s.locCids) + n + Reserved(s, limit, initial);
             || |s.local.active| + more <= limit
             || (|s.local.active| == limit + 1 && more == 0 && AnyActive(s.local.active, 0, s.local.retireSeq))
    ensures Inv(Issue(s, n, now), limit, initial) && Issue(s, n, now).queue == s.queue
  {
    IssueAgrees(s, n, now);
    IssueKeeps(s, n, now);
    hide Agree, Pending;
  }

  /** Handling the next event keeps the invariant. */
  lemma HandleKeepsInv(s: System, limit: nat, initial: nat, now: nat)
    requires Inv(s, limit, initial) && s.queue != []
    ensures Inv(HandleEvent(s.(queue := s.queue[1..]), s.queue[0], now), limit, initial)
    ensures HandleEvent(s.(queue := s.queue[1..]), s.queue[0], now).queue == s.queue[1..]
  {
    hide Ordered, NewCids, Pending, Retiring, AnyActive, Span;
    Unqueue(s.queue, s.locCids);
    var e := s.queue[0];
    var t := s.(queue := s.queue[1..]);
    match e
    case NeedIdentifiers(n) =>
      WithinIssued(t, n, limit, initial, now);
    case RetireConnectionId(sequence, allow) =>
      if sequence in s.locCids {
        var t' := t.(locCids := t.locCids - {sequence});
        if allow {
          WithinIssued(t', 1, limit, initial, now);
        }
      } else {
        assert s.locCids - {sequence} == s.locCids;
      }
  }

  lemma {:induction false} DrainKeepsInv(s: System, limit: nat, initial: nat, now: nat)
    requires Inv(s, limit, initial)
    ensures Inv(Drain(s, now), limit, initial) && Drain(s, now).queue == []
    ensures Drain(s, now).first == s.first
    decreases |s.queue|
  {
    hide Inv, HandleEvent;
    if s.queue != [] {
      HandleKeepsInv(s, limit, initial, now);
      HandleFirst(s.(queue := s.queue[1..]), s.queue[0], now);
      DrainKeepsInv(HandleEvent(s.(queue := s.queue[1..]), s.queue[0], now), limit, initial, now);
    }
  }

  lemma HandleFirst(s: System, e: Event, now: nat)
    ensures HandleEvent(s, e, now).first == s.first
  {
  }

  /** Processing a frame keeps the invariant. */
  lemma ProcessKeepsInv(s: System, item: Item, limit: nat, initial: nat)
    requires Inv(s, limit, initial) && initial <= limit
    requires item.Retire? ==> item.sequence < s.local.issued
    ensures Inv(Process(s, item, limit, initial), limit, initial)
    ensures Process(s, item, limit, initial).local.issued == s.local.issued
  {
    match item
    case Retire(sequence) => RetireKeepsInv(s, sequence, limit, initial);
    case Handshake =>
      hide Ordered, Pending, Retiring, Span;
      PendingAppend(s.queue, NeedIdentifiers(limit - initial), s.locCids);
  }

  lemma RetireKeepsInv(s: System, sequence: nat, limit: nat, initial: nat)
    requires Inv(s, limit, initial) && initial <= limit && sequence < s.local.issued
    ensures Inv(Process(s, Retire(sequence), limit, initial), limit, initial)
    ensures Process(s, Retire(sequence), limit, initial).local.issued == s.local.issued
  {
    hide Ordered, Pending, Retiring;
    var s' := Process(s, Retire(sequence), limit, initial);
    var allow := OnRetirement(s.local, sequence, limit).1;
    PendingAppend(s.queue, RetireConnectionId(sequence, allow), s.locCids);
    RetirementOrdered(s.local, sequence, limit);
    assert sequence in Span(Range(0, s.cidsIssued));
    hide Span, AnyActive;
    assert Agree(s');
    if sequence in s.local.active {
      assert |s'.local.active| == |s.local.active| - 1;
    } else {
      assert s'.local.active == s.local.active;
    }
  }

  lemma RetirementOrdered(l: Local, sequence: nat, limit: nat)
    requires Ordered(l)
    ensures Ordered(OnRetirement(l, sequence, limit).0)
  {
  }

  /** The timer asks for one more identifier only when one was just asked to retire and every earlier
      request was honoured. */
  lemma TimeoutKeepsInv(s: System, limit: nat, initial: nat, now: nat)
    requires Inv(s, limit, initial) && s.queue == [] && s.first
    ensures Inv(Drain(Timeout(s), now), limit, initial) && Drain(Timeout(s), now).queue == []
  {
    hide OnTimeout, Timeout, Drain, Ordered, NewCids;
    var (l, n) := OnTimeout(s.local);
    var t := s.(local := l);
    TimeoutDrains(s, now);
    TimeoutOrdered(s.local);
    assert Pending([], t.locCids) == 0;
    IssueAgrees(t, n, now);
    IssueKeeps(t, n, now);
    hide Agree, Issue;
    assert AnyActive(l.active, 0, l.retireSeq)
       ==> AnyActive(Issue(t, n, now).local.active, 0, Issue(t, n, now).local.retireSeq);
  }

  lemma TimeoutDrains(s: System, now: nat)
    requires s.queue == []
    ensures var (l, n) := OnTimeout(s.local);
            Drain(Timeout(s), now) == Issue(s.(local := l), n, now)
  {
    var (l, n) := OnTimeout(s.local);
    assert Timeout(s).queue == [NeedIdentifiers(n)];
    assert Timeout(s).queue[1..] == [];
    assert Timeout(s).(queue := []) == s.(local := l);
  }

  lemma TimeoutOrdered(l: Local)
    requires Ordered(l)
    ensures var (l', n) := OnTimeout(l);
            && Ordered(l') && l'.active == l.active && l'.issued == l.issued && l.retireSeq <= l'.retireSeq
            && n <= 1
            && (n == 1 ==> !AnyActive(l.active, 0, l.retireSeq) && AnyActive(l.active, 0, l'.retireSeq))
            && (n == 0 ==> AnyActive(l.active, 0, l.retireSeq) ==> AnyActive(l.active, 0, l'.retireSeq))
  {
  }

  // Runs

  /** A datagram is processed as a whole before the queue is drained; a timer is drained at once. */
  datatype Step = Datagram(items: seq<Item>, now: nat) | Timer(now: nat)

  function ProcessAll(s: System, items: seq<Item>, limit: nat, initial: nat): System
    requires initial <= limit
    decreases |items|
  {
    if items == [] then s else ProcessAll(Process(s, items[0], limit, initial), items[1..], limit, initial)
  }

  function Next(s: System, step: Step, limit: nat, initial: nat): System
    requires initial <= limit
  {
    match step
    case Datagram(items, now) => Drain(ProcessAll(s, items, limit, initial), now)
    case Timer(now) => Drain(Timeout(s), now)
  }

  /** The peer retires only sequence numbers it was issued, and the timer runs only once armed. */
  predicate Legal(s: System, step: Step) {
    match step
    case Datagram(items, _) => forall i :: 0 <= i < |items| && items[i].Retire? ==> items[i].sequence < s.local.issued
    case Timer(_) => s.first
  }

  ghost predicate Initial(s: System, initial: nat) {
    && Ordered(s.local) && s.local.active == s.locCids == Span(Range(0, initial))
    && s.local.issued == s.cidsIssued == initial && s.queue == [] && !s.first
  }

  lemma InitialInv(s: System, limit: nat, initial: nat)
    requires Initial(s, initial) && initial <= limit
    ensures Inv(s, limit, initial)
  {
    SpanSize(0, initial);
  }

  lemma {:induction false} ProcessAllKeepsInv(s: System, items: seq<Item>, limit: nat, initial: nat)
    requires Inv(s, limit, initial) && initial <= limit
    requires forall i :: 0 <= i < |items| && items[i].Retire? ==> items[i].sequence < s.local.issued
    ensures Inv(ProcessAll(s, items, limit, initial), limit, initial)
    decreases |items|
  {
    hide Inv, Process;
    if items != [] {
      ProcessKeepsInv(s, items[0], limit, initial);
      ProcessAllKeepsInv(Process(s, items[0], limit, initial), items[1..], limit, initial);
    }
  }

  lemma StepKeepsInv(s: System, step: Step, limit: nat, initial: nat)
    requires Inv(s, limit, initial) && s.queue == [] && initial <= limit && Legal(s, step)
    ensures Inv(Next(s, step, limit, initial), limit, initial) && Next(s, step, limit, initial).queue == []
  {
    hide Inv, Drain, ProcessAll, Timeout;
    match step
    case Datagram(items, now) =>
      ProcessAllKeepsInv(s, items, limit, initial);
      DrainKeepsInv(ProcessAll(s, items, limit, initial), limit, initial, now);
    case Timer(now) =>
      TimeoutKeepsInv(s, limit, initial, now);
  }

  ghost predicate Run(states: seq<System>, steps: seq<Step>, limit: nat, initial: nat)
    requires initial <= limit
  {
    && |states| == |steps| + 1 && Initial(states[0], initial)
    && forall i :: 0 <= i < |steps| ==>
         Legal(states[i], steps[i]) && states[i + 1] == Next(states[i], steps[i], limit, initial)
  }

  lemma {:induction false} RunKeepsInv(states: seq<System>, steps: seq<Step>, limit: nat, initial: nat, i: nat)
    requires initial <= limit && Run(states, steps, limit, initial) && i < |states|
    ensures Inv(states[i], limit, initial) && states[i].queue == []
  {
    hide Inv, Next, Legal;
    if i == 0 {
      InitialInv(states[0], limit, initial);
    } else {
      RunKeepsInv(states, steps, limit, initial, i - 1);
      StepKeepsInv(states[i - 1], steps[i - 1], limit, initial);
    }
  }

  /** The active identifiers the peer was not asked to retire. */
  function Kept(l: Local): set<nat> { set t | t in l.active && t >= l.retireSeq }

  /** Over every run: the endpoint's live connection IDs are exactly the active ones, both sides count
      the same, at most one more than the limit is active, and at most the limit among those the
      peer was not asked to retire. */
  lemma IssuingSafety(states: seq<System>, steps: seq<Step>, limit: nat, initial: nat, i: nat)
    requires initial <= limit && Run(states, steps, limit, initial) && i < |states|
    ensures var s := states[i];
            && s.locCids == s.local.active
            && s.cidsIssued == s.local.issued
            && |s.local.active| <= limit + 1
            && |Kept(s.local)| <= limit
  {
    RunKeepsInv(states, steps, limit, initial, i);
    var s := states[i];
    var kept := Kept(s.local);
    var old' := s.local.active - kept;
    assert s.local.active == kept + old' && kept !! old';
    assert |s.local.active| == |kept| + |old'|;
    if AnyActive(s.local.active, 0, s.local.retireSeq) {
      var t :| t in s.local.active && t < s.local.retireSeq;
      assert t in old';
      assert |old'| >= 1;
    }
  }

  // ---------------------------------------------------------------------------------------------
  // Retiring the next sequence number, which was not issued yet

  lemma HandleIgnoresQueue(s: System, e: Event, now: nat, q: seq<Event>)
    ensures HandleEvent(s.(queue := q), e, now) == HandleEvent(s, e, now).(queue := q)
  {
  }

  lemma {:induction false} DrainAppend(s: System, q: seq<Event>, e: Event, now: nat)
    ensures Drain(s.(queue := q + [e]), now) == HandleEvent(Drain(s.(queue := q), now), e, now)
    decreases |q|
  {
    hide HandleEvent;
    if q == [] {
      assert q + [e] == [e] && [e][1..] == [];
      var t := s.(queue := [e]);
      assert Drain(t, now) == Drain(HandleEvent(t.(queue := []), e, now), now);
      HandleIgnoresQueue(s, e, now, []);
    } else {
      assert (q + [e])[0] == q[0] && (q + [e])[1..] == q[1..] + [e];
      HandleIgnoresQueue(s, q[0], now, q[1..]);
      HandleIgnoresQueue(s, q[0], now, q[1..] + [e]);
      DrainAppend(HandleEvent(s, q[0], now), q[1..], e, now);
    }
  }

  /** Draining issues what was pending, and what it issues stays live. */
  lemma {:induction false} DrainIssues(s: System, limit: nat, initial: nat, now: nat)
    requires Inv(s, limit, initial)
    ensures var d := Drain(s, now);
            && d.cidsIssued == s.cidsIssued + Pending(s.queue, s.locCids)
            && Span(Range(s.cidsIssued, d.cidsIssued)) <= d.locCids
            && forall t :: t in s.locCids - Retiring(s.queue) ==> t in d.locCids
    decreases |s.queue|
  {
    if s.queue != [] {
      var s' := HandleEvent(s.(queue := s.queue[1..]), s.queue[0], now);
      HandleKeepsInv(s, limit, initial, now);
      DrainIssues(s', limit, initial, now);
      HandleIssues(s, now);
      hide HandleEvent, Pending, Retiring, Inv;
      var d := Drain(s, now);
      assert d == Drain(s', now);
      assert Span(Range(s.cidsIssued, d.cidsIssued))
          == Span(Range(s.cidsIssued, s'.cidsIssued)) + Span(Range(s'.cidsIssued, d.cidsIssued));
    }
  }

  lemma HandleIssues(s: System, now: nat)
    requires Agree(s) && s.queue != []
    ensures var s' := HandleEvent(s.(queue := s.queue[1..]), s.queue[0], now);
            && s.cidsIssued <= s'.cidsIssued
            && s'.cidsIssued + Pending(s'.queue, s'.locCids) == s.cidsIssued + Pending(s.queue, s.locCids)
            && Span(Range(s.cidsIssued, s'.cidsIssued)) <= s'.locCids - Retiring(s'.queue)
            && s.locCids - Retiring(s.queue) <= s'.locCids - Retiring(s'.queue)
  {
    hide Ordered, NewCids, Pending, Retiring;
    Unqueue(s.queue, s.locCids);
    var t := s.(queue := s.queue[1..]);
    match s.queue[0]
    case NeedIdentifiers(n) =>
      FreshAbove(Retiring(t.queue), t.locCids, t.cidsIssued, n);
      PendingGrow(t.queue, t.locCids, Span(Range(t.cidsIssued, t.cidsIssued + n)));
    case RetireConnectionId(sequence, allow) =>
      if sequence in s.locCids {
        var t' := t.(locCids := t.locCids - {sequence});
        FreshAbove(Retiring(t'.queue), t'.locCids, t'.cidsIssued, 1);
        PendingGrow(t'.queue, t'.locCids, Span(Range(t'.cidsIssued, t'.cidsIssued + 1)));
      } else {
        assert s.locCids - {sequence} == s.locCids;
      }
  }

  /** The check in `on_cid_retirement` admits the next sequence number, which was not issued yet. The account,
      agreement and limits, is kept exactly when nothing was about to be issued; otherwise the sides disagree. */
  lemma UnissuedRetirement(s: System, limit: nat, initial: nat, now: nat)
    requires Inv(s, limit, initial) && initial <= limit
    ensures var d := Drain(Process(s, Retire(s.local.issued), limit, initial), now);
            && (Inv(d, limit, initial) <==> Pending(s.queue, s.locCids) == 0)
            && (d.locCids == d.local.active <==> Pending(s.queue, s.locCids) == 0)
  {
    hide Drain, Pending, Retiring, Within, HandleEvent;
    var allow := OnRetirement(s.local, s.local.issued, limit).1;
    var e := RetireConnectionId(s.local.issued, allow);
    assert s.local.active - {s.local.issued} == s.local.active;
    assert Process(s, Retire(s.local.issued), limit, initial) == s.(queue := s.queue + [e]);
    DrainAppend(s, s.queue, e, now);
    assert s.(queue := s.queue) == s;
    DrainKeepsInv(s, limit, initial, now);
    DrainIssues(s, limit, initial, now);
    var d := Drain(s, now);
    NothingRetiring();
    assert s.local.issued in Span(Range(s.cidsIssued, d.cidsIssued)) <==> Pending(s.queue, s.locCids) > 0;
    hide Span;
    EndpointRetires(d, e, now);
  }

  /** With an empty queue, retiring a number that the connection holds as active makes the sides disagree; any
      other one is ignored. */
  lemma EndpointRetires(d: System, e: Event, now: nat)
    requires Agree(d) && d.queue == [] && e.RetireConnectionId?
    ensures var r := HandleEvent(d, e, now);
            if e.sequence in d.locCids then r.locCids != r.local.active && !Agree(r) else r == d
  {
    NothingRetiring();
    if e.sequence in d.locCids {
      NewCidsOrdered(d.local, 1, now);
    }
  }

  /** It happens: with a limit of 2, the peer retires 0 and the next number, 2, in one datagram. The endpoint drops
      the connection ID it issues for 0, the connection keeps it as active, and one too many is held. */
  lemma UnissuedRetirementRun(now: nat) returns (states: seq<System>, steps: seq<Step>)
    ensures Run(states, steps, 2, 1) && |steps| == 1 && states[1].local.issued == 2
    ensures var d := Next(states[1], Datagram([Retire(0), Retire(2)], now), 2, 1);
            d.queue == [] && d.locCids == {1, 3} && d.local.active == {1, 2, 3} && |Kept(d.local)| == 3
  {
    var s0 := System(Local([], 1, {0}, 0, 0, None), [], {0}, 1, false);
    var s1 := System(Local([], 2, {0, 1}, 0, 0, None), [], {0, 1}, 2, true);
    states, steps := [s0, s1], [Datagram([Handshake], now)];
    assert s0.locCids == Span(Range(0, 1));
    FirstBatch(s0, s1, now);
    BothRetired(s1, now);
  }

  lemma FirstBatch(s: System, s': System, now: nat)
    requires s == System(Local([], 1, {0}, 0, 0, None), [], {0}, 1, false)
    requires s' == System(Local([], 2, {0, 1}, 0, 0, None), [], {0, 1}, 2, true)
    ensures Next(s, Datagram([Handshake], now), 2, 1) == s'
  {
    assert [Handshake][1..] == [];
    var p := s.(first := true, queue := [NeedIdentifiers(1)]);
    assert ProcessAll(s, [Handshake], 2, 1) == p;
    assert p.queue[1..] == [];
    assert Span(Range(1, 2)) == {1};
  }

  lemma BothRetired(s: System, now: nat)
    requires s == System(Local([], 2, {0, 1}, 0, 0, None), [], {0, 1}, 2, true)
    ensures var d := Next(s, Datagram([Retire(0), Retire(2)], now), 2, 1);
            d.queue == [] && d.locCids == {1, 3} && d.local.active == {1, 2, 3} && |Kept(d.local)| == 3
  {
    hide Drain, ProcessAll, HandleEvent, Process;
    var a, b := RetireConnectionId(0, true), RetireConnectionId(2, true);
    var p := System(Local([], 2, {1}, 0, 0, None), [], {0, 1}, 2, true);
    var q := System(Local([], 3, {1, 2}, 0, 0, None), [], {1, 2}, 3, true);
    var d := System(Local([], 4, {1, 2, 3}, 0, 0, None), [], {1, 3}, 4, true);
    RetireTwo(s, p, a, b);
    ReplaceActive(p, q, a, now);
    ReplaceIssued(q, d, b, now);
    DrainTwo(p, q, d, a, b, now);
    assert Kept(d.local) == {1, 2, 3};
  }

  lemma RetireTwo(s: System, p: System, a: Event, b: Event)
    requires s == System(Local([], 2, {0, 1}, 0, 0, None), [], {0, 1}, 2, true)
    requires p == System(Local([], 2, {1}, 0, 0, None), [], {0, 1}, 2, true)
    requires a == RetireConnectionId(0, true) && b == RetireConnectionId(2, true)
    ensures ProcessAll(s, [Retire(0), Retire(2)], 2, 1) == p.(queue := [a, b])
  {
    assert [Retire(0), Retire(2)][1..] == [Retire(2)] && [Retire(2)][1..] == [];
    assert {0, 1} - {0} == {1} && {1} - {2} == {1};
    assert [a] + [b] == [a, b];
    assert Process(s, Retire(0), 2, 1) == p.(queue := [a]);
    assert Process(p.(queue := [a]), Retire(2), 2, 1) == p.(queue := [a, b]);
  }

  lemma ReplaceActive(p: System, q: System, a: Event, now: nat)
    requires p == System(Local([], 2, {1}, 0, 0, None), [], {0, 1}, 2, true) && a == RetireConnectionId(0, true)
    requires q == System(Local([], 3, {1, 2}, 0, 0, None), [], {1, 2}, 3, true)
    ensures HandleEvent(p, a, now) == q
  {
    assert Span(Range(2, 3)) == {2} && {0, 1} - {0} == {1};
  }

  lemma ReplaceIssued(q: System, d: System, b: Event, now: nat)
    requires q == System(Local([], 3, {1, 2}, 0, 0, None), [], {1, 2}, 3, true) && b == RetireConnectionId(2, true)
    requires d == System(Local([], 4, {1, 2, 3}, 0, 0, None), [], {1, 3}, 4, true)
    ensures HandleEvent(q, b, now) == d
  {
    assert Span(Range(3, 4)) == {3} && {1, 2} - {2} == {1};
  }

  lemma DrainTwo(p: System, q: System, d: System, a: Event, b: Event, now: nat)
    requires p.queue == [] && q == HandleEvent(p, a, now) && d == HandleEvent(q, b, now) && q.queue == d.queue == []
    ensures Drain(p.(queue := [a, b]), now) == d
  {
    assert [] + [a] == [a] && [a] + [b] == [a, b];
    DrainAppend(p, [a], b, now);
    DrainAppend(p, [], a, now);
    assert p.(queue := []) == p;
  }

  lemma NothingRetiring()
    ensures Retiring([]) == {}
  {
  }
}
