/** Laying out a batch of datagrams in one buffer: the loop of `poll_transmit` and the size bookkeeping of
    the packet builder. Positions are absolute offsets into the buffer. The MTU is at least 1200, as every
    configuration guarantees. */
module BatchLayout {
  import opened Basics

  const MIN_INITIAL_SIZE := 1200
  const INITIAL_MTU := 1200
  const MAX_PADDING := 16
  const MIN_PACKET_SPACE := 87

  /** A packet being written: its frames must end between `minSize` and `maxSize`. */
  datatype Builder = Builder(minSize: nat, maxSize: nat, tag: nat)

  /** What holds a new datagram back. */
  datatype Gate = Open | Congestion | Pacing

  /** What one turn of the loop finds. `Idle`: the space has nothing to send. Otherwise the sizes of the next
      packet: its AEAD tag, its header, the least it needs behind the header and what its frames would
      fill. `least` is the room its next frame needs; `rigid` says that there are only application datagrams
      to send, which have to fit whole behind the `overhead` predicted for them; `pad` that the datagram has to
      reach 1200 bytes; `refused` that the keys are used up; `last` that it is the final close. */
  datatype Turn =
    | Idle
    | Packet(tag: nat, header: nat, minimum: nat, want: nat, padMtu: bool, gate: Gate, probe: bool,
             rigid: bool, overhead: nat, least: nat, pad: bool, short: bool, refused: bool, last: bool)

  /** What stays the same during a batch. */
  datatype Env = Env(mtu: nat, maxDatagrams: nat, validated: bool, sent: nat, recvd: nat)
  {
    predicate Valid() {
      mtu >= MIN_INITIAL_SIZE && maxDatagrams > 0
    }

    /** `anti_amplification_blocked`. */
    predicate Blocked(bytes: nat) {
      !validated && recvd * 3 < sent + bytes
    }
  }

  /** How a turn leaves the loop. `Asserted`: an assertion of the source fails. `Refused`: the keys are used
      up and nothing is returned. */
  datatype Control = Continue | Break | Asserted | Refused

  /** The loop's variables: buffer length and capacity, the datagrams so far and where each starts, the
      segment size, and the packet in progress. */
  datatype Layout = Layout(len: nat, cap: nat, starts: seq<nat>, seg: nat, coalesce: bool, builder: Option<Builder>,
                           pad: bool, padMtu: bool)
  {
    function Start(): nat {
      if starts == [] then 0 else starts[|starts| - 1]
    }

    /** Where the packet in progress would end. */
    function End(): nat {
      if builder.None? then len else Max(len, builder.value.minSize) + builder.value.tag
    }

    /** `PacketBuilder::pad_to`. No tag is longer than what is padded to, by `Inv`. */
    function PadTo(size: nat): Layout
      requires builder.Some?
    {
      var b := builder.value;
      this.(builder := Some(b.(minSize := Max(b.minSize, Max(Start() + size, b.tag) - b.tag))))
    }

    /** Padded to 1200 bytes if that was asked for. */
    function Padded(): Layout
      requires builder.Some?
    {
      if pad then PadTo(MIN_INITIAL_SIZE) else this
    }

    /** `PacketBuilder::finish`. */
    function Finished(): Layout {
      this.(len := End(), builder := None)
    }

    /** The datagram has to reach 1200 bytes but was given fewer. */
    predicate Cramped() {
      pad && Start() + MIN_INITIAL_SIZE > cap
    }

    /** Datagram `k` starts at `k` segments; the current one was given a segment, or 1200 bytes of one. */
    ghost predicate Aligned(mtu: nat) {
      && 0 < seg <= mtu
      && (forall k :: 0 <= k < |starts| ==> starts[k] == k * seg)
      && (starts == [] ==> len == cap == 0 && seg == mtu)
      && (starts != [] ==> Start() + Min(seg, INITIAL_MTU) <= cap <= Start() + seg)
    }

    /** The packet in progress and its tag fit; it is missing only before the first datagram. */
    ghost predicate Inv(mtu: nat) {
      && Aligned(mtu) && (|starts| == 1 ==> seg == mtu)
      && (starts == [] <==> builder.None?) && (starts == [] ==> !pad)
      && (builder.Some? ==>
            && Start() < len <= builder.value.maxSize && builder.value.minSize <= builder.value.maxSize
            && builder.value.maxSize + builder.value.tag == cap && builder.value.tag <= MIN_INITIAL_SIZE)
    }
  }

  // ---------------------------------------------------------------------------------------------
  // The steps of a turn

  /** Finishes the current datagram so that another can follow: from the second on it has to be a whole
      segment, and the first one sets the segment size. True if the batch ends here instead, because too
      much padding would be needed or the datagram was given less than a segment. */
  function Close(l: Layout): (Layout, bool)
    requires l.builder.Some?
  {
    var p := l.Padded();
    var whole := |l.starts| > 1 || l.padMtu;
    if whole && ((p.End() - l.Start() + MAX_PADDING < l.seg && !l.padMtu) || l.Start() + l.seg > l.cap) then (p, true)
    else
      var f := if whole then p.PadTo(l.seg).Finished() else p.Finished();
      (if |l.starts| == 1 then f.(seg := f.len, cap := f.len) else f, false)
  }

  /** Room for another datagram; a loss probe gets at most the smallest MTU. */
  function OpenNext(l: Layout, probe: bool): Layout {
    l.(cap := l.cap + if probe then Min(l.seg, INITIAL_MTU) else l.seg, starts := l.starts + [l.len],
       coalesce := true, pad := false)
  }

  /** Writes the header and the frames of a packet; frames stop at the builder's limit. */
  function Write(l: Layout, t: Turn): (Layout, Control)
    requires t.Packet?
  {
    if l.cap < l.len + MIN_PACKET_SPACE then (l, Asserted)
    else if t.refused then (l, Refused)
    else if l.len + t.header + t.minimum + t.tag > l.cap then (l, Asserted)
    else
      (l.(builder := Some(Builder(l.len + t.header + t.minimum, l.cap - t.tag, t.tag)),
          len := Min(l.len + t.header + t.want, l.cap - t.tag), coalesce := l.coalesce && !t.short, pad := l.pad || t.pad),
       if t.last then Break else Continue)
  }

  /** What the source asserts of the start of a datagram. */
  predicate OnBoundary(l: Layout) {
    l.seg > 0 && l.len % l.seg == 0
  }

  /** Nothing of what was to be sent fits into a segment of `seg` bytes. */
  predicate Shrinks(seg: nat, t: Turn)
    requires t.Packet?
  {
    t.rigid && t.least > Max(seg, t.overhead) - t.overhead
  }

  predicate NeedsDatagram(l: Layout, t: Turn)
    requires t.Packet?
  {
    !l.coalesce || l.cap < l.End() + MIN_PACKET_SPACE + t.tag
  }

  /** A packet that goes into a new datagram, unless something holds that back. */
  function Begin(l: Layout, t: Turn, env: Env): (Layout, Control)
    requires t.Packet?
  {
    if |l.starts| >= env.maxDatagrams || env.Blocked(l.seg * |l.starts| + 1) then (l, Break)
    else if !t.probe && t.gate.Congestion? then (l, Continue)
    else if !t.probe && t.gate.Pacing? then (l, Break)
    else if l.builder.None? then Write(OpenNext(l, t.probe), t)
    else
      var (c, stopped) := Close(l);
      if stopped || (|l.starts| == 1 && Shrinks(c.seg, t)) then (c, Break)
      else if !OnBoundary(c) then (c, Asserted)
      else Write(OpenNext(c, t.probe), t)
  }

  /** One turn: the next packet goes into the current datagram if there is room, else into a new one. */
  function Turned(l: Layout, t: Turn, env: Env): (Layout, Control) {
    if t.Idle? then (l, Continue) else
      var p := l.(padMtu := l.padMtu || t.padMtu);
      if NeedsDatagram(p, t) then Begin(p, t, env) else Write(p.Finished(), t)
  }

  /** The last packet of the batch. */
  function Finish(l: Layout): Layout {
    if l.builder.None? then l else
      var p := l.Padded();
      if l.padMtu && l.cap >= l.Start() + l.seg then p.PadTo(l.seg).Finished() else p.Finished()
  }

  // ---------------------------------------------------------------------------------------------
  // What a turn keeps

  ghost predicate WellSized(t: Turn) {
    t.Packet? ==> t.header > 0 && t.tag <= MIN_INITIAL_SIZE
  }

  /** The bytes before the current datagram leave some of the budget. */
  ghost predicate Permitted(l: Layout, env: Env) {
    l.starts != [] && !env.validated ==> env.sent + l.Start() < 3 * env.recvd
  }

  /** Between turns. */
  ghost predicate Good(l: Layout, env: Env) {
    l.Inv(env.mtu) && |l.starts| <= env.maxDatagrams && Permitted(l, env)
  }

  /** After the last turn: as between turns, or the first datagram was finished and is all there is. */
  ghost predicate Ended(l: Layout, env: Env) {
    Good(l, env) || (l.Aligned(env.mtu) && l.builder.None? && |l.starts| == 1 && l.len == l.cap == l.seg && !l.Cramped()
                         && Permitted(l, env))
  }

  /** Between packets: the current datagram is open. */
  ghost predicate Opened(l: Layout, env: Env) {
    && l.Aligned(env.mtu) && l.starts != [] && l.builder.None? && l.Start() <= l.len
    && (|l.starts| == 1 ==> l.seg == env.mtu) && |l.starts| <= env.maxDatagrams && Permitted(l, env)
  }

  /** Between datagrams: everything written is whole segments. */
  ghost predicate Closed(l: Layout, mtu: nat) {
    && 0 < l.seg <= mtu && l.builder.None? && l.len == l.cap == |l.starts| * l.seg
    && (forall k :: 0 <= k < |l.starts| ==> l.starts[k] == k * l.seg)
  }

  lemma NextStart(n: nat, seg: nat)
    ensures (n + 1) * seg == n * seg + seg
  {
  }

  lemma WriteKeeps(l: Layout, t: Turn, env: Env)
    requires Opened(l, env) && t.Packet? && WellSized(t)
    ensures var (r, c) := Write(l, t);
            && (c.Continue? || c.Break? ==> Good(r, env) && r.starts == l.starts && r.seg == l.seg && r.End() >= l.len)
            && (c.Refused? ==> t.refused)
  {
  }

  lemma OpenKeeps(l: Layout, probe: bool, env: Env)
    requires Closed(l, env.mtu) && |l.starts| < env.maxDatagrams && (l.starts == [] ==> l.seg == env.mtu)
    requires !env.validated ==> env.sent + l.len < 3 * env.recvd
    ensures Opened(OpenNext(l, probe), env)
  {
  }

  /** A datagram that is not cramped is closed on a segment boundary, or ends the batch as it is. */
  lemma CloseKeeps(l: Layout, env: Env)
    requires Good(l, env) && l.builder.Some? && !l.Cramped() && env.Valid()
    ensures var (c, stopped) := Close(l);
            && c.starts == l.starts && c.len <= l.Start() + l.seg
            && (stopped ==> Good(c, env) && !c.Cramped())
            && (!stopped ==> Closed(c, env.mtu) && l.Start() < c.len && (|l.starts| > 1 ==> c.seg == l.seg)
                             && (|l.starts| == 1 ==> c.len >= l.Padded().End() && !c.Cramped()))
  {
    PadKeeps(l, env.mtu);
    var p := l.Padded();
    NextStart(|l.starts| - 1, l.seg);
    hide Layout.PadTo, Layout.Padded;
    if l.Start() + l.seg <= l.cap {
      SegmentFills(p, env.mtu);
    }
  }

  lemma PadKeeps(l: Layout, mtu: nat)
    requires l.Inv(mtu) && l.builder.Some? && !l.Cramped()
    ensures l.Padded().Inv(mtu) && l.Padded() == l.(builder := l.Padded().builder) && l.Padded().builder.Some?
    ensures l.End() <= l.Padded().End() <= l.cap
    ensures l.pad ==> l.Padded().End() >= l.Start() + MIN_INITIAL_SIZE
  {
  }

  /** A datagram that was given a whole segment fills it once padded to it. */
  lemma SegmentFills(l: Layout, mtu: nat)
    requires l.Inv(mtu) && l.builder.Some? && l.Start() + l.seg <= l.cap
    ensures l.PadTo(l.seg).Finished() == l.(len := l.cap, builder := None) && l.cap == l.Start() + l.seg
  {
  }

  /** A cramped datagram is never the first; closing it leaves the buffer over its capacity. */
  lemma CrampedClose(l: Layout, env: Env)
    requires Good(l, env) && l.builder.Some? && l.Cramped() && env.Valid()
    ensures |l.starts| > 1 && l.seg < MIN_INITIAL_SIZE && l.cap == l.Start() + l.seg
    ensures var (c, stopped) := Close(l);
            !stopped && c == l.(len := l.Start() + MIN_INITIAL_SIZE, builder := None)
  {
    hide Layout.Aligned;
    CrampedSize(l, env.mtu);
  }

  lemma CrampedSize(l: Layout, mtu: nat)
    requires l.Inv(mtu) && l.builder.Some? && l.Cramped() && mtu >= MIN_INITIAL_SIZE
    ensures |l.starts| > 1 && l.seg < MIN_INITIAL_SIZE && l.cap == l.Start() + l.seg
  {
  }

  /** Two assertions of the source together catch a cramped datagram that is followed by another. */
  lemma CrampedAsserted(l: Layout, t: Turn, env: Env)
    requires Good(l, env) && l.builder.Some? && l.Cramped() && env.Valid() && t.Packet?
    ensures var (c, stopped) := Close(l);
            !OnBoundary(c) || Write(OpenNext(c, t.probe), t).1.Asserted?
  {
    CrampedClose(l, env);
    var c := Close(l).0;
    if OnBoundary(c) {
      HalfSegment(|l.starts| - 1, c.len / l.seg, l.seg);
    }
  }

  lemma HalfSegment(k: nat, q: nat, seg: nat)
    requires 0 < seg < MIN_INITIAL_SIZE && q * seg == k * seg + MIN_INITIAL_SIZE
    ensures 2 * seg <= MIN_INITIAL_SIZE
  {
    var d := q - k;
    assert d * seg == MIN_INITIAL_SIZE;
    Monotone(d, 1, seg);
    Monotone(2, d, seg);
  }

  lemma Monotone(a: int, b: int, seg: nat)
    ensures a <= b ==> a * seg <= b * seg
  {
  }

  lemma WholeSegments(l: Layout, mtu: nat)
    requires Closed(l, mtu)
    ensures OnBoundary(l)
  {
    Quotient(l.len, |l.starts|, l.seg);
  }

  lemma Quotient(x: nat, q: nat, seg: nat)
    requires seg > 0 && x == q * seg
    ensures x % seg == 0
  {
    var q', r := x / seg, x % seg;
    assert x == q' * seg + r;
    assert (q - q') * seg == r;
    Monotone(q - q', 0, seg);
    Monotone(1, q - q', seg);
  }

  predicate LetThrough(t: Turn) {
    t.Packet? && (t.probe || t.gate.Open?)
  }

  /** A first datagram that had to be padded makes segments of at least 1200 bytes. */
  lemma ClosePads(l: Layout, env: Env)
    requires Good(l, env) && l.builder.Some? && !l.Cramped() && env.Valid()
    ensures var (c, stopped) := Close(l);
            !stopped && |l.starts| == 1 ==> c.seg == c.len && (l.pad ==> c.len >= MIN_INITIAL_SIZE) && c.len >= l.End()
  {
    CloseKeeps(l, env);
    PadKeeps(l, env.mtu);
    hide Layout.PadTo, Layout.Padded, Layout.Inv;
  }

  lemma OpenRoom(l: Layout, probe: bool, env: Env)
    requires Closed(l, env.mtu)
    ensures OpenNext(l, probe).cap >= l.len + Min(l.seg, INITIAL_MTU)
  {
  }

  /** What became of a packet that needed a new datagram: it was held back, the batch ended, or it was written
      behind the closed datagrams `base`. */
  ghost predicate Outcome(l: Layout, t: Turn, env: Env, base: Layout)
    requires t.Packet?
  {
    var (r, c) := Begin(l, t, env);
    || (r == l && (c.Break? || (c.Continue? && !LetThrough(t))))
    || (c.Break? && Ended(r, env) && !r.Cramped())
    || (&& Begin(l, t, env) == Write(OpenNext(base, t.probe), t) && Opened(OpenNext(base, t.probe), env)
        && LetThrough(t) && base.starts == l.starts && OpenNext(base, t.probe).cap >= base.len + Min(base.seg, INITIAL_MTU)
        && (l.starts == [] ==> base == l && base.seg == env.mtu)
        && (|l.starts| == 1 ==> base.seg >= l.End() && (l.pad ==> base.seg >= MIN_INITIAL_SIZE) && !Shrinks(base.seg, t))
        && (|l.starts| > 1 ==> base.seg == l.seg))
  }

  lemma BeginOpens(l: Layout, t: Turn, env: Env) returns (base: Layout)
    requires Good(l, env) && t.Packet? && env.Valid() && !l.Cramped()
    ensures Outcome(l, t, env, base)
  {
    hide Close, Write, OpenNext, OnBoundary, Opened, Closed, Ended;
    base := l;
    if l.builder.None? {
      FirstCloses(l, env);
      if !env.Blocked(1) {
        assert l.seg * |l.starts| == 0;
        OpenKeeps(l, t.probe, env);
        OpenRoom(l, t.probe, env);
      }
    } else {
      CloseKeeps(l, env);
      ClosePads(l, env);
      SoFar(l, env);
      var (c, stopped) := Close(l);
      base := c;
      hide Layout.PadTo, Layout.Padded, Layout.Aligned;
      if stopped {
        GoodEnds(c, env);
      } else {
        WholeSegments(c, env.mtu);
        if |l.starts| == 1 {
          FirstAlone(l, c, env);
        }
        if |l.starts| < env.maxDatagrams && !env.Blocked(l.seg * |l.starts| + 1) {
          OpenKeeps(c, t.probe, env);
          OpenRoom(c, t.probe, env);
        }
      }
    }
  }

  lemma BeginKeeps(l: Layout, t: Turn, env: Env)
    requires Good(l, env) && t.Packet? && WellSized(t) && env.Valid()
    ensures var (r, c) := Begin(l, t, env);
            && (c.Continue? ==> Good(r, env)) && (c.Break? ==> Ended(r, env)) && (c.Refused? ==> t.refused)
  {
    GoodEnds(l, env);
    if l.builder.Some? && l.Cramped() {
      CrampedClose(l, env);
      CrampedAsserted(l, t, env);
    } else {
      assert !l.Cramped();
      hide Begin, Write, OpenNext, Opened, Good, Ended;
      var base := BeginOpens(l, t, env);
      if Opened(OpenNext(base, t.probe), env) {
        WriteKeeps(OpenNext(base, t.probe), t, env);
        GoodEnds(Write(OpenNext(base, t.probe), t).0, env);
      }
    }
  }

  lemma FirstCloses(l: Layout, env: Env)
    requires Good(l, env) && l.builder.None?
    ensures l.starts == [] && l.len == 0 && l.seg == env.mtu && Closed(l, env.mtu)
  {
  }

  /** The datagram in progress ends within as many segments as there are datagrams. */
  lemma SoFar(l: Layout, env: Env)
    requires Good(l, env) && l.builder.Some?
    ensures l.starts != [] && l.Start() + l.seg == l.seg * |l.starts|
  {
    NextStart(|l.starts| - 1, l.seg);
  }

  lemma FirstAlone(l: Layout, c: Layout, env: Env)
    requires Good(l, env) && l.builder.Some? && Closed(c, env.mtu) && c.starts == l.starts && |c.starts| == 1 && !c.Cramped()
    ensures Ended(c, env)
  {
  }

  lemma TurnKeeps(l: Layout, t: Turn, env: Env)
    requires Good(l, env) && WellSized(t) && env.Valid()
    ensures var (r, c) := Turned(l, t, env);
            && (c.Continue? ==> Good(r, env)) && (c.Break? ==> Ended(r, env)) && (c.Refused? ==> t.Packet? && t.refused)
  {
    if t.Packet? {
      var p := l.(padMtu := l.padMtu || t.padMtu);
      SameButPadMtu(l, p, env);
      hide Begin, Write, Opened, Good, Ended;
      if NeedsDatagram(p, t) {
        BeginKeeps(p, t, env);
      } else {
        CoalesceOpens(p, t, env);
        WriteKeeps(p.Finished(), t, env);
        GoodEnds(Write(p.Finished(), t).0, env);
      }
    } else {
      hide Good;
    }
  }

  lemma GoodEnds(l: Layout, env: Env)
    ensures Good(l, env) ==> Ended(l, env)
  {
  }

  lemma SameButPadMtu(l: Layout, p: Layout, env: Env)
    requires Good(l, env) && p == l.(padMtu := p.padMtu)
    ensures Good(p, env)
  {
  }

  /** A packet joins the datagram in progress only if there is one with room. */
  lemma CoalesceOpens(l: Layout, t: Turn, env: Env)
    requires Good(l, env) && t.Packet? && !NeedsDatagram(l, t)
    ensures l.builder.Some? && Opened(l.Finished(), env)
  {
  }

  // ---------------------------------------------------------------------------------------------
  // When an assertion fails

  /** The packet does not fit into `room` bytes. */
  predicate Tight(room: int, t: Turn)
    requires t.Packet?
  {
    room < MIN_PACKET_SPACE || (!t.refused && t.header + t.minimum + t.tag > room)
  }

  /** A new datagram is opened: nothing holds it back and the batch does not end. */
  predicate Opens(l: Layout, t: Turn, env: Env) {
    && LetThrough(t) && |l.starts| < env.maxDatagrams && !env.Blocked(l.seg * |l.starts| + 1)
    && (l.builder.Some? ==> !Close(l).1 && !(|l.starts| == 1 && Shrinks(Close(l).0.seg, t)))
  }

  /** What a new datagram is given: a segment, whose size the first datagram sets. */
  function NewRoom(l: Layout, probe: bool): nat {
    var seg := if l.builder.Some? then Close(l).0.seg else l.seg;
    if probe then Min(seg, INITIAL_MTU) else seg
  }

  /** A turn fails an assertion of the source if and only if its packet does not fit into what is left of the
      datagram, or a new datagram is opened that is too small for it or follows a cramped one. */
  lemma AssertedIff(l: Layout, t: Turn, env: Env)
    requires Good(l, env) && t.Packet? && env.Valid()
    ensures var p := l.(padMtu := l.padMtu || t.padMtu);
            Turned(l, t, env).1.Asserted?
            <==> if NeedsDatagram(p, t) then Opens(p, t, env) && (p.Cramped() || Tight(NewRoom(p, t.probe), t))
                 else Tight(p.cap - p.End(), t)
  {
    var p := l.(padMtu := l.padMtu || t.padMtu);
    SameButPadMtu(l, p, env);
    if NeedsDatagram(p, t) {
      hide Good, Turned;
      BeginAssertedIff(p, t, env);
    }
  }

  lemma BeginAssertedIff(l: Layout, t: Turn, env: Env)
    requires Good(l, env) && t.Packet? && env.Valid()
    ensures Begin(l, t, env).1.Asserted? <==> Opens(l, t, env) && (l.Cramped() || Tight(NewRoom(l, t.probe), t))
  {
    hide Close, OnBoundary, Layout.Inv, Layout.Aligned;
    if l.builder.None? {
      FirstCloses(l, env);
      NoneCramped(l, env);
    } else if l.Cramped() {
      CrampedClose(l, env);
      CrampedAsserted(l, t, env);
    } else {
      CloseKeeps(l, env);
      if !Close(l).1 {
        WholeSegments(Close(l).0, env.mtu);
      }
    }
  }

  lemma NoneCramped(l: Layout, env: Env)
    requires Good(l, env) && l.builder.None?
    ensures !l.Cramped() && l.cap == 0
  {
  }

  /** A turn that does not fail leaves a cramped datagram if and only if its packet has to be padded in a
      datagram, open or new, that was given fewer than 1200 bytes, or the datagram was cramped and stays. */
  lemma CrampedIff(l: Layout, t: Turn, env: Env)
    requires Good(l, env) && t.Packet? && env.Valid() && !Turned(l, t, env).1.Asserted? && !Turned(l, t, env).1.Refused?
    ensures var p := l.(padMtu := l.padMtu || t.padMtu);
            Turned(l, t, env).0.Cramped()
            <==> if NeedsDatagram(p, t) && Opens(p, t, env) then t.pad && NewRoom(p, t.probe) < MIN_INITIAL_SIZE
                 else p.Cramped() || (!NeedsDatagram(p, t) && t.pad && p.Start() + MIN_INITIAL_SIZE > p.cap)
  {
    var p := l.(padMtu := l.padMtu || t.padMtu);
    SameButPadMtu(l, p, env);
    if NeedsDatagram(p, t) {
      hide Good, Turned;
      BeginCrampedIff(p, t, env);
    }
  }

  lemma BeginCrampedIff(l: Layout, t: Turn, env: Env)
    requires Good(l, env) && t.Packet? && env.Valid() && !Begin(l, t, env).1.Asserted? && !Begin(l, t, env).1.Refused?
    ensures Begin(l, t, env).0.Cramped()
            <==> if Opens(l, t, env) then t.pad && NewRoom(l, t.probe) < MIN_INITIAL_SIZE else l.Cramped()
  {
    BeginAssertedIff(l, t, env);
    hide Close, OnBoundary, Layout.Inv, Layout.Aligned;
    if l.builder.None? {
      FirstCloses(l, env);
      NoneCramped(l, env);
    } else if l.Cramped() {
      CrampedClose(l, env);
    } else {
      CloseKeeps(l, env);
      if !Close(l).1 {
        WholeSegments(Close(l).0, env.mtu);
      }
    }
  }

  // ---------------------------------------------------------------------------------------------
  // Whole batches

  function Loop(l: Layout, turns: seq<Turn>, env: Env): (Layout, Control)
    decreases |turns|
  {
    if turns == [] then (l, Break) else
      var (r, c) := Turned(l, turns[0], env);
      if c.Continue? then Loop(r, turns[1..], env) else (r, c)
  }

  function Blank(mtu: nat): Layout {
    Layout(0, 0, [], mtu, true, None, false, false)
  }

  /** What `poll_transmit` leaves in the buffer, for any turns. */
  function Batch(turns: seq<Turn>, env: Env): (Layout, Control) {
    var (l, c) := Loop(Blank(env.mtu), turns, env);
    if c.Break? then (Finish(l), Break) else (l, c)
  }

  ghost predicate AllSized(turns: seq<Turn>) {
    forall i :: 0 <= i < |turns| ==> WellSized(turns[i])
  }

  lemma {:induction false} LoopKeeps(l: Layout, turns: seq<Turn>, env: Env)
    requires Good(l, env) && AllSized(turns) && env.Valid()
    ensures var (r, c) := Loop(l, turns, env);
            && !c.Continue? && (c.Break? ==> Ended(r, env))
            && (c.Refused? ==> exists i :: 0 <= i < |turns| && turns[i].Packet? && turns[i].refused)
    decreases |turns|
  {
    hide Good, Ended, Turned;
    GoodEnds(l, env);
    if turns != [] {
      TurnKeeps(l, turns[0], env);
      var (r, c) := Turned(l, turns[0], env);
      if c.Continue? {
        LoopKeeps(r, turns[1..], env);
        if Loop(r, turns[1..], env).1.Refused? {
          var i :| 0 <= i < |turns[1..]| && turns[1..][i].Packet? && turns[1..][i].refused;
          assert turns[i + 1].refused;
        }
      }
    }
  }

  lemma BlankGood(env: Env)
    requires env.Valid()
    ensures Good(Blank(env.mtu), env)
  {
  }

  /** The datagrams lie end to end: all but the last are exactly `seg` bytes long, and the last is not empty
      and at most a segment or, if it had to be padded, 1200 bytes long. */
  ghost predicate LaidOut(l: Layout, env: Env) {
    && |l.starts| <= env.maxDatagrams && 0 < l.seg <= env.mtu
    && (forall k :: 0 <= k < |l.starts| ==> l.starts[k] == k * l.seg)
    && (l.starts == [] ==> l.len == 0)
    && (l.starts != [] ==> l.Start() < l.len <= l.Start() + Max(l.seg, MIN_INITIAL_SIZE))
  }

  lemma FinishKeeps(l: Layout, env: Env)
    requires Ended(l, env) && env.Valid()
    ensures var f := Finish(l);
            && LaidOut(f, env) && Permitted(f, env) && f.starts == l.starts && f.cap == l.cap && f.pad == l.pad && f.seg == l.seg
            && (f.starts != [] ==> (f.len <= f.cap && f.len <= f.Start() + f.seg <==> !f.Cramped()))
  {
    if Good(l, env) && l.builder.Some? {
      FinishEnds(l, env);
      hide Finish, Layout.Inv;
    }
  }

  /** Where the last packet ends. */
  lemma FinishEnds(l: Layout, env: Env)
    requires Good(l, env) && l.builder.Some? && env.Valid()
    ensures Finish(l) == l.(len := Finish(l).len, builder := None) && l.Start() < Finish(l).len
    ensures l.Cramped() ==> Finish(l).len == l.Start() + MIN_INITIAL_SIZE > l.cap
    ensures !l.Cramped() ==> Finish(l).len <= l.cap
  {
    if l.Cramped() {
      CrampedSize(l, env.mtu);
    } else {
      PadKeeps(l, env.mtu);
      hide Layout.PadTo, Layout.Padded;
      if l.Start() + l.seg <= l.cap {
        SegmentFills(l.Padded(), env.mtu);
      }
    }
  }

  /** Every batch: alignment and sizes; the last datagram is within its segment and the capacity if and only
      if it did not have to reach 1200 bytes with less; and the anti-amplification budget holds even then. */
  lemma BatchLaidOut(turns: seq<Turn>, env: Env)
    requires AllSized(turns) && env.Valid()
    ensures var (l, c) := Batch(turns, env);
            && !c.Continue?
            && (c.Refused? ==> exists i :: 0 <= i < |turns| && turns[i].Packet? && turns[i].refused)
            && (c.Break? ==> LaidOut(l, env) && (!env.validated && l.len > 0 ==> env.sent + l.len < 3 * env.recvd + env.mtu))
            && (c.Break? && l.starts != [] ==> (l.len <= l.cap && l.len <= l.Start() + l.seg <==> !l.Cramped()))
  {
    BlankGood(env);
    LoopKeeps(Blank(env.mtu), turns, env);
    var (l, c) := Loop(Blank(env.mtu), turns, env);
    if c.Break? {
      FinishKeeps(l, env);
    }
    hide Good, Ended, Finish, Loop, Blank;
  }

  // ---------------------------------------------------------------------------------------------
  // When nothing goes wrong: padding is asked for first, and packets fit the room that is asserted

  predicate NoPad(turns: seq<Turn>) {
    forall i :: 0 <= i < |turns| && turns[i].Packet? ==> !turns[i].pad
  }

  /** Only packets that are padded themselves come before one that has to be, as Initial packets come first. */
  predicate PadsFirst(turns: seq<Turn>) {
    forall i, j :: 0 <= i < j < |turns| && turns[i].Packet? && turns[j].Packet? && turns[j].pad ==> turns[i].pad
  }

  /** Padding still to come will find 1200 bytes. */
  ghost predicate Tidy(l: Layout, turns: seq<Turn>) {
    && (|l.starts| == 1 ==> l.pad || NoPad(turns))
    && (|l.starts| > 1 ==> l.seg >= MIN_INITIAL_SIZE || (NoPad(turns) && !l.pad))
  }

  lemma TidyFits(l: Layout, turns: seq<Turn>, env: Env)
    requires Good(l, env) && Tidy(l, turns) && env.Valid()
    ensures !l.Cramped()
  {
  }

  lemma TidyAfter(turns: seq<Turn>)
    requires turns != [] && PadsFirst(turns)
    ensures PadsFirst(turns[1..]) && (NoPad(turns) ==> NoPad(turns[1..]))
    ensures turns[0].Packet? && !turns[0].pad ==> NoPad(turns[1..])
    ensures NoPad(turns) && turns[0].Packet? ==> !turns[0].pad
  {
    forall i | 0 <= i < |turns[1..]| && turns[1..][i].Packet? && turns[0].Packet? && !turns[0].pad
      ensures !turns[1..][i].pad
    {
      assert turns[1..][i] == turns[i + 1];
    }
  }

  /** A packet is written into a tidy datagram. */
  lemma TidyWrite(l: Layout, turns: seq<Turn>, env: Env)
    requires Opened(l, env) && env.Valid() && turns != [] && turns[0].Packet? && WellSized(turns[0]) && PadsFirst(turns)
    requires |l.starts| > 1 ==> l.seg >= MIN_INITIAL_SIZE || (NoPad(turns) && !l.pad)
    ensures var (r, c) := Write(l, turns[0]);
            && (c.Continue? ==> Tidy(r, turns[1..])) && (c.Break? ==> !r.Cramped())
  {
    TidyAfter(turns);
    WriteKeeps(l, turns[0], env);
    hide NoPad, PadsFirst, Good, Opened;
    var (r, c) := Write(l, turns[0]);
    if c.Continue? || c.Break? {
      assert Tidy(r, turns[1..]);
      TidyFits(r, turns[1..], env);
    }
  }

  lemma TidyTurn(l: Layout, turns: seq<Turn>, env: Env)
    requires Good(l, env) && env.Valid() && turns != [] && WellSized(turns[0]) && PadsFirst(turns) && Tidy(l, turns)
    ensures var (r, c) := Turned(l, turns[0], env);
            && (c.Continue? ==> Tidy(r, turns[1..])) && (c.Break? ==> !r.Cramped())
  {
    var t := turns[0];
    TidyAfter(turns);
    hide NoPad, PadsFirst, Good, Opened, Write, Begin;
    if t.Packet? {
      var p := l.(padMtu := l.padMtu || t.padMtu);
      SameButPadMtu(l, p, env);
      if NeedsDatagram(p, t) {
        TidyBegin(p, turns, env);
      } else {
        CoalesceOpens(p, t, env);
        TidyWrite(p.Finished(), turns, env);
      }
    }
  }

  lemma TidyBegin(p: Layout, turns: seq<Turn>, env: Env)
    requires Good(p, env) && env.Valid() && turns != [] && turns[0].Packet? && WellSized(turns[0])
    requires PadsFirst(turns) && Tidy(p, turns)
    ensures var (r, c) := Begin(p, turns[0], env);
            && (c.Continue? ==> Tidy(r, turns[1..])) && (c.Break? ==> !r.Cramped())
  {
    var t := turns[0];
    TidyAfter(turns);
    TidyFits(p, turns, env);
    hide NoPad, PadsFirst, Begin, Write, Opened, Good, Ended;
    var base := BeginOpens(p, t, env);
    var next := OpenNext(base, t.probe);
    if Opened(next, env) && (|next.starts| > 1 ==> next.seg >= MIN_INITIAL_SIZE || (NoPad(turns) && !next.pad)) {
      TidyWrite(next, turns, env);
    }
  }

  lemma {:induction false} LoopTidy(l: Layout, turns: seq<Turn>, env: Env)
    requires Good(l, env) && AllSized(turns) && env.Valid() && PadsFirst(turns) && Tidy(l, turns)
    ensures Loop(l, turns, env).1.Break? ==> !Loop(l, turns, env).0.Cramped()
    decreases |turns|
  {
    TidyFits(l, turns, env);
    hide Good, Ended, Turned, Tidy, PadsFirst;
    if turns != [] {
      TidyTurn(l, turns, env);
      TurnKeeps(l, turns[0], env);
      TidyAfter(turns);
      if Turned(l, turns[0], env).1.Continue? {
        LoopTidy(Turned(l, turns[0], env).0, turns[1..], env);
      }
    }
  }

  // The room for a packet

  /** The sizes the minimum packet space is made for. */
  predicate Modest(t: Turn) {
    t.Packet? ==> 0 < t.header && t.header + t.minimum <= MIN_PACKET_SPACE && t.tag <= MAX_TAG
  }

  const MAX_TAG := 16

  /** The frames of a packet that follows a packet with a short header did not fit behind those of that one.
      Frames other than application datagrams can always be started in less than a datagram. */
  predicate Spilled(l: Layout, t: Turn) {
    t.Packet? && l.builder.Some? && !l.coalesce ==>
      l.len + t.least >= l.builder.value.maxSize && (t.rigid || t.least <= MAX_START)
  }

  const MAX_START := MIN_INITIAL_SIZE - MIN_PACKET_SPACE - MAX_TAG

  /** Along the batch, packets are filled as far as frames fit. */
  ghost predicate Drained(l: Layout, turns: seq<Turn>, env: Env)
    decreases |turns|
  {
    turns != [] ==>
      Spilled(l, turns[0])
      && (Turned(l, turns[0], env).1.Continue? ==> Drained(Turned(l, turns[0], env).0, turns[1..], env))
  }

  /** What the frames and headers of a connection look like. */
  ghost predicate Natural(turns: seq<Turn>, env: Env) {
    (forall i :: 0 <= i < |turns| ==> Modest(turns[i])) && Drained(Blank(env.mtu), turns, env)
  }

  /** Another datagram would have room for a packet. */
  ghost predicate BigEnough(l: Layout) {
    |l.starts| > 1 ==> l.seg >= MIN_PACKET_SPACE + MAX_TAG
  }

  /** With that much room nothing is asserted. */
  lemma RoomyWrite(l: Layout, t: Turn, env: Env)
    requires Opened(l, env) && t.Packet? && Modest(t) && l.len + MIN_PACKET_SPACE + t.tag <= l.cap
    ensures var (r, c) := Write(l, t);
            !c.Asserted? && (c.Continue? ==> r.starts == l.starts && r.seg == l.seg)
  {
  }

  lemma RoomyTurn(l: Layout, t: Turn, env: Env)
    requires Good(l, env) && env.Valid() && Modest(t) && !l.Cramped() && BigEnough(l) && Spilled(l, t)
    ensures var (r, c) := Turned(l, t, env);
            !c.Asserted? && (c.Continue? ==> BigEnough(r))
  {
    hide Opened, Good, Write, Begin;
    if t.Packet? {
      var p := l.(padMtu := l.padMtu || t.padMtu);
      SameButPadMtu(l, p, env);
      if NeedsDatagram(p, t) {
        RoomyBegin(p, t, env);
      } else {
        CoalesceOpens(p, t, env);
        RoomyWrite(p.Finished(), t, env);
      }
    }
  }

  /** A first datagram that is followed by another makes segments with room for a packet: it was full, or what
      did not fit into it fits into another of its size. */
  lemma FirstIsLarge(l: Layout, t: Turn, env: Env, seg: nat)
    requires Good(l, env) && env.Valid() && t.Packet? && Modest(t) && |l.starts| == 1
    requires NeedsDatagram(l, t) && Spilled(l, t) && seg >= l.End() && !Shrinks(seg, t)
    ensures seg >= MIN_PACKET_SPACE + MAX_TAG
  {
  }

  lemma RoomyBegin(p: Layout, t: Turn, env: Env)
    requires Good(p, env) && env.Valid() && t.Packet? && Modest(t)
    requires !p.Cramped() && BigEnough(p) && NeedsDatagram(p, t) && Spilled(p, t)
    ensures var (r, c) := Begin(p, t, env);
            !c.Asserted? && (c.Continue? ==> BigEnough(r))
  {
    hide LetThrough, Begin, Write, Opened, Good, Ended, NeedsDatagram, Spilled, Shrinks;
    var base := BeginOpens(p, t, env);
    var next := OpenNext(base, t.probe);
    if Opened(next, env) {
      if |p.starts| == 1 && base.seg >= p.End() && !Shrinks(base.seg, t) {
        FirstIsLarge(p, t, env, base.seg);
      }
      if next.len + MIN_PACKET_SPACE + t.tag <= next.cap {
        RoomyWrite(next, t, env);
      }
    }
  }

  lemma {:induction false} LoopRoomy(l: Layout, turns: seq<Turn>, env: Env)
    requires Good(l, env) && env.Valid() && (forall i :: 0 <= i < |turns| ==> Modest(turns[i]))
    requires PadsFirst(turns) && Tidy(l, turns) && BigEnough(l) && Drained(l, turns, env)
    ensures !Loop(l, turns, env).1.Asserted?
    decreases |turns|
  {
    TidyFits(l, turns, env);
    hide Good, Ended, Turned, Tidy, PadsFirst, BigEnough;
    if turns != [] {
      assert WellSized(turns[0]);
      RoomyTurn(l, turns[0], env);
      TidyTurn(l, turns, env);
      TurnKeeps(l, turns[0], env);
      TidyAfter(turns);
      if Turned(l, turns[0], env).1.Continue? {
        LoopRoomy(Turned(l, turns[0], env).0, turns[1..], env);
      }
    }
  }

  // ---------------------------------------------------------------------------------------------
  // The results

  /** If padding is asked for first, every datagram of every batch is within its segment and the capacity. */
  lemma PaddedBatch(turns: seq<Turn>, env: Env)
    requires AllSized(turns) && env.Valid() && PadsFirst(turns)
    ensures var (l, c) := Batch(turns, env);
            c.Break? && l.starts != [] ==> l.len <= l.cap && l.len <= l.Start() + l.seg
  {
    BlankGood(env);
    LoopTidy(Blank(env.mtu), turns, env);
    LoopKeeps(Blank(env.mtu), turns, env);
    BatchLaidOut(turns, env);
    var (l, c) := Loop(Blank(env.mtu), turns, env);
    if c.Break? {
      FinishKeeps(l, env);
    }
    hide Good, Ended, Finish, Loop;
  }

  /** If moreover packets have the sizes the minimum packet space is made for and are filled as far as frames
      fit, no assertion fails: the batch is returned unless the keys are used up. */
  lemma RoomyBatch(turns: seq<Turn>, env: Env)
    requires env.Valid() && PadsFirst(turns) && Natural(turns, env)
    ensures var c := Batch(turns, env).1;
            c.Break? || (c.Refused? && exists i :: 0 <= i < |turns| && turns[i].Packet? && turns[i].refused)
  {
    assert forall i :: 0 <= i < |turns| ==> Modest(turns[i]) && WellSized(turns[i]);
    BlankGood(env);
    hide Good, Loop, LaidOut, Drained;
    LoopRoomy(Blank(env.mtu), turns, env);
    BatchLaidOut(turns, env);
  }

  /** Something is sent if the first packet is let through and the budget is not used up. */
  lemma BatchSends(turns: seq<Turn>, env: Env)
    requires AllSized(turns) && env.Valid() && turns != [] && LetThrough(turns[0]) && !env.Blocked(1)
    ensures var (l, c) := Batch(turns, env);
            c.Break? ==> l.len > 0
  {
    BlankGood(env);
    BatchLaidOut(turns, env);
    var b := Blank(env.mtu);
    assert b.(padMtu := b.padMtu || turns[0].padMtu).starts == [];
    assert Turned(b, turns[0], env).1.Asserted? || Turned(b, turns[0], env).0.starts != [];
    hide Good, Turned, LetThrough, Finish, Blank;
    LoopGrows(b, turns, env);
    var (r, c) := Turned(b, turns[0], env);
    if c.Continue? {
      LoopGrows(r, turns[1..], env);
    }
  }

  lemma {:induction false} LoopGrows(l: Layout, turns: seq<Turn>, env: Env)
    ensures l.starts != [] ==> Loop(l, turns, env).0.starts != []
    ensures Finish(Loop(l, turns, env).0).starts == Loop(l, turns, env).0.starts
    decreases |turns|
  {
    hide Turned, Finish;
    FinishStarts(Loop(l, turns, env).0);
    if turns != [] {
      TurnStarts(l, turns[0], env);
      if Turned(l, turns[0], env).1.Continue? {
        LoopGrows(Turned(l, turns[0], env).0, turns[1..], env);
      }
    }
  }

  lemma FinishStarts(l: Layout)
    ensures Finish(l).starts == l.starts
  {
  }

  lemma CloseStarts(l: Layout)
    requires l.builder.Some?
    ensures Close(l).0.starts == l.starts
  {
  }

  lemma WriteStarts(l: Layout, t: Turn)
    requires t.Packet?
    ensures Write(l, t).0.starts == l.starts
  {
  }

  lemma TurnStarts(l: Layout, t: Turn, env: Env)
    ensures l.starts != [] ==> Turned(l, t, env).0.starts != []
  {
    hide Close, Write, OnBoundary, NeedsDatagram, Env.Blocked;
    if t.Packet? {
      var p := l.(padMtu := l.padMtu || t.padMtu);
      WriteStarts(p.Finished(), t);
      WriteStarts(OpenNext(p, t.probe), t);
      if p.builder.Some? {
        CloseStarts(p);
        WriteStarts(OpenNext(Close(p).0, t.probe), t);
      }
    }
  }

  /** Without that order, a Handshake packet of 1110 bytes and then a 1-RTT packet that has to be padded make a
      second datagram of 1200 bytes in segments of 1110. */
  lemma LatePadding()
    ensures var first := Packet(16, 30, 4, 1064, false, Gate.Open, false, false, 30, 1, false, false, false, false);
            var second := first.(want := 100, pad := true, short := true);
            var env := Env(1200, 2, true, 0, 0);
            var (l, c) := Batch([first, second], env);
            && Natural([first, second], env)
            && c.Break? && l.starts == [0, 1110] && l.seg == 1110 && l.len == 2310 && l.cap == 2220
  {
    var first := Packet(16, 30, 4, 1064, false, Gate.Open, false, false, 30, 1, false, false, false, false);
    var second := first.(want := 100, pad := true, short := true);
    var env := Env(1200, 2, true, 0, 0);
    var l1 := Layout(1094, 1200, [0], 1200, true, Some(Builder(34, 1184, 16)), false, false);
    assert [] + [0] == [0];
    assert OpenNext(Blank(1200), false) == Layout(0, 1200, [0], 1200, true, None, false, false);
    assert Turned(Blank(1200), first, env) == (l1, Continue);
    var l2 := Layout(1240, 2220, [0, 1110], 1110, false, Some(Builder(1144, 2204, 16)), true, false);
    assert Close(l1) == (Layout(1110, 1110, [0], 1110, true, None, false, false), false);
    assert [0] + [1110] == [0, 1110];
    assert OpenNext(Close(l1).0, false) == Layout(1110, 2220, [0, 1110], 1110, true, None, false, false);
    assert Turned(l1, second, env) == (l2, Continue);
    LoopTwo(Blank(1200), l1, l2, first, second, env);
    assert Finish(l2).len == 2310;
    assert [first, second][1..] == [second] && [second][1..] == [];
    assert Drained(l1, [second], env);
  }

  lemma LoopTwo(l: Layout, l1: Layout, l2: Layout, a: Turn, b: Turn, env: Env)
    requires Turned(l, a, env) == (l1, Continue) && Turned(l1, b, env) == (l2, Continue)
    ensures Loop(l, [a, b], env) == (l2, Break)
  {
    hide Turned;
    assert [a, b][1..] == [b] && [b][1..] == [];
    assert Loop(l1, [b], env) == Loop(l2, [], env);
  }

  /** One path of a connection before it is established, with a fixed MTU. */
  class Path {
    const mtu: nat
    var validated: bool
    var totalSent: nat
    var totalRecvd: nat

    constructor (mtu: nat)
      requires mtu >= MIN_INITIAL_SIZE
      ensures Budget() && this.mtu == mtu
    {
      this.mtu, validated, totalSent, totalRecvd := mtu, false, 0, 0;
    }

    /** An unvalidated peer is sent less than three times what it sent, plus one MTU. */
    ghost predicate Budget()
      reads this
    {
      mtu >= MIN_INITIAL_SIZE && (!validated ==> totalSent < 3 * totalRecvd + mtu)
    }

    method Receive(len: nat)
      requires Budget()
      modifies this`totalRecvd
      ensures Budget() && totalRecvd == old(totalRecvd) + len
    {
      totalRecvd := totalRecvd + len;
    }

    method Validate()
      requires Budget()
      modifies this`validated
      ensures Budget() && validated
    {
      validated := true;
    }

    /** `poll_transmit`: exactly the batch the turns make, counted on the path if it is sent, and laid out in
        whole segments. */
    method PollTransmit(turns: seq<Turn>, maxDatagrams: nat) returns (l: Layout, control: Control)
      requires Budget() && maxDatagrams > 0 && AllSized(turns)
      modifies this`totalSent
      ensures (l, control) == Batch(turns, Env(mtu, maxDatagrams, validated, old(totalSent), totalRecvd))
      ensures totalSent == old(totalSent) + if control.Break? then l.len else 0
      ensures Budget()
      ensures control.Break? ==> LaidOut(l, Env(mtu, maxDatagrams, validated, old(totalSent), totalRecvd))
      ensures PadsFirst(turns) && control.Break? && l.starts != [] ==> l.len <= l.cap && l.len <= l.Start() + l.seg
      ensures PadsFirst(turns) && Natural(turns, Env(mtu, maxDatagrams, validated, old(totalSent), totalRecvd)) ==>
                control.Break? || control.Refused?
    {
      hide Turned, Finish, LaidOut, PadsFirst, Natural;
      var env := Env(mtu, maxDatagrams, validated, totalSent, totalRecvd);
      BatchLaidOut(turns, env);
      if PadsFirst(turns) {
        PaddedBatch(turns, env);
        if Natural(turns, env) {
          RoomyBatch(turns, env);
        }
      }
      l, control := Blank(mtu), Continue;
      var i := 0;
      assert turns[0..] == turns;
      while i < |turns| && control.Continue?
        invariant 0 <= i <= |turns|
        invariant Loop(Blank(mtu), turns, env) == if control.Continue? then Loop(l, turns[i..], env) else (l, control)
        decreases |turns| - i
      {
        assert turns[i..][1..] == turns[i + 1..];
        l, control := Turned(l, turns[i], env).0, Turned(l, turns[i], env).1;
        i := i + 1;
      }
      if control.Continue? {
        control := Break;
      }
      if control.Break? {
        l := Finish(l);
        totalSent := totalSent + l.len;
      }
    }
  }
}
