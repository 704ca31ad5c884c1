/** Loss detection in one packet number space (sections 6.1 and 7.6 of RFC 9002). Times and durations are
    integers; the loss delay, the congestion period and the drain period are given. */
module LossDetection {
  import opened Basics

  datatype Sent = Sent(timeSent: nat, size: nat, ackEliciting: bool)

  /** What one pass looks at: the tracked packets, the largest acknowledged one, the two loss thresholds,
      the MTU probe in flight, and what persistent congestion needs: the period, and the space and next
      packet number at the time of the first RTT sample, if there was one. */
  datatype Pass = Pass(sent: map<nat, Sent>, largestAcked: nat, now: nat, lossDelay: nat, packetThreshold: nat,
                       probe: Option<nat>, dueToAck: bool, period: nat, space: nat, sample: Option<(nat, nat)>)
  {
    function Elapsed(time: nat): nat {
      if time < now then now - time else 0
    }

    /** Tracked, below the largest acknowledged packet, and past one of the two thresholds. */
    predicate Deemed(p: nat) {
      && p in sent && p < largestAcked
      && (Elapsed(sent[p].timeSent) >= lossDelay || largestAcked >= p + packetThreshold)
    }

    /** Lost packets other than the MTU probe, which is handled on its own. */
    predicate Lost(p: nat) {
      Deemed(p) && probe != Some(p)
    }

    predicate Kept(p: nat) {
      p in sent && p < largestAcked && !Deemed(p)
    }

    function Deadline(p: nat): nat
      requires p in sent
    {
      sent[p].timeSent + lossDelay
    }

    predicate Counts(p: nat) {
      Lost(p) && sent[p].ackEliciting && dueToAck
    }

    /** A packet persistent congestion can start from. */
    predicate Opens(p: nat) {
      && Counts(p) && sample.Some?
      && (sample.value.0 < space || (sample.value.0 == space && sample.value.1 < p))
    }

    /** Consecutive packet numbers, all tracked and all deemed lost: nothing in between was acknowledged. */
    ghost predicate Run(a: nat, b: nat) {
      a <= b && forall k: nat :: a <= k <= b ==> Deemed(k)
    }

    /** Persistent congestion: an unbroken run of losses whose ack-eliciting ends were sent more than the
        period apart, all after the first RTT sample. */
    ghost predicate Congested(a: nat, b: nat) {
      a < b && Run(a, b) && Opens(a) && Counts(b) && sent[b].timeSent - sent[a].timeSent > period
    }

    /** Packets are sent in the order of their numbers. */
    ghost predicate Ordered() {
      forall i, j :: i in sent && j in sent && i < j ==> sent[i].timeSent <= sent[j].timeSent
    }

    /** The lost packets below `n`, in ascending order. */
    ghost predicate Lists(lost: seq<nat>, n: nat) {
      && (forall i :: 0 <= i < |lost| ==> lost[i] < n && Lost(lost[i]))
      && (forall i, j :: 0 <= i < j < |lost| ==> lost[i] < lost[j])
      && (forall p: nat :: p < n && Lost(p) ==> p in lost)
    }

    /** The earliest deadline of a packet below `n` that is kept. */
    ghost predicate Earliest(time: Option<nat>, n: nat) {
      && (time.None? <==> forall p: nat :: p < n ==> !Kept(p))
      && (time.Some? ==> exists p: nat :: p < n && Kept(p) && Deadline(p) == time.value)
      && (time.Some? ==> forall p: nat :: p < n && Kept(p) ==> time.value <= Deadline(p))
    }

    /** What the scan knows about the current run of losses: its last tracked packet `prev` and the first
        packet `a` that persistent congestion could have started from. */
    ghost predicate Running(prev: Option<nat>, start: Option<nat>, a: nat, n: nat) {
      && (prev.Some? ==> prev.value < n && prev.value in sent && forall k: nat :: prev.value < k < n ==> k !in sent)
      && (prev.None? ==> start.None? && forall k: nat :: k < n ==> k !in sent)
      && (start.Some? ==> Run(a, prev.value) && Opens(a) && start.value == sent[a].timeSent)
      && (forall c: nat :: prev.Some? && Opens(c) && Run(c, prev.value) ==> start.Some? && a <= c)
    }

    /** The verdict so far. */
    ghost predicate Verdict(persistent: bool, n: nat) {
      && (persistent ==> exists a: nat, b: nat :: b < n && Congested(a, b))
      && (Ordered() ==> forall a: nat, b: nat :: b < n && Congested(a, b) ==> persistent)
    }

    function SizeOf(lost: seq<nat>): nat {
      if lost == [] then 0
      else
        var p := lost[|lost| - 1];
        SizeOf(lost[..|lost| - 1]) + if p in sent then sent[p].size else 0
    }

    // Steps of the scan over packet `n`

    lemma ListsStep(lost: seq<nat>, n: nat)
      requires Lists(lost, n)
      ensures Lists(if Lost(n) then lost + [n] else lost, n + 1)
    {
      hide Lost;
    }

    lemma EarliestStep(time: Option<nat>, n: nat)
      requires Earliest(time, n)
      ensures !Kept(n) ==> Earliest(time, n + 1)
      ensures Kept(n) ==> Earliest(Some(if time.None? then Deadline(n) else Min(time.value, Deadline(n))), n + 1)
    {
      hide Deemed;
      if Kept(n) {
        var next := if time.None? then Deadline(n) else Min(time.value, Deadline(n));
        if next != Deadline(n) {
          var p: nat :| p < n && Kept(p) && Deadline(p) == time.value;
          assert p < n + 1;
        }
      } else if time.Some? {
        var p: nat :| p < n && Kept(p) && Deadline(p) == time.value;
        assert p < n + 1;
      }
    }

    lemma RunExtends(a: nat, n: nat)
      ensures Run(a, n + 1) <==> a <= n + 1 && Deemed(n + 1) && (a == n + 1 || Run(a, n))
    {
      hide Deemed;
    }

    /** The run a tracked packet `n` continues: nothing if a number was missing before it. */
    function Carried(prev: Option<nat>, start: Option<nat>, n: nat): Option<nat> {
      if prev.Some? && prev.value + 1 == n then start else None
    }

    /** The start after packet `n`. */
    function NextStart(prev: Option<nat>, start: Option<nat>, n: nat): Option<nat>
      requires n in sent
    {
      var carried := Carried(prev, start, n);
      if !Deemed(n) then None
      else if Opens(n) && carried.None? then Some(sent[n].timeSent)
      else carried
    }

    lemma SkipStep(prev: Option<nat>, start: Option<nat>, a: nat, n: nat)
      requires n !in sent && Running(prev, start, a, n)
      ensures Running(prev, start, a, n + 1)
    {
      hide Opens, Run;
    }

    lemma RunningStep(prev: Option<nat>, start: Option<nat>, a: nat, n: nat)
      requires n in sent && Running(prev, start, a, n)
      ensures var carried := Carried(prev, start, n);
              Running(Some(n), NextStart(prev, start, n), if carried.None? then n else a, n + 1)
    {
      var carried := Carried(prev, start, n);
      var next := NextStart(prev, start, n);
      var a' := if carried.None? then n else a;
      forall c: nat
        ensures Run(c, n) ==> Deemed(n) && (c == n || (prev.Some? && prev.value + 1 == n && Run(c, prev.value)))
      {
        if Run(c, n) && c < n {
          assert Deemed(n - 1);
          RunExtends(c, n - 1);
        }
      }
      if next.Some? {
        if carried.None? {
          assert Run(n, n);
        } else {
          RunExtends(a, n - 1);
        }
      }
      hide Run, Deemed, Lost;
    }

    /** Persistent congestion seen at `n` is what the definition says, and with ordered send times none is
        missed. */
    lemma VerdictStep(persistent: bool, prev: Option<nat>, start: Option<nat>, a: nat, n: nat)
      requires n in sent && Running(prev, start, a, n) && Verdict(persistent, n)
      ensures var carried := Carried(prev, start, n);
              var seen := Counts(n) && carried.Some? && sent[n].timeSent - carried.value > period;
              Verdict(persistent || seen, n + 1)
    {
      var carried := Carried(prev, start, n);
      var seen := Counts(n) && carried.Some? && sent[n].timeSent - carried.value > period;
      if seen {
        RunExtends(a, n - 1);
        assert Congested(a, n);
      }
      if Ordered() {
        forall c: nat | Congested(c, n)
          ensures persistent || seen
        {
          RunExtends(c, n - 1);
          assert Deemed(n - 1);
          assert prev == Some(n - 1);
          assert Run(c, prev.value);
        }
      }
    }
  }

  /** The loop of `detect_lost_packets` over the tracked packets in ascending order. */
  method Scan(pass: Pass) returns (lost: seq<nat>, lostProbe: Option<nat>, size: nat, lossTime: Option<nat>, persistent: bool)
    ensures pass.Lists(lost, pass.largestAcked) && size == pass.SizeOf(lost)
    ensures lostProbe == if pass.probe.Some? && pass.Deemed(pass.probe.value) then pass.probe else None
    ensures pass.Earliest(lossTime, pass.largestAcked)
    ensures pass.Verdict(persistent, pass.largestAcked)
  {
    hide Pass.Lists, Pass.Earliest, Pass.Running, Pass.Verdict;
    lost, lostProbe, size, lossTime, persistent := [], None, 0, None, false;
    var start: Option<nat> := None;
    var prev: Option<nat> := None;
    ghost var a: nat := 0;
    ScanBegins(pass);
    for packet := 0 to pass.largestAcked
      invariant pass.Lists(lost, packet) && size == pass.SizeOf(lost)
      invariant lostProbe == if pass.probe.Some? && pass.probe.value < packet && pass.Deemed(pass.probe.value) then pass.probe else None
      invariant pass.Earliest(lossTime, packet)
      invariant pass.Running(prev, start, a, packet)
      invariant pass.Verdict(persistent, packet)
    {
      pass.ListsStep(lost, packet);
      pass.EarliestStep(lossTime, packet);
      if packet in pass.sent {
        ghost var before, start0, prev0 := persistent, start, prev;
        pass.RunningStep(prev, start, a, packet);
        pass.VerdictStep(persistent, prev, start, a, packet);
        var info := pass.sent[packet];
        if prev != Some(packet - 1) {
          start := None;
        }
        a := if start.None? then packet else a;
        if pass.Elapsed(info.timeSent) >= pass.lossDelay || pass.largestAcked >= packet + pass.packetThreshold {
          if pass.probe == Some(packet) {
            lostProbe := pass.probe;
          } else {
            lost := lost + [packet];
            assert lost[..|lost| - 1] + [packet] == lost;
            size := size + info.size;
            if info.ackEliciting && pass.dueToAck {
              if start.Some? {
                persistent := persistent || info.timeSent - start.value > pass.period;
              } else if pass.sample.Some?
                && (pass.sample.value.0 < pass.space || (pass.sample.value.0 == pass.space && pass.sample.value.1 < packet)) {
                start := Some(info.timeSent);
              }
            }
          }
        } else {
          var deadline := info.timeSent + pass.lossDelay;
          lossTime := Some(if lossTime.None? then deadline else Min(lossTime.value, deadline));
          start := None;
        }
        prev := Some(packet);
      } else {
        pass.SkipStep(prev, start, a, packet);
        SkipVerdict(pass, persistent, packet);
      }
    }
  }

  lemma ScanBegins(pass: Pass)
    ensures pass.Lists([], 0) && pass.Earliest(None, 0) && pass.Running(None, None, 0, 0) && pass.Verdict(false, 0)
  {
  }

  lemma SkipVerdict(pass: Pass, persistent: bool, n: nat)
    requires n !in pass.sent && pass.Verdict(persistent, n)
    ensures pass.Verdict(persistent, n + 1)
  {
    if persistent {
      var a: nat, b: nat :| b < n && pass.Congested(a, b);
      assert b < n + 1;
    }
  }

  const DATA := 2

  /** The packet spaces of a connection: Initial, Handshake and Data. */
  class Recovery {
    var sent: seq<map<nat, Sent>>
    var lost: seq<map<nat, nat>>
    var lossTime: seq<Option<nat>>

    ghost predicate Valid()
      reads this
    {
      |sent| == 3 && |lost| == 3 && |lossTime| == 3
    }

    /** `detect_lost_packets`. The probe in flight is a Data packet, but only its number is compared. */
    method DetectLostPackets(pass: Pass, drainPeriod: nat) returns (lostPackets: seq<nat>, persistent: bool)
      requires Valid() && pass.space < 3 && pass.sent == sent[pass.space]
      requires pass.space != DATA && pass.probe.Some? ==> pass.probe.value in sent[DATA]
      modifies this
      ensures Valid() && pass.Lists(lostPackets, pass.largestAcked) && pass.Verdict(persistent, pass.largestAcked)
      ensures pass.Earliest(lossTime[pass.space], pass.largestAcked)
      ensures forall s :: 0 <= s < 3 && s != pass.space ==> lossTime[s] == old(lossTime[s]) && lost[s] == old(lost[s])
      ensures lost[pass.space] == Drained(pass, old(lost[pass.space]), drainPeriod) + Timed(pass)
      ensures forall s :: 0 <= s < 3 && s != pass.space && s != DATA ==> sent[s] == old(sent[s])
      ensures pass.space == DATA ==> sent[DATA] == Survivors(pass)
      ensures Exactly(pass, old(sent), sent) <==> pass.space == DATA || !(pass.probe.Some? && pass.Deemed(pass.probe.value))
    {
      hide Pass.Earliest, Pass.Verdict, Pass.Lists, Pass.Deemed, Pass.Lost, Exactly, Survivors, NotLost, Drained, Timed, Pass.SizeOf;
      var k := pass.space;
      var probe, size, time;
      lostPackets, probe, size, time, persistent := Scan(pass);
      lossTime := lossTime[k := time];
      var tracked, deemed := TakeLost(pass, lostPackets, Drained(pass, lost[k], drainPeriod));
      ghost var before := sent;
      sent, lost := sent[k := tracked], lost[k := deemed];
      if probe.Some? {
        sent := sent[DATA := sent[DATA] - {probe.value}];
      }
      RemovedExactly(pass, before, probe);
    }
  }

  /** The loop that stops tracking the lost packets and remembers when they were sent. */
  method TakeLost(pass: Pass, packets: seq<nat>, drained: map<nat, nat>) returns (tracked: map<nat, Sent>, lost: map<nat, nat>)
    requires pass.Lists(packets, pass.largestAcked)
    ensures tracked == NotLost(pass) && lost == drained + Timed(pass)
  {
    ListedOnce(pass, packets);
    TakeNothing(pass.sent, drained);
    hide Pass.Lists, Pass.Lost, NotLost, Timed, TimesOf;
    tracked, lost := pass.sent, drained;
    ghost var done: set<nat> := {};
    for i := 0 to |packets|
      invariant forall p :: p in done <==> exists j :: 0 <= j < i && packets[j] == p
      invariant tracked == pass.sent - done
      invariant lost == drained + TimesOf(pass.sent, done)
    {
      var packet := packets[i];
      TakeOne(pass.sent, drained, done, packet);
      lost := lost[packet := tracked[packet].timeSent];
      tracked := tracked - {packet};
      done := done + {packet};
    }
    LostSet(pass, packets, done);
  }

  function TimesOf(sent: map<nat, Sent>, done: set<nat>): map<nat, nat> {
    map p | p in done && p in sent :: sent[p].timeSent
  }

  lemma TakeNothing(sent: map<nat, Sent>, drained: map<nat, nat>)
    ensures sent - {} == sent && drained + TimesOf(sent, {}) == drained
  {
  }

  lemma TakeOne(sent: map<nat, Sent>, drained: map<nat, nat>, done: set<nat>, p: nat)
    requires p in sent && p !in done
    ensures sent - (done + {p}) == sent - done - {p}
    ensures drained + TimesOf(sent, done + {p}) == (drained + TimesOf(sent, done))[p := sent[p].timeSent]
  {
  }

  lemma ListedOnce(pass: Pass, packets: seq<nat>)
    requires pass.Lists(packets, pass.largestAcked)
    ensures forall i :: 0 <= i < |packets| ==> packets[i] in pass.sent
    ensures forall i, j :: 0 <= i < j < |packets| ==> packets[i] != packets[j]
  {
  }

  lemma LostSet(pass: Pass, packets: seq<nat>, done: set<nat>)
    requires pass.Lists(packets, pass.largestAcked)
    requires forall p :: p in done <==> exists j :: 0 <= j < |packets| && packets[j] == p
    ensures pass.sent - done == NotLost(pass) && TimesOf(pass.sent, done) == Timed(pass)
  {
    forall p: nat
      ensures p in done <==> pass.Lost(p)
    {
      if p in done {
        var j :| 0 <= j < |packets| && packets[j] == p;
      }
    }
    hide Pass.Lists, Pass.Deemed;
  }

  lemma RemovedExactly(pass: Pass, before: seq<map<nat, Sent>>, probe: Option<nat>)
    requires |before| == 3 && pass.space < 3 && pass.sent == before[pass.space]
    requires pass.space != DATA && pass.probe.Some? ==> pass.probe.value in before[DATA]
    requires probe == if pass.probe.Some? && pass.Deemed(pass.probe.value) then pass.probe else None
    ensures var taken := before[pass.space := NotLost(pass)];
            var after := if probe.Some? then taken[DATA := taken[DATA] - {probe.value}] else taken;
            && (Exactly(pass, before, after) <==> pass.space == DATA || probe.None?)
            && (pass.space == DATA ==> after[DATA] == Survivors(pass))
  {
    hide Pass.Deemed;
    var taken := before[pass.space := NotLost(pass)];
    var after := if probe.Some? then taken[DATA := taken[DATA] - {probe.value}] else taken;
    if pass.space == DATA || probe.None? {
      assert after[pass.space] == Survivors(pass);
    } else {
      assert probe.value !in after[DATA] && probe.value in before[DATA];
    }
  }

  /** A lost Handshake packet with the number of the Data probe in flight stays tracked, and the probe is
      dropped in its place. */
  lemma HandshakePacketShadowsProbe(info: Sent, probe: Sent)
    ensures var before := [map[], map[3 := info], map[3 := probe]];
            var pass := Pass(before[1], 10, 0, 1, 3, Some(3), true, 0, 1, None);
            var after := [map[], NotLost(pass), before[2] - {3}];
            pass.Deemed(3) && 3 in after[1] && 3 !in after[2] && !Exactly(pass, before, after)
  {
    var before := [map[], map[3 := info], map[3 := probe]];
    var pass := Pass(before[1], 10, 0, 1, 3, Some(3), true, 0, 1, None);
    RemovedExactly(pass, before, Some(3));
    assert 3 !in Survivors(pass);
  }

  /** What is left once the lost packets other than the probe are taken. */
  function NotLost(pass: Pass): map<nat, Sent> {
    map p | p in pass.sent && !pass.Lost(p) :: pass.sent[p]
  }

  /** Lost packets that are still worth remembering. */
  function Drained(pass: Pass, lost: map<nat, nat>, period: nat): map<nat, nat> {
    map p | p in lost && pass.Elapsed(lost[p]) <= period :: lost[p]
  }

  /** The packets newly deemed lost, with the times they were sent. */
  function Timed(pass: Pass): map<nat, nat> {
    map p | p in pass.sent && pass.Lost(p) :: pass.sent[p].timeSent
  }

  function Survivors(pass: Pass): map<nat, Sent> {
    map p | p in pass.sent && !pass.Deemed(p) :: pass.sent[p]
  }

  /** Exactly the packets deemed lost are gone, and no other space is touched. */
  ghost predicate Exactly(pass: Pass, before: seq<map<nat, Sent>>, after: seq<map<nat, Sent>>)
    requires |before| == |after| == 3
  {
    forall s :: 0 <= s < 3 ==> after[s] == if s == pass.space then Survivors(pass) else before[s]
  }
}
