/** 1-RTT key update: which of three key generations opens a packet, given only its phase bit and
    number, and how the generations move. Keys are identified by their generation; a packet opens
    with a key exactly when it was sealed with that generation. */
module KeyUpdate {
  import opened Basics

  /** The keys of the previous phase: usable for packets numbered below `endPacket`, or for any
      packet while no packet of the current phase was received. */
  datatype PrevCrypto = PrevCrypto(generation: nat, endPacket: Option<nat>, updateUnacked: bool)

  /** The key state of one connection. `derived` counts the generations the TLS session produced. */
  datatype Keys = Keys(
    current: nat, next: nat, derived: nat, phase: bool, prev: Option<PrevCrypto>,
    rxPacket: nat, discardTimer: bool)
  {
    /** Whether the key of a generation is still held. */
    predicate Holds(generation: nat) {
      generation == current || generation == next || (prev.Some? && generation == prev.value.generation)
    }
  }

  function Phase(generation: nat): bool { generation % 2 == 1 }

  datatype Outcome = Undecryptable | KeyUpdateError | Opened(acked: bool, updated: bool)

  /** The key `decrypt_packet_body` picks, and whether picking it means a remote update. */
  function SelectKey(k: Keys, packetPhase: bool, number: nat): (bool, nat) {
    if packetPhase == k.phase then
      (false, k.current)
    else if k.prev.Some? && (k.prev.value.endPacket.None? || number < k.prev.value.endPacket.value) then
      (false, k.prev.value.generation)
    else
      (true, k.next)
  }

  /** `decrypt_packet_body` on packet `number`, sealed with `sealedWith`. */
  function DecryptBody(k: Keys, number: nat, sealedWith: nat): Outcome {
    var phase := Phase(sealedWith);
    var (update, key) := SelectKey(k, phase, number);
    if key != sealedWith then
      Undecryptable
    else if update && (number <= k.rxPacket || (k.prev.Some? && k.prev.value.updateUnacked)) then
      KeyUpdateError
    else
      Opened(k.prev.Some? && k.prev.value.endPacket.None? && phase == k.phase, update)
  }

  /** `update_keys`. */
  function Update(k: Keys, endPacket: Option<nat>, remote: bool): Keys {
    k.(current := k.next, next := k.derived + 1, derived := k.derived + 1, phase := !k.phase,
       prev := Some(PrevCrypto(k.current, endPacket, remote)))
  }

  /** `force_key_update` on an established connection. */
  function Force(k: Keys): Keys {
    if k.prev.Some? then k else Update(k, None, false)
  }

  /** `decrypt_packet`: act on what the body revealed. */
  function Decrypt(k: Keys, number: nat, sealedWith: nat): Keys {
    match DecryptBody(k, number, sealedWith)
    case Opened(acked, updated) =>
      var k1 := if acked && k.prev.Some?
                then k.(prev := Some(k.prev.value.(endPacket := Some(number))), discardTimer := true) else k;
      if updated then Update(k1, Some(number), true).(discardTimer := true) else k1
    case _ => k
  }

  /** The `KeyDiscard` timer. */
  function Discard(k: Keys): Keys { k.(prev := None, discardTimer := false) }

  /** Sending a packet acknowledges a remote update. */
  function Transmit(k: Keys): Keys {
    if k.prev.Some? then k.(prev := Some(k.prev.value.(updateUnacked := false))) else k
  }

  /** `on_packet_authenticated`. */
  function Authenticated(k: Keys, number: nat): Keys {
    if number >= k.rxPacket then k.(rxPacket := number) else k
  }

  /** Held keys are consecutive generations, the phase bit is their parity, and the discard timer
      runs exactly while finished previous keys are held. */
  ghost predicate Consecutive(k: Keys) {
    && k.next == k.derived == k.current + 1
    && k.phase == Phase(k.current)
    && (k.prev.Some? ==> k.prev.value.generation + 1 == k.current)
    && (k.discardTimer <==> k.prev.Some? && k.prev.value.endPacket.Some?)
  }

  /** `k'` is one generation on from `k`: both generations and the one after them are held, and the phase
      bit is the parity of the new one. */
  ghost predicate Rolled(k: Keys, k': Keys) {
    && k'.current == k.current + 1 && k'.phase == Phase(k'.current)
    && forall g: nat :: k'.Holds(g) <==> k.current <= g <= k.current + 2
  }

  const INITIAL := Keys(0, 1, 1, false, None, 0, false)

  /** The key state as the connection updates it in place. */
  class Connection {
    var current: nat
    var next: nat
    var derived: nat
    var phase: bool
    var prev: Option<PrevCrypto>
    var rxPacket: nat
    var discardTimer: bool

    function View(): Keys
      reads this
    {
      Keys(current, next, derived, phase, prev, rxPacket, discardTimer)
    }

    constructor ()
      ensures View() == INITIAL
    {
      current, next, derived, phase := 0, 1, 1, false;
      prev, rxPacket, discardTimer := None, 0, false;
    }

    method UpdateKeys(endPacket: Option<nat>, remote: bool)
      modifies this
      ensures View() == Update(old(View()), endPacket, remote)
      ensures old(Consecutive(View())) ==> Rolled(old(View()), View())
    {
      derived := derived + 1;
      var old' := current;
      current := next;
      next := derived;
      prev := Some(PrevCrypto(old', endPacket, remote));
      phase := !phase;
    }

    method ForceKeyUpdate(established: bool)
      modifies this
      ensures View() == if established then Force(old(View())) else old(View())
      ensures old(Consecutive(View())) ==> Consecutive(View())
      ensures old(Consecutive(View())) && established && old(prev).None? ==> Rolled(old(View()), View())
    {
      if !established || prev.Some? {
        return;
      }
      UpdateKeys(None, false);
    }

    /** Whether the packet opened, and whether opening it is a fatal error. Only a held key opens a packet,
        only a packet of the next generation moves the keys on, by one generation, and when the discard
        timer is set, the previous keys and the packet that ended them are known. */
    method DecryptPacket(number: nat, sealedWith: nat) returns (success: bool, fatal: bool)
      modifies this
      ensures View() == Decrypt(old(View()), number, sealedWith)
      ensures success == DecryptBody(old(View()), number, sealedWith).Opened?
      ensures fatal == DecryptBody(old(View()), number, sealedWith).KeyUpdateError?
      ensures discardTimer && !old(discardTimer) ==> prev.Some? && prev.value.endPacket == Some(number)
      ensures !success ==> View() == old(View())
      ensures old(Consecutive(View())) ==>
                && Consecutive(View())
                && (success ==> old(View()).Holds(sealedWith) && sealedWith <= current)
                && (if success && sealedWith == old(next) then Rolled(old(View()), View()) else current == old(current))
    {
      var (update, key) := SelectKey(View(), Phase(sealedWith), number);
      if key != sealedWith {
        return false, false;
      }
      if update && (number <= rxPacket || (prev.Some? && prev.value.updateUnacked)) {
        return false, true;
      }
      if prev.Some? && prev.value.endPacket.None? && Phase(sealedWith) == phase {
        prev := Some(prev.value.(endPacket := Some(number)));
        discardTimer := true;
      }
      if update {
        UpdateKeys(Some(number), true);
        discardTimer := true;
      }
      return true, false;
    }
  }

  // ---------------------------------------------------------------------------------------------
  // Against a peer

  /** The connection, a peer that sends packets and changes generation, and a network that keeps
      every packet the peer sent, with the generation that sealed it. */
  datatype System = System(
    keys: Keys, peer: nat, sent: map<nat, nat>, nextNumber: nat, processed: set<nat>, acked: set<nat>)

  datatype Step =
    | PeerSends(number: nat)
    | PeerUpdates
    | Receive(number: nat, kept: bool)   // `kept`: not a duplicate and not dropped while handshaking
    | LocalUpdate
    | Acknowledge(acks: set<nat>)
    | DiscardKeys

  /** Which steps may happen. The peer only starts a generation of its own after an acknowledgement
      of a packet in its current one, and otherwise follows ours (section 6.1 of RFC 9001). */
  predicate Enabled(s: System, step: Step) {
    match step
    case PeerSends(number) => number >= s.nextNumber
    case PeerUpdates => s.peer < s.keys.current || exists n | n in s.acked :: n in s.sent && s.sent[n] == s.peer
    case Receive(number, _) => number in s.sent
    case LocalUpdate => true
    case Acknowledge(acks) => s.acked <= acks <= s.processed
    case DiscardKeys => s.keys.discardTimer
  }

  function Next(s: System, step: Step): System
    requires Enabled(s, step)
  {
    match step
    case PeerSends(number) => s.(sent := s.sent[number := s.peer], nextNumber := number + 1)
    case PeerUpdates => s.(peer := s.peer + 1)
    case Receive(number, kept) =>
      var success := DecryptBody(s.keys, number, s.sent[number]).Opened?;
      var keys := Decrypt(s.keys, number, s.sent[number]);
      if success && kept then s.(keys := Authenticated(keys, number), processed := s.processed + {number})
      else s.(keys := keys)
    case LocalUpdate => s.(keys := Force(s.keys))
    case Acknowledge(acks) => s.(keys := Transmit(s.keys), acked := acks)
    case DiscardKeys => s.(keys := Discard(s.keys))
  }

  /** Before any 1-RTT packet. */
  predicate Initial(s: System) {
    s.keys == INITIAL && s.peer == 0 && |s.sent| == 0 && s.nextNumber == 0 && s.processed == {} && s.acked == {}
  }

  /** The packets sent so far: generations never decrease with the packet number. */
  ghost predicate Monotone(s: System) {
    && (forall n :: n in s.sent ==> n < s.nextNumber && s.sent[n] <= s.peer)
    && (forall m, n :: m in s.sent && n in s.sent && m <= n ==> s.sent[m] <= s.sent[n])
  }

  /** What the connection has seen: everything processed was sent in a generation up to ours, and
      `rxPacket` is the largest such number. */
  ghost predicate Seen(s: System) {
    && s.acked <= s.processed
    && (forall n :: n in s.processed ==> n in s.sent && s.sent[n] <= s.keys.current && n <= s.keys.rxPacket)
    && (if s.processed == {} then s.keys.rxPacket == 0 else s.keys.rxPacket in s.processed)
  }

  /** How far apart the two sides can be. */
  ghost predicate InStep(s: System) {
    && s.peer <= s.keys.current + 1
    && (s.peer > s.keys.current ==> exists n :: n in s.acked && n in s.sent && s.sent[n] == s.keys.current)
    && (s.peer < s.keys.current ==> s.keys.prev.Some? && s.keys.prev.value.endPacket.None? && s.peer + 1 == s.keys.current)
  }

  /** What the record of the previous phase says about the packets. */
  ghost predicate PrevMeans(s: System) {
    s.keys.prev.Some? ==>
      var p := s.keys.prev.value;
      && (p.endPacket.Some? ==> p.endPacket.value in s.sent && s.sent[p.endPacket.value] == s.keys.current)
      && (p.endPacket.None? ==> forall n :: n in s.processed && n in s.sent ==> s.sent[n] < s.keys.current)
      && (p.updateUnacked ==> forall n :: n in s.acked && n in s.sent ==> s.sent[n] < s.keys.current)
  }

  ghost predicate Inv(s: System) {
    Consecutive(s.keys) && Monotone(s) && Seen(s) && InStep(s) && PrevMeans(s)
  }

  /** The selected key is the sealing key whenever that is held, so the packet opens and no key
      update error is raised. */
  lemma RightKey(s: System, number: nat)
    requires Inv(s) && number in s.sent
    ensures s.keys.Holds(s.sent[number]) ==> DecryptBody(s.keys, number, s.sent[number]).Opened?
    ensures !DecryptBody(s.keys, number, s.sent[number]).KeyUpdateError?
  {
  }

  /** Without a remote update the generations stay, and only an open-ended previous phase changes. */
  lemma OldKeepsKeys(k: Keys, number: nat, sealedWith: nat)
    requires Consecutive(k) && !SelectKey(k, Phase(sealedWith), number).0
    ensures var k' := Decrypt(k, number, sealedWith);
            && Consecutive(k') && k'.current == k.current && k'.rxPacket == k.rxPacket
            && (DecryptBody(k, number, sealedWith).Opened? ==> sealedWith <= k.current)
            && (k' == k || (k.prev.Some? && k.prev.value.endPacket.None? && sealedWith == k.current
                            && k'.prev == Some(k.prev.value.(endPacket := Some(number)))))
            && (DecryptBody(k, number, sealedWith).Opened? && sealedWith == k.current && k.prev.Some?
                ==> k'.prev.Some? && k'.prev.value.endPacket.Some?)
  {
  }

  /** A packet that opens without a remote update is of the current or the previous generation, and
      may acknowledge a local update. */
  lemma ReceiveOldKeepsInv(s: System, number: nat, kept: bool)
    requires Inv(s) && number in s.sent && !SelectKey(s.keys, Phase(s.sent[number]), number).0
    ensures Inv(Next(s, Receive(number, kept)))
  {
    hide SelectKey, DecryptBody, Decrypt, Monotone, Seen, InStep, PrevMeans;
    OldKeepsKeys(s.keys, number, s.sent[number]);
    OldKeepsSeen(s, number, kept);
    OldKeepsStep(s, number, kept);
    OldKeepsPrev(s, number, kept);
  }

  lemma OldKeepsSeen(s: System, number: nat, kept: bool)
    requires Inv(s) && number in s.sent && !SelectKey(s.keys, Phase(s.sent[number]), number).0
    ensures Monotone(Next(s, Receive(number, kept))) && Seen(Next(s, Receive(number, kept)))
  {
    OldKeepsKeys(s.keys, number, s.sent[number]);
    hide SelectKey, DecryptBody, Decrypt, InStep, PrevMeans;
  }

  lemma OldKeepsStep(s: System, number: nat, kept: bool)
    requires Inv(s) && number in s.sent && !SelectKey(s.keys, Phase(s.sent[number]), number).0
    ensures InStep(Next(s, Receive(number, kept)))
  {
    OldKeepsKeys(s.keys, number, s.sent[number]);
    hide SelectKey, DecryptBody, Decrypt, Seen, PrevMeans;
    var s' := Next(s, Receive(number, kept));
    if s'.peer > s'.keys.current {
      var n :| n in s.acked && n in s.sent && s.sent[n] == s.keys.current;
      assert n in s'.acked && n in s'.sent;
    }
  }

  lemma OldKeepsPrev(s: System, number: nat, kept: bool)
    requires Inv(s) && number in s.sent && !SelectKey(s.keys, Phase(s.sent[number]), number).0
    ensures PrevMeans(Next(s, Receive(number, kept)))
  {
    OldKeepsKeys(s.keys, number, s.sent[number]);
    hide SelectKey, DecryptBody, Decrypt, InStep;
  }

  /** A packet that opens with the next keys moves this side to the peer's generation. */
  lemma ReceiveNewKeepsInv(s: System, number: nat, kept: bool)
    requires Inv(s) && number in s.sent && SelectKey(s.keys, Phase(s.sent[number]), number).0
    ensures Inv(Next(s, Receive(number, kept)))
  {
    var s' := Next(s, Receive(number, kept));
    RightKey(s, number);
    assert Consecutive(s'.keys) && Monotone(s') && Seen(s') && PrevMeans(s') && InStep(s');
  }

  lemma PeerKeepsInv(s: System, step: Step)
    requires Inv(s) && Enabled(s, step) && (step.PeerSends? || step.PeerUpdates?)
    ensures Inv(Next(s, step))
  {
    var s' := Next(s, step);
    assert Monotone(s');
    if s'.peer > s'.keys.current {
      var n :| n in s.acked && n in s.sent && s.sent[n] == s.keys.current;
      assert n in s'.acked && n in s'.sent && s'.sent[n] == s'.keys.current;
    }
  }

  lemma LocalKeepsInv(s: System, step: Step)
    requires Inv(s) && Enabled(s, step) && (step.LocalUpdate? || step.Acknowledge? || step.DiscardKeys?)
    ensures Inv(Next(s, step))
  {
    var s' := Next(s, step);
    assert Consecutive(s'.keys) && Monotone(s') && Seen(s');
    if s'.peer > s'.keys.current {
      var n :| n in s.acked && n in s.sent && s.sent[n] == s.keys.current;
      assert n in s'.acked && n in s'.sent && s'.sent[n] == s'.keys.current;
    }
  }

  /** Every step keeps the invariant. */
  lemma StepKeepsInv(s: System, step: Step)
    requires Inv(s) && Enabled(s, step)
    ensures Inv(Next(s, step))
  {
    match step
    case Receive(number, kept) =>
      if SelectKey(s.keys, Phase(s.sent[number]), number).0 {
        ReceiveNewKeepsInv(s, number, kept);
      } else {
        ReceiveOldKeepsInv(s, number, kept);
      }
    case PeerSends(_) => PeerKeepsInv(s, step);
    case PeerUpdates => PeerKeepsInv(s, step);
    case _ => LocalKeepsInv(s, step);
  }

  /** The states along a run. */
  ghost predicate Run(states: seq<System>, steps: seq<Step>) {
    && |states| == |steps| + 1 && Initial(states[0])
    && forall i :: 0 <= i < |steps| ==> Enabled(states[i], steps[i]) && states[i + 1] == Next(states[i], steps[i])
  }

  lemma InitialInv(s: System)
    requires Initial(s)
    ensures Inv(s)
  {
    hide Monotone, Seen;
    NothingSent(s);
  }

  lemma NothingSent(s: System)
    requires |s.sent| == 0 && s.processed == {} && s.acked == {} && s.keys.rxPacket == 0
    ensures Monotone(s) && Seen(s)
  {
  }

  lemma {:induction false} RunKeepsInv(states: seq<System>, steps: seq<Step>, i: nat)
    requires Run(states, steps) && i < |states|
    ensures Inv(states[i])
  {
    hide Inv, Next, Enabled;
    if i == 0 {
      InitialInv(states[0]);
    } else {
      RunKeepsInv(states, steps, i - 1);
      StepKeepsInv(states[i - 1], steps[i - 1]);
    }
  }

  /** Over every run of local updates, remote updates, acknowledgements and discards, with packets
      delivered in any order and any number of times: the two sides are at most one generation
      apart, a packet opens exactly when its key is held, and KEY_UPDATE_ERROR is never raised. */
  lemma KeyUpdateSafety(states: seq<System>, steps: seq<Step>, i: nat, number: nat)
    requires Run(states, steps) && i < |states| && number in states[i].sent
    ensures var s := states[i];
            && Consecutive(s.keys)
            && s.keys.current <= s.peer + 1 && s.peer <= s.keys.current + 1
            && (DecryptBody(s.keys, number, s.sent[number]).Opened? <==> s.keys.Holds(s.sent[number]))
            && !DecryptBody(s.keys, number, s.sent[number]).KeyUpdateError?
  {
    RunKeepsInv(states, steps, i);
    RightKey(states[i], number);
  }

  /** In every run, a packet of the next generation, beyond the end of the previous phase, is caught exactly when
      its number is not above all that were processed or our acknowledgement of the last remote update has not
      left; otherwise it opens and moves the keys. A peer that waits for an acknowledgement in its current
      generation is never caught by the second. */
  lemma EarlyUpdateCaught(states: seq<System>, steps: seq<Step>, i: nat, number: nat)
    requires Run(states, steps) && i < |states|
    requires var k := states[i].keys;
             k.prev.Some? ==> k.prev.value.endPacket.Some? && k.prev.value.endPacket.value <= number
    ensures var s := states[i];
            var k := s.keys;
            var late := exists n :: n in s.processed && n >= number;
            var unacked := k.prev.Some? && k.prev.value.updateUnacked;
            && (DecryptBody(k, number, k.current + 1).KeyUpdateError?
                <==> late || unacked || (number == 0 && s.processed == {}))
            && (!DecryptBody(k, number, k.current + 1).KeyUpdateError?
                ==> Rolled(k, Decrypt(k, number, k.current + 1)))
            && (unacked ==> forall n :: n in s.acked && n in s.sent ==> s.sent[n] < k.current)
  {
    RunKeepsInv(states, steps, i);
    var s := states[i];
    assert number <= s.keys.rxPacket && s.processed != {} ==> s.keys.rxPacket in s.processed;
  }
}
