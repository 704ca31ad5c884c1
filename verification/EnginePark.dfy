/** The engine's spin-then-park loop against any number of producers that push, look at the parked
    flag and unpark, as interleaved atomic steps under sequential consistency. */
module EnginePark {
  import opened Basics

  const SPIN_ITERS: nat := 200

  /** A producer is idle, or has pushed to a queue and not yet read the parked flag, or has read it as
      set and not yet called `unpark`. */
  datatype Producer = Idle | Pushed(queue: nat) | Waking(queue: nat)

  /** Which call of `run_once` the engine is in: the one at the top of the loop, one of the spinning
      ones, or the one after setting the flag. */
  datatype Mode = Top | Spin(idle: nat, anyWork: bool) | Recheck

  /** The engine's program counter. `worked` is what `run_once` has found to do so far. */
  datatype Engine =
    | Start
    | Scan(mode: Mode, queue: nat, worked: bool)
    | FirstTransmit(mode: Mode, worked: bool)
    | Timers(mode: Mode, worked: bool)
    | SecondTransmit(mode: Mode)
    | Returned(mode: Mode, worked: bool)
    | SetFlag
    | Park
    | Blocked
    | ClearFlag

  /** `queues` holds the length of each receive queue and of the command queue. `marked` are the
      connections with `has_pending_send`, `pending` the indices in `pending_send`. */
  datatype State = State(
    queues: seq<nat>, flag: bool, threadSet: bool, permit: bool, engine: Engine,
    producers: map<nat, Producer>, marked: set<nat>, pending: set<nat>)

  datatype Step =
    | Push(p: nat, queue: nat)              // the queue had room
    | PushFull(p: nat, queue: nat, wakes: bool)  // it had none; `send_cmd` wakes the engine anyway
    | LoadFlag(p: nat)
    | Unpark(p: nat)
    | EngineRuns(touched: set<nat>, removed: set<nat>, sends: set<nat>, due: bool)
    | Spurious                              // a park that times out or returns for no reason

  /** Where `run_engine` goes when `run_once` returns. */
  function AfterRun(mode: Mode, worked: bool): Engine {
    match mode
    case Top => if worked then Scan(Top, 0, false) else Scan(Spin(0, false), 0, false)
    case Spin(idle, anyWork) =>
      var idle' := if worked then 0 else idle + 1;
      var any' := anyWork || worked;
      if idle' < SPIN_ITERS then Scan(Spin(idle', any'), 0, false)
      else if any' then Scan(Top, 0, false) else SetFlag
    case Recheck => if worked then ClearFlag else Park
  }

  /** One atomic step of the engine. Handling an item or a timer may mark connections (`touched`) and
      drop others (`removed`); transmitting lists exactly the connections that sent something
      (`sends`) again, as `TileEngine.DriveTransmit` shows. */
  function EngineStep(s: State, touched: set<nat>, removed: set<nat>, sends: set<nat>, due: bool): State {
    match s.engine
    case Start => s.(engine := Scan(Top, 0, false), threadSet := true)
    case Scan(mode, q, worked) =>
      if q >= |s.queues| then s.(engine := FirstTransmit(mode, worked))
      else if s.queues[q] == 0 then s.(engine := Scan(mode, q + 1, worked))
      else s.(queues := s.queues[q := s.queues[q] - 1], engine := Scan(mode, q, true),
              marked := s.marked + touched - removed, pending := s.pending + touched)
    case FirstTransmit(mode, worked) =>
      var again := sends * s.pending;
      s.(engine := Timers(mode, worked || again != {}), marked := (s.marked - s.pending) + again - removed, pending := again)
    case Timers(mode, worked) =>
      var s' := if due then s.(marked := s.marked + touched - removed, pending := s.pending + touched) else s;
      s'.(engine := if worked || due then SecondTransmit(mode) else Returned(mode, false))
    case SecondTransmit(mode) =>
      var again := sends * s.pending;
      s.(engine := Returned(mode, true), marked := (s.marked - s.pending) + again - removed, pending := again)
    case Returned(mode, worked) => s.(engine := AfterRun(mode, worked))
    case SetFlag => s.(flag := true, engine := Scan(Recheck, 0, false))
    case Park => if s.permit then s.(permit := false, engine := ClearFlag) else s.(engine := Blocked)
    case Blocked => if s.permit then s.(permit := false, engine := ClearFlag) else s
    case ClearFlag => s.(flag := false, engine := Scan(Top, 0, false))
  }

  predicate Enabled(s: State, step: Step) {
    match step
    case Push(p, q) => p in s.producers && s.producers[p].Idle? && q < |s.queues|
    case PushFull(p, q, _) => p in s.producers && s.producers[p].Idle? && q < |s.queues| && s.queues[q] > 0
    case LoadFlag(p) => p in s.producers && s.producers[p].Pushed?
    case Unpark(p) => p in s.producers && s.producers[p].Waking?
    case EngineRuns(_, _, _, _) => true
    case Spurious => s.engine.Blocked?
  }

  function Next(s: State, step: Step): State
    requires Enabled(s, step)
  {
    match step
    case Push(p, q) => s.(queues := s.queues[q := s.queues[q] + 1], producers := s.producers[p := Pushed(q)])
    case PushFull(p, q, wakes) => if wakes then s.(producers := s.producers[p := Pushed(q)]) else s
    case LoadFlag(p) =>
      s.(producers := s.producers[p := if s.flag then Waking(s.producers[p].queue) else Idle])
    case Unpark(p) => s.(producers := s.producers[p := Idle], permit := s.permit || s.threadSet)
    case EngineRuns(touched, removed, sends, due) => EngineStep(s, touched, removed, sends, due)
    case Spurious => s.(engine := ClearFlag)
  }

  ghost predicate Initial(s: State) {
    && (forall q :: 0 <= q < |s.queues| ==> s.queues[q] == 0)
    && !s.flag && !s.threadSet && !s.permit && s.engine == Start
    && (forall p :: p in s.producers ==> s.producers[p] == Idle)
    && s.marked == {} && s.pending == {}
  }

  /** How many queues the engine has seen empty since it set the flag. */
  function Checked(s: State): nat {
    match s.engine
    case Scan(Recheck, q, _) => Min(q, |s.queues|)
    case FirstTransmit(Recheck, _) => |s.queues|
    case Timers(Recheck, _) => |s.queues|
    case SecondTransmit(Recheck) => |s.queues|
    case Returned(Recheck, _) => |s.queues|
    case Park => |s.queues|
    case Blocked => |s.queues|
    case _ => 0
  }

  /** The engine is between setting and clearing the flag. */
  predicate Committed(e: Engine) {
    match e
    case Scan(Recheck, _, _) => true
    case FirstTransmit(Recheck, _) => true
    case Timers(Recheck, _) => true
    case SecondTransmit(Recheck) => true
    case Returned(Recheck, _) => true
    case Park => true
    case Blocked => true
    case ClearFlag => true
    case _ => false
  }

  /** Some producer that pushed to `q` will still wake the engine. */
  ghost predicate Coming(s: State, q: nat) {
    exists p :: p in s.producers && (s.producers[p] == Pushed(q) || s.producers[p] == Waking(q))
  }

  /** `run_once` has found nothing to do and has transmitted. */
  predicate Quiet(e: Engine) {
    match e
    case Timers(_, worked) => !worked
    case Returned(_, worked) => !worked
    case Park => true
    case Blocked => true
    case _ => false
  }

  ghost predicate Inv(s: State) {
    && (s.flag <==> Committed(s.engine))
    && (s.threadSet <==> s.engine != Start)
    && (forall q :: 0 <= q < Checked(s) && s.queues[q] > 0 ==> s.permit || Coming(s, q))
    && s.marked <= s.pending
    && (Quiet(s.engine) ==> s.marked == {})
  }

  lemma ProducerKeepsInv(s: State, step: Step)
    requires Inv(s) && Enabled(s, step) && !step.EngineRuns? && !step.Spurious?
    ensures Inv(Next(s, step))
  {
    var s' := Next(s, step);
    assert Checked(s') == Checked(s);
    forall q | 0 <= q < Checked(s') && s'.queues[q] > 0 ensures s'.permit || Coming(s', q) {
      match step
      case Push(p, q') =>
        assert s'.producers[p] == Pushed(q');
        if q != q' && !s.permit {
          var r :| r in s.producers && (s.producers[r] == Pushed(q) || s.producers[r] == Waking(q));
          assert s'.producers[r] == s.producers[r];
        }
      case PushFull(p, q', wakes) =>
        if !s.permit {
          var r :| r in s.producers && (s.producers[r] == Pushed(q) || s.producers[r] == Waking(q));
          assert s'.producers[r] == s.producers[r];
        }
      case LoadFlag(p) =>
        if !s.permit {
          var r :| r in s.producers && (s.producers[r] == Pushed(q) || s.producers[r] == Waking(q));
          assert r == p || s'.producers[r] == s.producers[r];
          assert s'.producers[r] == Pushed(q) || s'.producers[r] == Waking(q);
        }
      case Unpark(p) =>
    }
  }

  lemma EngineKeepsInv(s: State, step: Step)
    requires Inv(s) && Enabled(s, step) && (step.EngineRuns? || step.Spurious?)
    ensures Inv(Next(s, step))
  {
    var s' := Next(s, step);
    assert s'.producers == s.producers;
    forall q | 0 <= q < Checked(s') && s'.queues[q] > 0 ensures s'.permit || Coming(s', q) {
      assert s.queues[q] > 0;
      assert q < Checked(s);
      assert Coming(s, q) ==> Coming(s', q);
    }
  }

  ghost predicate Run(states: seq<State>, steps: seq<Step>) {
    && |states| == |steps| + 1 && Initial(states[0])
    && forall i :: 0 <= i < |steps| ==> Enabled(states[i], steps[i]) && states[i + 1] == Next(states[i], steps[i])
  }

  lemma {:induction false} RunKeepsInv(states: seq<State>, steps: seq<Step>, i: nat)
    requires Run(states, steps) && i < |states|
    ensures Inv(states[i])
  {
    if i > 0 {
      RunKeepsInv(states, steps, i - 1);
      hide Inv, Next;
      if steps[i - 1].EngineRuns? || steps[i - 1].Spurious? {
        EngineKeepsInv(states[i - 1], steps[i - 1]);
      } else {
        ProducerKeepsInv(states[i - 1], steps[i - 1]);
      }
    }
  }

  /** No wakeup is lost: whenever the engine sleeps without a permit, every queue is empty or a
      producer that pushed to it is still on its way to `unpark`; and it never sleeps with a
      connection marked for sending. */
  lemma NoLostWakeup(states: seq<State>, steps: seq<Step>, i: nat)
    requires Run(states, steps) && i < |states| && states[i].engine == Blocked && !states[i].permit
    ensures forall q :: 0 <= q < |states[i].queues| ==> states[i].queues[q] == 0 || Coming(states[i], q)
    ensures states[i].marked == {}
  {
    RunKeepsInv(states, steps, i);
  }

  /** ... and that producer's own next steps, at most two, wake the engine. */
  lemma ProducerWakes(states: seq<State>, steps: seq<Step>, i: nat, p: nat)
    requires Run(states, steps) && i < |states| && states[i].engine == Blocked
    requires p in states[i].producers && !states[i].producers[p].Idle?
    ensures var s := states[i];
            var s1 := if s.producers[p].Pushed? then Next(s, LoadFlag(p)) else s;
            Enabled(s1, Unpark(p)) && Next(s1, Unpark(p)).permit && Next(s1, Unpark(p)).engine == Blocked
  {
    RunKeepsInv(states, steps, i);
  }

  /** The engine's own bookkeeping of connections that may have something to send. */
  class TileEngine {
    var live: set<nat>
    var marked: set<nat>
    var pendingSend: seq<nat>

    /** A marked connection exists and is listed. */
    ghost predicate Valid()
      reads this
    {
      marked <= live && forall c :: c in marked ==> c in pendingSend
    }

    method Mark(slot: nat)
      requires Valid()
      modifies this`marked, this`pendingSend
      ensures Valid()
      ensures marked == if slot in live then old(marked) + {slot} else old(marked)
      ensures forall c :: c in pendingSend <==> c in old(pendingSend) || (c == slot && slot in marked - old(marked))
    {
      if slot in live && slot !in marked {
        marked := marked + {slot};
        pendingSend := pendingSend + [slot];
      }
    }

    /** `drive_transmit`, where the `k`-th listed connection yields `polls[k]` datagrams: afterwards
        exactly connections that sent something are listed, marked ones are among them, and work was
        done if and only if one did. */
    method DriveTransmit(polls: seq<nat>) returns (didWork: bool)
      requires Valid() && |polls| == |pendingSend|
      modifies this`marked, this`pendingSend
      ensures Valid()
      ensures didWork <==> pendingSend != []
      ensures forall c :: c in pendingSend ==>
                exists k :: 0 <= k < |polls| && old(pendingSend)[k] == c && polls[k] > 0 && c in live
      ensures !didWork ==> marked == {}
    {
      didWork := false;
      var toProcess := pendingSend;
      pendingSend := [];
      for k := 0 to |toProcess|
        invariant marked <= live && unchanged(`live)
        invariant forall c :: c in marked ==> c in toProcess[k..] || c in pendingSend
        invariant didWork <==> pendingSend != []
        invariant forall c :: c in pendingSend ==>
                    exists j :: 0 <= j < k && toProcess[j] == c && polls[j] > 0 && c in live
      {
        var slot := toProcess[k];
        assert toProcess[k..] == [slot] + toProcess[k + 1..];
        if slot !in live {
          continue;
        }
        marked := marked - {slot};
        if polls[k] > 0 {
          didWork := true;
          marked := marked + {slot};
          pendingSend := pendingSend + [slot];
        }
      }
    }
  }
}
