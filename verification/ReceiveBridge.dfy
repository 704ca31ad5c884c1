/** The bounded queue that carries stream data from the engine thread to the application, as
    interleaved atomic steps of one engine and one reader. */
module ReceiveBridge {
  import opened Basics

  const RECV_DATA_CAP: nat := 16

  type Chunk = seq<byte>

  /** Where `drain_readable_stream` is: before the admission gate, reading up to `room` chunks from the
      protocol, or pushing what it read. */
  datatype Engine = Gate | Reading(room: nat, chunks: seq<Chunk>) | Pushing(chunks: seq<Chunk>)

  /** `taken` and `read` record every byte the engine took from the protocol and the application read;
      `dropped` whether the queue ever refused a chunk. */
  datatype State = State(
    queue: seq<Chunk>, engine: Engine, leftover: Chunk, taken: seq<byte>, read: seq<byte>, dropped: bool)

  datatype Step =
    | CheckRoom
    | TakeChunk(chunk: Chunk)
    | StopReading                // no more data, or the end of the stream
    | PushChunk
    | Finish
    | PollRead(remaining: nat)   // serve the leftover, or pop a chunk, into a buffer with this much room

  predicate Enabled(s: State, step: Step) {
    match step
    case CheckRoom => s.engine.Gate?
    case TakeChunk(_) => s.engine.Reading? && |s.engine.chunks| < s.engine.room
    case StopReading => s.engine.Reading?
    case PushChunk => s.engine.Pushing? && s.engine.chunks != []
    case Finish => s.engine.Pushing? && s.engine.chunks == []
    case PollRead(_) => true
  }

  function Next(s: State, step: Step): State
    requires Enabled(s, step)
  {
    match step
    case CheckRoom =>
      var room := if |s.queue| < RECV_DATA_CAP then RECV_DATA_CAP - |s.queue| else 0;
      if room == 0 then s else s.(engine := Reading(room, []))
    case TakeChunk(c) =>
      var chunks := s.engine.chunks + [c];
      s.(taken := s.taken + c,
         engine := if |chunks| >= s.engine.room then Pushing(chunks) else Reading(s.engine.room, chunks))
    case StopReading => s.(engine := Pushing(s.engine.chunks))
    case PushChunk =>
      var s' := s.(engine := Pushing(s.engine.chunks[1..]));
      if |s.queue| < RECV_DATA_CAP then s'.(queue := s.queue + [s.engine.chunks[0]]) else s'.(dropped := true)
    case Finish => s.(engine := Gate)
    case PollRead(remaining) =>
      if s.leftover != [] then
        var n := Min(|s.leftover|, remaining);
        s.(read := s.read + s.leftover[..n], leftover := s.leftover[n..])
      else if s.queue != [] then
        var chunk := s.queue[0];
        var n := Min(|chunk|, remaining);
        s.(read := s.read + chunk[..n], queue := s.queue[1..], leftover := if n < |chunk| then chunk[n..] else [])
      else s
  }

  const START := State([], Gate, [], [], [], false)

  function Flat(chunks: seq<Chunk>): seq<byte> {
    if chunks == [] then [] else chunks[0] + Flat(chunks[1..])
  }

  /** The chunks read from the protocol and not yet pushed. */
  function InHand(s: State): seq<Chunk> {
    if s.engine.Gate? then [] else s.engine.chunks
  }

  /** Room was counted for every chunk in hand and to come, and every byte taken is, in order, read,
      left over, queued or in hand. */
  ghost predicate Inv(s: State) {
    && !s.dropped
    && (s.engine.Reading? ==> |s.queue| + s.engine.room <= RECV_DATA_CAP && |s.engine.chunks| < s.engine.room)
    && (s.engine.Pushing? ==> |s.queue| + |s.engine.chunks| <= RECV_DATA_CAP)
    && |s.queue| <= RECV_DATA_CAP
    && s.taken == s.read + s.leftover + Flat(s.queue) + Flat(InHand(s))
  }

  lemma {:induction false} FlatConcat(a: seq<Chunk>, b: seq<Chunk>)
    ensures Flat(a + b) == Flat(a) + Flat(b)
  {
    if a == [] {
      assert a + b == b;
    } else {
      assert (a + b)[1..] == a[1..] + b;
      FlatConcat(a[1..], b);
    }
  }

  lemma FlatOne(c: Chunk)
    ensures Flat([c]) == c
  {
    assert Flat([c][1..]) == [];
  }

  lemma TakeKeepsInv(s: State, c: Chunk)
    requires Inv(s) && Enabled(s, TakeChunk(c))
    ensures Inv(Next(s, TakeChunk(c)))
  {
    hide Flat;
    FlatConcat(s.engine.chunks, [c]);
    FlatOne(c);
    assert s.taken + c == s.read + s.leftover + Flat(s.queue) + (Flat(s.engine.chunks) + c);
  }

  lemma PushKeepsInv(s: State)
    requires Inv(s) && Enabled(s, PushChunk)
    ensures Inv(Next(s, PushChunk))
  {
    var c, rest := s.engine.chunks[0], s.engine.chunks[1..];
    assert Flat(s.engine.chunks) == c + Flat(rest);
    FlatConcat(s.queue, [c]);
    FlatOne(c);
    hide Flat;
    assert s.read + s.leftover + Flat(s.queue) + (c + Flat(rest))
        == s.read + s.leftover + (Flat(s.queue) + c) + Flat(rest);
  }

  lemma PollKeepsInv(s: State, remaining: nat)
    requires Inv(s)
    ensures Inv(Next(s, PollRead(remaining)))
  {
    if s.leftover != [] {
      hide Flat;
      var n := Min(|s.leftover|, remaining);
      assert s.read + s.leftover == s.read + s.leftover[..n] + s.leftover[n..];
    } else if s.queue != [] {
      var chunk := s.queue[0];
      assert Flat(s.queue) == chunk + Flat(s.queue[1..]);
      hide Flat;
      var n := Min(|chunk|, remaining);
      var left := if n < |chunk| then chunk[n..] else [];
      assert s.read + [] + (chunk + Flat(s.queue[1..])) == s.read + chunk[..n] + left + Flat(s.queue[1..]);
    }
  }

  lemma StepKeepsInv(s: State, step: Step)
    requires Inv(s) && Enabled(s, step)
    ensures Inv(Next(s, step))
  {
    match step
    case TakeChunk(c) => TakeKeepsInv(s, c);
    case PushChunk => PushKeepsInv(s);
    case PollRead(remaining) => PollKeepsInv(s, remaining);
    case _ =>
  }

  ghost predicate Run(states: seq<State>, steps: seq<Step>) {
    && |states| == |steps| + 1 && states[0] == START
    && forall i :: 0 <= i < |steps| ==> Enabled(states[i], steps[i]) && states[i + 1] == Next(states[i], steps[i])
  }

  lemma {:induction false} RunKeepsInv(states: seq<State>, steps: seq<Step>, i: nat)
    requires Run(states, steps) && i < |states|
    ensures Inv(states[i])
  {
    if i > 0 {
      RunKeepsInv(states, steps, i - 1);
      hide Inv, Next;
      StepKeepsInv(states[i - 1], steps[i - 1]);
    }
  }

  /** Under every interleaving no chunk taken from the protocol is refused by the queue, and what the
      application has read is a prefix of what the engine took; nothing is missing in between. */
  lemma BridgeSafety(states: seq<State>, steps: seq<Step>, i: nat)
    requires Run(states, steps) && i < |states|
    ensures !states[i].dropped && |states[i].queue| <= RECV_DATA_CAP
    ensures states[i].read <= states[i].taken
    ensures states[i].queue == [] && states[i].leftover == [] && states[i].engine.Gate?
            ==> states[i].read == states[i].taken
  {
    RunKeepsInv(states, steps, i);
  }

  /** The application's end of the bridge. */
  class RecvStream {
    var queue: seq<Chunk>
    var leftover: Chunk

    /** `poll_read` into a buffer with room for `remaining` bytes: the bytes returned come off the front
        of what was left over and queued, and there are some whenever something was available. */
    method PollRead(remaining: nat) returns (bytes: seq<byte>)
      modifies this
      ensures |bytes| <= remaining
      ensures old(leftover + Flat(queue)) == bytes + leftover + Flat(queue)
      ensures remaining > 0 && (old(leftover) != [] || (old(queue) != [] && old(queue)[0] != [])) ==> bytes != []
    {
      if leftover != [] {
        var n := Min(|leftover|, remaining);
        bytes := leftover[..n];
        assert leftover == leftover[..n] + leftover[n..];
        leftover := leftover[n..];
        return;
      }
      if queue != [] {
        var chunk := queue[0];
        queue := queue[1..];
        var n := Min(|chunk|, remaining);
        bytes := chunk[..n];
        assert chunk == chunk[..n] + chunk[n..];
        if n < |chunk| {
          leftover := chunk[n..];
        }
        return;
      }
      bytes := [];
    }
  }
}
