/** QUIC frames: the encoders, the payload iterator, and the round trip through a whole packet payload. */
module Frames {
  import opened Basics
  import opened RangeSets
  import opened Wire
  import opened Acks

  const MAX_CID_SIZE := 20
  const RESET_TOKEN_SIZE := 16

  type Bytes = seq<byte>

  datatype Frame =
    | Padding
    | Ping
    | HandshakeDone
    | ImmediateAck
    | MaxData(limit: nat)
    | MaxStreams(bidi: bool, count: nat)
    | DataBlocked(offset: nat)
    | StreamsBlocked(bidi: bool, limit: nat)
    | RetireConnectionId(sequence: nat)
    | StopSending(id: nat, errorCode: nat)
    | MaxStreamData(id: nat, offset: nat)
    | StreamDataBlocked(id: nat, offset: nat)
    | ResetStream(id: nat, errorCode: nat, finalOffset: nat)
    | AckFrequency(sequence: nat, threshold: nat, maxDelay: nat, reordering: nat)
    | Ack(largest: nat, delay: nat, additional: Bytes, ecn: Option<Ecn>)
    | Crypto(offset: nat, data: Bytes)
    | NewToken(token: Bytes)
    | NewConnectionId(sequence: nat, retirePriorTo: nat, cid: Bytes, resetToken: Bytes)
    | PathChallenge(challenge: nat)
    | PathResponse(challenge: nat)
    | ConnectionClose(errorCode: nat, frameType: Option<nat>, reason: Bytes)
    | ApplicationClose(errorCode: nat, reason: Bytes)
    | Stream(id: nat, offset: nat, fin: bool, data: Bytes)
    | Datagram(data: Bytes)

  datatype Ecn = Ecn(ect0: nat, ect1: nat, ce: nat)

  // ---------------------------------------------------------------------------------------------
  // Fields

  predicate Vars(xs: seq<nat>) {
    forall i :: 0 <= i < |xs| ==> xs[i] < VARINT_END
  }

  function PutVars(xs: seq<nat>): Bytes
    requires Vars(xs)
  {
    if xs == [] then [] else PutVar(xs[0]) + PutVars(xs[1..])
  }

  function GetVars(bytes: Bytes, n: nat): (r: Option<(seq<nat>, Bytes)>)
    ensures r.Some? ==> |r.value.0| == n && |r.value.1| <= |bytes| && Vars(r.value.0)
  {
    if n == 0 then Some(([], bytes)) else
      var first := GetVar(bytes);
      if first.None? then None else
        var more := GetVars(first.value.1, n - 1);
        if more.None? then None else Some(([first.value.0] + more.value.0, more.value.1))
  }

  lemma {:induction false} VarsRoundTrip(xs: seq<nat>, rest: Bytes)
    requires Vars(xs)
    ensures GetVars(PutVars(xs) + rest, |xs|) == Some((xs, rest))
  {
    hide GetVar, PutVar, VarSize;
    if xs == [] {
      assert PutVars(xs) + rest == rest;
    } else {
      var tail := PutVars(xs[1..]) + rest;
      assert PutVars(xs) + rest == PutVar(xs[0]) + tail;
      VarRoundTrip(xs[0], tail);
      VarsRoundTrip(xs[1..], rest);
      assert [xs[0]] + xs[1..] == xs;
    }
  }

  /** `take_len`. */
  function TakeLen(bytes: Bytes): (r: Option<(Bytes, Bytes)>)
    ensures r.Some? ==> |r.value.1| < |bytes|
  {
    var len := GetVar(bytes);
    if len.None? || len.value.0 > |len.value.1| then None
    else Some((len.value.1[..len.value.0], len.value.1[len.value.0..]))
  }

  function PutLen(data: Bytes): Bytes
    requires |data| < VARINT_END
  {
    PutVar(|data|) + data
  }

  lemma LenRoundTrip(data: Bytes, rest: Bytes)
    requires |data| < VARINT_END
    ensures TakeLen(PutLen(data) + rest) == Some((data, rest))
  {
    hide GetVar, PutVar, VarSize;
    assert PutLen(data) + rest == PutVar(|data|) + (data + rest);
    VarRoundTrip(|data|, data + rest);
    assert (data + rest)[..|data|] == data;
    assert (data + rest)[|data|..] == rest;
  }

  // ---------------------------------------------------------------------------------------------
  // Frames made only of integers: their type and how many integers follow it

  function Arity(ty: nat): Option<nat> {
    if ty == 0x00 || ty == 0x01 || ty == 0x1e || ty == 0x1f then Some(0)
    else if ty == 0x10 || 0x12 <= ty <= 0x14 || ty == 0x16 || ty == 0x17 || ty == 0x19 then Some(1)
    else if ty == 0x05 || ty == 0x11 || ty == 0x15 then Some(2)
    else if ty == 0x04 then Some(3)
    else if ty == 0xaf then Some(4)
    else None
  }

  function Simple(ty: nat, xs: seq<nat>): Frame
    requires Arity(ty) == Some(|xs|)
  {
    if ty == 0x00 then Padding
    else if ty == 0x01 then Ping
    else if ty == 0x1e then HandshakeDone
    else if ty == 0x1f then ImmediateAck
    else if ty == 0x10 then MaxData(xs[0])
    else if ty == 0x12 then MaxStreams(true, xs[0])
    else if ty == 0x13 then MaxStreams(false, xs[0])
    else if ty == 0x14 then DataBlocked(xs[0])
    else if ty == 0x16 then StreamsBlocked(true, xs[0])
    else if ty == 0x17 then StreamsBlocked(false, xs[0])
    else if ty == 0x19 then RetireConnectionId(xs[0])
    else if ty == 0x05 then StopSending(xs[0], xs[1])
    else if ty == 0x11 then MaxStreamData(xs[0], xs[1])
    else if ty == 0x15 then StreamDataBlocked(xs[0], xs[1])
    else if ty == 0x04 then ResetStream(xs[0], xs[1], xs[2])
    else AckFrequency(xs[0], xs[1], xs[2], xs[3])
  }

  /** The type and integers of such a frame; `None` for the others. */
  function Fields(f: Frame): Option<(nat, seq<nat>)> {
    match f
    case Padding => Some((0x00, []))
    case Ping => Some((0x01, []))
    case HandshakeDone => Some((0x1e, []))
    case ImmediateAck => Some((0x1f, []))
    case MaxData(x) => Some((0x10, [x]))
    case MaxStreams(bidi, x) => Some((if bidi then 0x12 else 0x13, [x]))
    case DataBlocked(x) => Some((0x14, [x]))
    case StreamsBlocked(bidi, x) => Some((if bidi then 0x16 else 0x17, [x]))
    case RetireConnectionId(x) => Some((0x19, [x]))
    case StopSending(x, y) => Some((0x05, [x, y]))
    case MaxStreamData(x, y) => Some((0x11, [x, y]))
    case StreamDataBlocked(x, y) => Some((0x15, [x, y]))
    case ResetStream(x, y, z) => Some((0x04, [x, y, z]))
    case AckFrequency(x, y, z, w) => Some((0xaf, [x, y, z, w]))
    case _ => None
  }

  // ---------------------------------------------------------------------------------------------
  // The iterator

  type Parsed = Result<(Frame, Bytes), Error>

  function Short(): Parsed {
    Err(UnexpectedEnd)
  }

  function NextSimple(ty: nat, b: Bytes): Parsed
    requires Arity(ty).Some?
  {
    var r := GetVars(b, Arity(ty).value);
    if r.None? then Short() else Ok((Simple(ty, r.value.0), r.value.1))
  }

  function NextAck(hasEcn: bool, b: Bytes): Parsed {
    var head := GetVars(b, 3);
    if head.None? then Short() else
      var (xs, body) := head.value;
      var scan := Scan(body, xs[0], xs[2]);
      if scan.Err? then Err(scan.error) else
        var blocks := body[..|body| - |scan.value|];
        if !hasEcn then Ok((Ack(xs[0], xs[1], blocks, None), scan.value)) else
          var counts := GetVars(scan.value, 3);
          if counts.None? then Short() else
            var cs := counts.value.0;
            Ok((Ack(xs[0], xs[1], blocks, Some(Ecn(cs[0], cs[1], cs[2]))), counts.value.1))
  }

  function NextCrypto(b: Bytes): Parsed {
    var offset := GetVar(b);
    if offset.None? then Short() else
      var data := TakeLen(offset.value.1);
      if data.None? then Short() else Ok((Crypto(offset.value.0, data.value.0), data.value.1))
  }

  function NextToken(b: Bytes): Parsed {
    var token := TakeLen(b);
    if token.None? then Short() else Ok((NewToken(token.value.0), token.value.1))
  }

  function NextConnectionId(b: Bytes): Parsed {
    var head := GetVars(b, 2);
    if head.None? then Short() else
      var (xs, body) := head.value;
      if xs[1] > xs[0] then Err(Malformed)
      else if body == [] then Short()
      else if body[0] > MAX_CID_SIZE || body[0] == 0 then Err(Malformed)
      else if |body| < 1 + body[0] + RESET_TOKEN_SIZE then Short()
      else
        var n := 1 + body[0];
        Ok((NewConnectionId(xs[0], xs[1], body[1..n], body[n..n + RESET_TOKEN_SIZE]), body[n + RESET_TOKEN_SIZE..]))
  }

  function NextPath(response: bool, b: Bytes): Parsed {
    if |b| < 8 then Short() else
      var token := GetUint(b[..8]);
      Ok((if response then PathResponse(token) else PathChallenge(token), b[8..]))
  }

  function NextConnectionClose(b: Bytes): Parsed {
    var head := GetVars(b, 2);
    if head.None? then Short() else
      var (xs, body) := head.value;
      var reason := TakeLen(body);
      if reason.None? then Short() else
        Ok((ConnectionClose(xs[0], if xs[1] == 0 then None else Some(xs[1]), reason.value.0), reason.value.1))
  }

  function NextApplicationClose(b: Bytes): Parsed {
    var code := GetVar(b);
    if code.None? then Short() else
      var reason := TakeLen(code.value.1);
      if reason.None? then Short() else Ok((ApplicationClose(code.value.0, reason.value.0), reason.value.1))
  }

  /** Three flag bits: 1 is fin, 2 is a length, 4 is an offset. */
  function NextStream(ty: nat, b: Bytes): Parsed {
    var head := GetVars(b, if ty / 4 % 2 == 1 then 2 else 1);
    if head.None? then Short() else
      var (xs, body) := head.value;
      var offset := if |xs| == 2 then xs[1] else 0;
      if ty / 2 % 2 == 0 then Ok((Stream(xs[0], offset, ty % 2 == 1, body), [])) else
        var data := TakeLen(body);
        if data.None? then Short() else Ok((Stream(xs[0], offset, ty % 2 == 1, data.value.0), data.value.1))
  }

  function NextDatagram(hasLength: bool, b: Bytes): Parsed {
    if !hasLength then Ok((Datagram(b), [])) else
      var data := TakeLen(b);
      if data.None? then Short() else Ok((Datagram(data.value.0), data.value.1))
  }

  /** `Iter::try_next` after the frame type. */
  function Body(ty: nat, b: Bytes): Parsed {
    if Arity(ty).Some? then NextSimple(ty, b)
    else if ty == 0x02 || ty == 0x03 then NextAck(ty == 0x03, b)
    else if ty == 0x06 then NextCrypto(b)
    else if ty == 0x07 then NextToken(b)
    else if ty == 0x18 then NextConnectionId(b)
    else if ty == 0x1a || ty == 0x1b then NextPath(ty == 0x1b, b)
    else if ty == 0x1c then NextConnectionClose(b)
    else if ty == 0x1d then NextApplicationClose(b)
    else if 0x08 <= ty <= 0x0f then NextStream(ty, b)
    else if ty == 0x30 || ty == 0x31 then NextDatagram(ty == 0x31, b)
    else Err(InvalidFrameId)
  }

  function Next(bytes: Bytes): Parsed {
    var ty := GetVar(bytes);
    if ty.None? then Short() else Body(ty.value.0, ty.value.1)
  }

  /** What later code relies on: acknowledgments can be iterated, and new connection IDs fit. */
  ghost predicate WellFormed(f: Frame) {
    && (f.Ack? ==>
          var blocks := Iterate(f.largest, f.additional);
          blocks.Some? && blocks.value != [] && blocks.value[0].high == f.largest && Descending(blocks.value, f.largest))
    && (f.NewConnectionId? ==>
          && f.retirePriorTo <= f.sequence && 0 < |f.cid| <= MAX_CID_SIZE && |f.resetToken| == RESET_TOKEN_SIZE)
  }

  lemma AckSound(hasEcn: bool, b: Bytes)
    requires NextAck(hasEcn, b).Ok?
    ensures var (f, rest) := NextAck(hasEcn, b).value; WellFormed(f) && |rest| <= |b|
  {
    hide GetVar, Scan, Iterate, Descending;
    var (xs, body) := GetVars(b, 3).value;
    ScannedIterates(body, xs[0], xs[2]);
  }

  lemma BodySound(ty: nat, b: Bytes)
    requires Body(ty, b).Ok?
    ensures var (f, rest) := Body(ty, b).value; WellFormed(f) && |rest| <= |b|
  {
    if ty == 0x02 || ty == 0x03 {
      AckSound(ty == 0x03, b);
    } else {
      hide GetVar, GetVars, GetUint, Scan, Iterate, Descending, TakeLen, NextAck;
    }
  }

  /** On any input, a frame that is accepted is well formed and takes at least one byte. */
  lemma NextSound(bytes: Bytes)
    requires Next(bytes).Ok?
    ensures var (f, rest) := Next(bytes).value; WellFormed(f) && |rest| < |bytes|
  {
    hide GetVar, Body, WellFormed;
    var (ty, b) := GetVar(bytes).value;
    BodySound(ty, b);
  }

  /** All frames of a payload, or the first error. */
  function DecodeAll(bytes: Bytes): (r: Result<seq<Frame>, Error>)
    ensures r.Ok? ==> forall i :: 0 <= i < |r.value| ==> WellFormed(r.value[i])
    decreases |bytes|
  {
    if bytes == [] then Ok([]) else
      var next := Next(bytes);
      if next.Err? then Err(next.error) else
        NextSound(bytes);
        var more := DecodeAll(next.value.1);
        if more.Err? then more else Ok([next.value.0] + more.value)
  }

  function Prepend(frames: seq<Frame>, r: Result<seq<Frame>, Error>): Result<seq<Frame>, Error> {
    if r.Err? then r else Ok(frames + r.value)
  }

  /** `Iter::new` and the loop that drains it: a payload without frames is refused. */
  method DecodePayload(payload: Bytes) returns (r: Result<seq<Frame>, Error>)
    ensures r == if payload == [] then Err(EmptyPayload) else DecodeAll(payload)
  {
    hide Next, WellFormed;
    if payload == [] {
      return Err(EmptyPayload);
    }
    var frames: seq<Frame> := [];
    var bytes := payload;
    assert DecodeAll(payload).Ok? ==> frames + DecodeAll(payload).value == DecodeAll(payload).value;
    while bytes != []
      invariant DecodeAll(payload) == Prepend(frames, DecodeAll(bytes))
      decreases |bytes|
    {
      var next := Next(bytes);
      if next.Err? {
        return Err(next.error);
      }
      NextSound(bytes);
      assert var more := DecodeAll(next.value.1);
             more.Ok? ==> frames + ([next.value.0] + more.value) == (frames + [next.value.0]) + more.value;
      frames := frames + [next.value.0];
      bytes := next.value.1;
    }
    assert frames + [] == frames;
    return Ok(frames);
  }

  // ---------------------------------------------------------------------------------------------
  // The encoders

  /** What an endpoint writes: a frame (stream and datagram frames with or without a length), an ACK of
      a range set, or a close frame whose reason is cut to fit `maxLen`. */
  datatype Outgoing =
    | Plain(frame: Frame, length: bool)
    | AckOf(delay: nat, ranges: seq<Range>, ecn: Option<Ecn>)
    | CloseOf(close: Frame, maxLen: nat)

  predicate EcnVars(e: Ecn) {
    e.ect0 < VARINT_END && e.ect1 < VARINT_END && e.ce < VARINT_END
  }

  predicate PlainSendable(f: Frame) {
    match f
    case Ack(_, _, _, _) => false
    case ConnectionClose(_, _, _) => false
    case ApplicationClose(_, _) => false
    case Crypto(offset, data) => offset < VARINT_END && |data| < VARINT_END
    case NewToken(token) => |token| < VARINT_END
    case NewConnectionId(sequence, retire, cid, token) =>
      retire <= sequence < VARINT_END && 0 < |cid| <= MAX_CID_SIZE && |token| == RESET_TOKEN_SIZE
    case PathChallenge(x) => x < 0x1_0000_0000_0000_0000
    case PathResponse(x) => x < 0x1_0000_0000_0000_0000
    case Stream(id, offset, _, data) => id < VARINT_END && offset < VARINT_END && |data| < VARINT_END
    case Datagram(data) => |data| < VARINT_END
    case _ => Vars(Fields(f).value.1)
  }

  /** The room a close frame leaves for its reason; the frame type and a two-byte error code are budgeted. */
  function ReasonRoom(close: Frame, maxLen: nat): int
    requires close.ConnectionClose? || close.ApplicationClose?
    requires |close.reason| < VARINT_END
    requires close.ConnectionClose? ==> CauseOf(close) < VARINT_END
  {
    maxLen - 3 - VarSize(|close.reason|) - if close.ConnectionClose? then VarSize(CauseOf(close)) else 0
  }

  function CauseOf(close: Frame): nat
    requires close.ConnectionClose?
  {
    if close.frameType.None? then 0 else close.frameType.value
  }

  predicate CloseSendable(close: Frame, maxLen: nat) {
    && (close.ConnectionClose? || close.ApplicationClose?)
    && close.errorCode < VARINT_END && |close.reason| < VARINT_END
    && (close.ConnectionClose? ==> CauseOf(close) < VARINT_END)
    && ReasonRoom(close, maxLen) >= 0
  }

  ghost predicate Sendable(o: Outgoing) {
    match o
    case Plain(f, _) => PlainSendable(f)
    case AckOf(delay, ranges, ecn) =>
      && delay < VARINT_END && ranges != [] && Encodable(ranges) && (ecn.Some? ==> EcnVars(ecn.value))
    case CloseOf(close, maxLen) => CloseSendable(close, maxLen)
  }

  /** Written without a length, so it has to be the last frame of its packet. */
  predicate Unbounded(o: Outgoing) {
    o.Plain? && (o.frame.Stream? || o.frame.Datagram?) && !o.length
  }

  function CutReason(close: Frame, maxLen: nat): Bytes
    requires CloseSendable(close, maxLen)
  {
    close.reason[..Min(|close.reason|, ReasonRoom(close, maxLen))]
  }

  /** The frame the peer is meant to see. */
  ghost function Received(o: Outgoing): Frame
    requires Sendable(o)
  {
    match o
    case Plain(f, _) => f
    case AckOf(delay, ranges, ecn) => Ack(ranges[|ranges| - 1].end - 1, delay, RangeBytes(ranges, |ranges| - 1), ecn)
    case CloseOf(close, maxLen) =>
      if close.ApplicationClose? then ApplicationClose(close.errorCode, CutReason(close, maxLen))
      else ConnectionClose(close.errorCode, if CauseOf(close) == 0 then None else Some(CauseOf(close)), CutReason(close, maxLen))
  }

  function StreamType(f: Frame, length: bool): nat
    requires f.Stream?
  {
    0x08 + (if f.offset != 0 then 4 else 0) + (if length then 2 else 0) + if f.fin then 1 else 0
  }

  function Typed(f: Frame, length: bool): (nat, Bytes)
    requires PlainSendable(f)
  {
    match f
    case Crypto(offset, data) => (0x06, PutVar(offset) + PutLen(data))
    case NewToken(token) => (0x07, PutLen(token))
    case NewConnectionId(sequence, retire, cid, token) => (0x18, PutVars([sequence, retire]) + ([|cid|] + cid + token))
    case PathChallenge(x) => (0x1a, PutUint(x, 8))
    case PathResponse(x) => (0x1b, PutUint(x, 8))
    case Stream(id, offset, _, data) =>
      (StreamType(f, length), PutVars(if offset != 0 then [id, offset] else [id]) + if length then PutLen(data) else data)
    case Datagram(data) => if length then (0x31, PutLen(data)) else (0x30, data)
    case _ => (Fields(f).value.0, PutVars(Fields(f).value.1))
  }

  function EcnBytes(ecn: Option<Ecn>): Bytes
    requires ecn.Some? ==> EcnVars(ecn.value)
  {
    if ecn.None? then [] else PutVars([ecn.value.ect0, ecn.value.ect1, ecn.value.ce])
  }

  /** The frame type and what follows it. */
  ghost function Parts(o: Outgoing): (nat, Bytes)
    requires Sendable(o)
  {
    match o
    case Plain(f, length) => Typed(f, length)
    case AckOf(delay, ranges, ecn) =>
      CountBounded(ranges, |ranges| - 1);
      (if ecn.Some? then 0x03 else 0x02,
       PutVars([ranges[|ranges| - 1].end - 1, delay, |ranges| - 1]) + (RangeBytes(ranges, |ranges| - 1) + EcnBytes(ecn)))
    case CloseOf(close, maxLen) =>
      if close.ApplicationClose? then (0x1d, PutVar(close.errorCode) + PutLen(CutReason(close, maxLen)))
      else (0x1c, PutVars([close.errorCode, CauseOf(close)]) + PutLen(CutReason(close, maxLen)))
  }

  lemma {:induction false} CountBounded(ranges: seq<Range>, k: nat)
    requires k < |ranges| && Encodable(ranges)
    ensures k < ranges[k].end
  {
    if k > 0 {
      CountBounded(ranges, k - 1);
    }
  }

  ghost function Encode(o: Outgoing): Bytes
    requires Sendable(o)
  {
    var (ty, body) := Parts(o);
    assert ty < VARINT_END;
    PutVar(ty) + body
  }

  ghost predicate ReadsBack(o: Outgoing, rest: Bytes)
    requires Sendable(o)
  {
    Body(Parts(o).0, Parts(o).1 + rest) == Ok((Received(o), rest))
  }

  lemma SimpleReadsBack(f: Frame, length: bool, rest: Bytes)
    requires PlainSendable(f) && Fields(f).Some?
    ensures ReadsBack(Plain(f, length), rest)
  {
    SimpleFields(f, length);
    var (ty, xs) := Fields(f).value;
    hide PutVars, GetVars, Fields, Simple, Arity, PlainSendable, Typed;
    VarsRoundTrip(xs, rest);
  }

  lemma SimpleFields(f: Frame, length: bool)
    requires PlainSendable(f) && Fields(f).Some?
    ensures var (ty, xs) := Fields(f).value;
            && Vars(xs) && Typed(f, length) == (ty, PutVars(xs))
            && Arity(ty) == Some(|xs|) && Simple(ty, xs) == f
  {
    hide PutVars;
  }

  lemma AckReadsBack(delay: nat, ranges: seq<Range>, ecn: Option<Ecn>, rest: Bytes)
    requires Sendable(AckOf(delay, ranges, ecn))
    ensures ReadsBack(AckOf(delay, ranges, ecn), rest)
  {
    hide PutVars, GetVars, PutVar, GetVar, VarSize, Scan, RangeBytes;
    var k := |ranges| - 1;
    assert k < ranges[k].end <= VARINT_END by {
      CountBounded(ranges, k);
    }
    hide Encodable;
    var head := [ranges[k].end - 1, delay, k];
    var tail := EcnBytes(ecn) + rest;
    var body := RangeBytes(ranges, k) + tail;
    VarsRoundTrip(head, body);
    assert (PutVars(head) + (RangeBytes(ranges, k) + EcnBytes(ecn))) + rest == PutVars(head) + body;
    RangesRoundTrip(ranges, k, tail);
    assert body[..|body| - |tail|] == RangeBytes(ranges, k);
    if ecn.Some? {
      VarsRoundTrip([ecn.value.ect0, ecn.value.ect1, ecn.value.ce], rest);
    } else {
      assert tail == rest;
    }
  }

  lemma CloseReadsBack(close: Frame, maxLen: nat, rest: Bytes)
    requires CloseSendable(close, maxLen)
    ensures ReadsBack(CloseOf(close, maxLen), rest)
  {
    hide PutVars, GetVars, PutVar, GetVar, VarSize, TakeLen, PutLen;
    var cut := CutReason(close, maxLen);
    var tail := PutLen(cut) + rest;
    LenRoundTrip(cut, rest);
    if close.ApplicationClose? {
      VarRoundTrip(close.errorCode, tail);
      assert (PutVar(close.errorCode) + PutLen(cut)) + rest == PutVar(close.errorCode) + tail;
    } else {
      var head := [close.errorCode, CauseOf(close)];
      VarsRoundTrip(head, tail);
      assert (PutVars(head) + PutLen(cut)) + rest == PutVars(head) + tail;
    }
  }

  lemma ConnectionIdReadsBack(f: Frame, length: bool, rest: Bytes)
    requires PlainSendable(f) && f.NewConnectionId?
    ensures ReadsBack(Plain(f, length), rest)
  {
    hide PutVars, GetVars;
    var head := [f.sequence, f.retirePriorTo];
    var body := [|f.cid|] + f.cid + f.resetToken + rest;
    VarsRoundTrip(head, body);
    assert (PutVars(head) + ([|f.cid|] + f.cid + f.resetToken)) + rest == PutVars(head) + body;
    var n := 1 + |f.cid|;
    assert body[1..n] == f.cid;
    assert body[n..n + RESET_TOKEN_SIZE] == f.resetToken;
    assert body[n + RESET_TOKEN_SIZE..] == rest;
  }

  lemma PathReadsBack(f: Frame, length: bool, rest: Bytes)
    requires PlainSendable(f) && (f.PathChallenge? || f.PathResponse?)
    ensures ReadsBack(Plain(f, length), rest)
  {
    Pow256Values();
    UintRoundTrip(f.challenge, 8);
    hide PutUint, GetUint;
    var bytes := PutUint(f.challenge, 8);
    assert (bytes + rest)[..8] == bytes && (bytes + rest)[8..] == rest;
  }

  lemma StreamReadsBack(f: Frame, length: bool, rest: Bytes)
    requires PlainSendable(f) && f.Stream? && (length || rest == [])
    ensures ReadsBack(Plain(f, length), rest)
  {
    hide PutVars, GetVars, TakeLen, PutLen;
    var head := if f.offset != 0 then [f.id, f.offset] else [f.id];
    var data := if length then PutLen(f.data) else f.data;
    VarsRoundTrip(head, data + rest);
    assert (PutVars(head) + data) + rest == PutVars(head) + (data + rest);
    LenRoundTrip(f.data, rest);
    assert rest == [] ==> f.data + rest == f.data;
  }

  lemma DataReadsBack(f: Frame, length: bool, rest: Bytes)
    requires PlainSendable(f) && (f.Crypto? || f.NewToken? || f.Datagram?) && (!Unbounded(Plain(f, length)) || rest == [])
    ensures ReadsBack(Plain(f, length), rest)
  {
    hide PutVar, GetVar, VarSize, TakeLen, PutLen;
    var data := if f.NewToken? then f.token else f.data;
    LenRoundTrip(data, rest);
    if f.Crypto? {
      var tail := PutLen(data) + rest;
      VarRoundTrip(f.offset, tail);
      assert (PutVar(f.offset) + PutLen(data)) + rest == PutVar(f.offset) + tail;
    }
    assert rest == [] ==> data + rest == data;
  }

  /** The iterator gives back the frame that was written and stops right behind it. */
  lemma FrameRoundTrip(o: Outgoing, rest: Bytes)
    requires Sendable(o) && (Unbounded(o) ==> rest == [])
    ensures Next(Encode(o) + rest) == Ok((Received(o), rest))
  {
    hide PutVar, VarSize, Body, Parts, Received, Sendable, Encode, Next;
    FrameReadsBack(o, rest);
    EncodeParts(o);
    var (ty, body) := Parts(o);
    assert PutVar(ty) + body + rest == PutVar(ty) + (body + rest);
    NextAfterType(ty, body + rest);
  }

  lemma EncodeParts(o: Outgoing)
    requires Sendable(o)
    ensures Parts(o).0 < VARINT_END && Encode(o) == PutVar(Parts(o).0) + Parts(o).1
  {
    hide PutVar, PutVars, PutLen, RangeBytes;
  }

  lemma NextAfterType(ty: nat, body: Bytes)
    requires ty < VARINT_END
    ensures Next(PutVar(ty) + body) == Body(ty, body)
  {
    hide PutVar, GetVar, VarSize, Body;
    VarRoundTrip(ty, body);
  }

  lemma FrameReadsBack(o: Outgoing, rest: Bytes)
    requires Sendable(o) && (Unbounded(o) ==> rest == [])
    ensures ReadsBack(o, rest)
  {
    hide ReadsBack;
    match o
    case AckOf(delay, ranges, ecn) => AckReadsBack(delay, ranges, ecn, rest);
    case CloseOf(close, maxLen) => CloseReadsBack(close, maxLen, rest);
    case Plain(f, length) =>
      if Fields(f).Some? {
        SimpleReadsBack(f, length, rest);
      } else if f.NewConnectionId? {
        ConnectionIdReadsBack(f, length, rest);
      } else if f.PathChallenge? || f.PathResponse? {
        PathReadsBack(f, length, rest);
      } else if f.Stream? {
        StreamReadsBack(f, length, rest);
      } else {
        DataReadsBack(f, length, rest);
      }
  }

  /** Payloads an endpoint builds: only the last frame may go without a length. */
  ghost predicate Payload(os: seq<Outgoing>) {
    && (forall i :: 0 <= i < |os| ==> Sendable(os[i]))
    && (forall i :: 0 <= i < |os| - 1 ==> !Unbounded(os[i]))
  }

  ghost function EncodeAll(os: seq<Outgoing>): Bytes
    requires Payload(os)
  {
    if os == [] then [] else Encode(os[0]) + EncodeAll(os[1..])
  }

  ghost function ReceivedAll(os: seq<Outgoing>): (fs: seq<Frame>)
    requires Payload(os)
    ensures |fs| == |os| && forall i :: 0 <= i < |os| ==> fs[i] == Received(os[i])
  {
    if os == [] then [] else [Received(os[0])] + ReceivedAll(os[1..])
  }

  /** A whole payload decodes to exactly the frames that were written, in order. */
  lemma {:induction false} PayloadRoundTrip(os: seq<Outgoing>)
    requires Payload(os)
    ensures DecodeAll(EncodeAll(os)) == Ok(ReceivedAll(os))
  {
    hide Sendable, Encode, Received, Next, WellFormed;
    if os != [] {
      var rest := EncodeAll(os[1..]);
      PayloadRoundTrip(os[1..]);
      FrameRoundTrip(os[0], rest);
      NextSound(EncodeAll(os));
    }
  }

  // ---------------------------------------------------------------------------------------------
  // Size of a close frame

  /** A close frame stays within the room it was given exactly when: with a reason that is not cut, the error
      code and the reason fit into two bytes and the room for the reason; with a reason that is cut, what its
      shorter length prefix saves makes up for an error code of more than two bytes. */
  lemma CloseFits(close: Frame, maxLen: nat)
    requires CloseSendable(close, maxLen)
    ensures var room, len := ReasonRoom(close, maxLen), |close.reason|;
            |Encode(CloseOf(close, maxLen))| <= maxLen
            <==> if len <= room then VarSize(close.errorCode) + len <= 2 + room
                 else VarSize(close.errorCode) + VarSize(room) <= 2 + VarSize(len)
    ensures close.errorCode < 0x4000 ==> |Encode(CloseOf(close, maxLen))| <= maxLen
  {
    CloseSize(close, maxLen);
    assert |CutReason(close, maxLen)| == Min(|close.reason|, ReasonRoom(close, maxLen));
    hide CutReason, Encode;
  }

  lemma CloseSize(close: Frame, maxLen: nat)
    requires CloseSendable(close, maxLen)
    ensures var cut := |CutReason(close, maxLen)|;
            |Encode(CloseOf(close, maxLen))|
            == 1 + VarSize(close.errorCode) + VarSize(cut) + cut + if close.ConnectionClose? then VarSize(CauseOf(close)) else 0
  {
    hide PutVar, VarSize;
    if close.ConnectionClose? {
      PutVarsTwo(close.errorCode, CauseOf(close));
    }
    hide PutVars;
    assert VarSize(0x1c) == VarSize(0x1d) == 1 by {
      TypeSize();
    }
  }

  lemma TypeSize()
    ensures VarSize(0x1c) == VarSize(0x1d) == 1
  {
  }

  lemma PutVarsTwo(x: nat, y: nat)
    requires x < VARINT_END && y < VARINT_END
    ensures |PutVars([x, y])| == VarSize(x) + VarSize(y)
  {
    hide PutVar, VarSize;
    assert [x, y][1..] == [y] && [y][1..] == [];
    assert PutVars([y]) == PutVar(y) + PutVars([]);
  }

  /** A four-byte application error code pushes a truncated close frame over its limit. */
  lemma LongErrorCodeOverflows(reason: Bytes)
    requires |reason| == 60
    ensures var close := ApplicationClose(0x4000, reason);
            CloseSendable(close, 50) && |Encode(CloseOf(close, 50))| == 52
  {
    CloseSize(ApplicationClose(0x4000, reason), 50);
  }
}
