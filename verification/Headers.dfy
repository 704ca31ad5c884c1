/** Packet headers before decryption, and datagrams that carry several packets (section 12.2 of RFC 9000).
    Encryption is opaque: it may replace the low bits of the first byte, the packet number and the payload. */
module Headers {
  import opened Basics
  import opened Wire

  type Bytes = seq<byte>

  const MAX_CID_SIZE := 20

  datatype Header =
    | Initial(version: nat, dst: Bytes, src: Bytes, token: Bytes)
    | Long(zeroRtt: bool, version: nat, dst: Bytes, src: Bytes)
    | Short(spin: bool, dst: Bytes)
    | Retry(version: nat, dst: Bytes, src: Bytes)
    | VersionNegotiate(random: nat, dst: Bytes, src: Bytes)
  {
    /** Packets with an explicit length; the others extend to the end of the datagram. */
    predicate HasLength() {
      Initial? || Long?
    }

    ghost predicate Valid() {
      && |dst| <= MAX_CID_SIZE
      && (Short? || |src| <= MAX_CID_SIZE)
      && (Initial? || Long? || Retry? ==> 0 < version < 0x1_0000_0000)
      && (Initial? ==> |token| < VARINT_END)
      && (VersionNegotiate? ==> random < 0x80)
    }
  }

  function PutCid(cid: Bytes): Bytes
    requires |cid| <= MAX_CID_SIZE
  {
    [|cid|] + cid
  }

  /** `ConnectionId::decode_long`. */
  function GetCid(b: Bytes): (r: Option<(Bytes, Bytes)>)
    ensures r.Some? ==> |r.value.1| < |b|
  {
    if b == [] || b[0] > MAX_CID_SIZE || |b| - 1 < b[0] then None
    else Some((b[1..1 + b[0]], b[1 + b[0]..]))
  }

  /** Everything between the first byte and the length field, or the packet number if there is none. */
  ghost function Middle(h: Header): Bytes
    requires h.Valid()
  {
    if h.Short? then h.dst else
      PutUint(if h.VersionNegotiate? then 0 else h.version, 4) + (PutCid(h.dst) + (PutCid(h.src) +
        if h.Initial? then PutVar(|h.token|) + h.token else []))
  }

  /** The first byte without its protected low bits. */
  function Top(h: Header): nat {
    match h
    case Initial(_, _, _, _) => 0xC0
    case Long(zeroRtt, _, _, _) => if zeroRtt then 0xD0 else 0xE0
    case Short(spin, _) => if spin then 0x60 else 0x40
    case Retry(_, _, _) => 0xF0
    case VersionNegotiate(random, _, _) => 0x80 + random
  }

  /** A packet as it travels: `low` and `tail` are whatever protection made of the low bits of the first
      byte and of the packet number and payload; `greased` packets have the fixed bit cleared. */
  datatype Packet = Packet(header: Header, greased: bool, low: nat, tail: Bytes)
  {
    ghost predicate Valid() {
      && header.Valid()
      && low < (if header.VersionNegotiate? then 1 else if header.Short? then 0x20 else 0x10)
      && (header.HasLength() ==> |tail| < 0x4000)
      && (greased ==> !header.VersionNegotiate?)
    }

    ghost function First(): (b: byte)
      requires Valid()
    {
      Top(header) + low - if greased then 0x40 else 0
    }

    ghost function Wire(): Bytes
      requires Valid()
    {
      [First()] + (Middle(header) + ((if header.HasLength() then PutUint(0x4000 + |tail|, 2) else []) + tail))
    }
  }

  // ---------------------------------------------------------------------------------------------
  // The decoder

  datatype Error =
    | UnexpectedEnd
    | FixedBitUnset
    | MalformedCid
    | PacketTooSmall
    | TokenOutOfBounds
    | UnsupportedVersion(src: Bytes, dst: Bytes, version: nat)
    | TooShortForPayload

  datatype Protected =
    | PInitial(version: nat, dst: Bytes, src: Bytes, tokenStart: nat, tokenEnd: nat, len: nat)
    | PLong(zeroRtt: bool, version: nat, dst: Bytes, src: Bytes, len: nat)
    | PShort(spin: bool, dst: Bytes)
    | PRetry(version: nat, dst: Bytes, src: Bytes)
    | PVersionNegotiate(random: nat, dst: Bytes, src: Bytes)

  datatype Config = Config(cidLen: nat, versions: seq<nat>, grease: bool)

  function DecodeInitial(total: nat, version: nat, dst: Bytes, src: Bytes, b: Bytes):
    (r: Result<(Protected, Bytes), Error>)
    requires |b| <= total
    ensures r.Ok? ==> |r.value.1| < |b|
  {
    var tokenLen := GetVar(b);
    if tokenLen.None? then Err(UnexpectedEnd) else
      var (n, rest) := tokenLen.value;
      if n > |rest| then Err(TokenOutOfBounds) else
        var len := GetVar(rest[n..]);
        if len.None? then Err(UnexpectedEnd) else
          var start := total - |rest|;
          Ok((PInitial(version, dst, src, start, start + n, len.value.0), len.value.1))
  }

  /** A long header after its connection IDs. */
  function DecodeType(first: byte, total: nat, version: nat, dst: Bytes, src: Bytes, b: Bytes, c: Config):
    (r: Result<(Protected, Bytes), Error>)
    requires |b| <= total
    ensures r.Ok? ==> |r.value.1| <= |b|
  {
    if version == 0 then Ok((PVersionNegotiate(first % 0x80, dst, src), b))
    else if version !in c.versions then Err(UnsupportedVersion(src, dst, version))
    else if first / 16 % 4 == 0 then DecodeInitial(total, version, dst, src, b)
    else if first / 16 % 4 == 3 then Ok((PRetry(version, dst, src), b))
    else
      var len := GetVar(b);
      if len.None? then Err(UnexpectedEnd)
      else Ok((PLong(first / 16 % 4 == 1, version, dst, src, len.value.0), len.value.1))
  }

  function DecodeLong(first: byte, b: Bytes, c: Config): (r: Result<(Protected, Bytes), Error>)
    ensures r.Ok? ==> |r.value.1| <= |b|
  {
    if |b| < 4 then Err(UnexpectedEnd) else
      var dst := GetCid(b[4..]);
      if dst.None? then Err(MalformedCid) else
        var src := GetCid(dst.value.1);
        if src.None? then Err(MalformedCid) else
          DecodeType(first, 1 + |b|, GetUint(b[..4]), dst.value.0, src.value.0, src.value.1, c)
  }

  /** `ProtectedHeader::decode`, with the bytes behind the header. */
  function DecodeHeader(b: Bytes, c: Config): (r: Result<(Protected, Bytes), Error>)
    ensures r.Ok? ==> |r.value.1| < |b|
  {
    if b == [] then Err(UnexpectedEnd)
    else if !c.grease && b[0] / 64 % 2 == 0 then Err(FixedBitUnset)
    else if b[0] >= 0x80 then DecodeLong(b[0], b[1..], c)
    else if |b| - 1 < c.cidLen then Err(PacketTooSmall)
    else Ok((PShort(b[0] / 32 % 2 == 1, b[1..1 + c.cidLen]), b[1 + c.cidLen..]))
  }

  function PayloadLen(h: Protected): Option<nat> {
    if h.PInitial? || h.PLong? then Some(h.len) else None
  }

  datatype Split = Split(header: Protected, packet: Bytes, rest: Bytes)

  /** `PartialDecode::new`: the first packet of a datagram and what is left. */
  function Decode(b: Bytes, c: Config): (r: Result<Split, Error>)
    ensures r.Ok? ==> b == r.value.packet + r.value.rest && |r.value.rest| < |b|
    ensures r.Ok? && PayloadLen(r.value.header).None? ==> r.value.rest == []
  {
    var head := DecodeHeader(b, c);
    if head.Err? then Err(head.error) else
      var (h, body) := head.value;
      if PayloadLen(h).None? then Ok(Split(h, b, []))
      else
        var end := |b| - |body| + PayloadLen(h).value;
        if |b| < end then Err(TooShortForPayload) else Ok(Split(h, b[..end], b[end..]))
  }

  /** The packets of a datagram, up to the first malformed header. */
  function SplitAll(b: Bytes, c: Config): seq<Split>
    decreases |b|
  {
    if b == [] then [] else
      var first := Decode(b, c);
      if first.Err? then [] else [first.value] + SplitAll(first.value.rest, c)
  }

  /** The loop of `handle_coalesced`; each packet is handed on as it is found. */
  method HandleCoalesced(data: Bytes, c: Config) returns (handled: seq<Split>)
    ensures handled == SplitAll(data, c)
  {
    hide Decode;
    handled := [];
    var remaining := Some(data);
    while remaining.Some?
      invariant remaining.Some? ==> SplitAll(data, c) == handled + SplitAll(remaining.value, c)
      invariant remaining.None? ==> SplitAll(data, c) == handled
      decreases remaining.Some?, if remaining.Some? then |remaining.value| else 0
    {
      var step := Decode(remaining.value, c);
      if step.Err? {
        return;
      }
      handled := handled + [step.value];
      remaining := if step.value.rest == [] then None else Some(step.value.rest);
    }
  }

  function Joined(ss: seq<Split>): Bytes {
    if ss == [] then [] else ss[0].packet + Joined(ss[1..])
  }

  /** On any datagram: the packets found are a partition of it, in order, up to the first byte sequence
      that is not a header, and only the last can be one without a length. */
  lemma {:induction false} SplitPartitions(b: Bytes, c: Config)
    ensures var ss := SplitAll(b, c);
            var n := |Joined(ss)|;
            && n <= |b| && Joined(ss) == b[..n]
            && (n == |b| || Decode(b[n..], c).Err?)
            && forall i :: 0 <= i < |ss| - 1 ==> PayloadLen(ss[i].header).Some?
    decreases |b|
  {
    hide Decode, PayloadLen;
    var ss := SplitAll(b, c);
    if b != [] && Decode(b, c).Ok? {
      var split := Decode(b, c).value;
      SplitPartitions(split.rest, c);
      assert ss[1..] == SplitAll(split.rest, c);
      var n := |Joined(ss)|;
      var m := |Joined(ss[1..])|;
      assert b[n..] == split.rest[m..];
    } else {
      assert b[0..] == b;
    }
  }

  // ---------------------------------------------------------------------------------------------
  // Round trip

  ghost predicate Acceptable(p: Packet, c: Config) {
    && p.Valid()
    && (p.header.Short? ==> |p.header.dst| == c.cidLen)
    && (p.header.Initial? || p.header.Long? || p.header.Retry? ==> p.header.version in c.versions)
    && (p.greased || (p.header.VersionNegotiate? && p.header.random < 0x40) ==> c.grease)
  }

  /** What the receiver learns before decryption. */
  ghost function View(p: Packet): Protected
    requires p.Valid()
  {
    match p.header
    case Initial(version, dst, src, token) =>
      var start := 7 + |dst| + |src| + VarSize(|token|);
      PInitial(version, dst, src, start, start + |token|, |p.tail|)
    case Long(zeroRtt, version, dst, src) => PLong(zeroRtt, version, dst, src, |p.tail|)
    case Short(spin, dst) => PShort(spin, dst)
    case Retry(version, dst, src) => PRetry(version, dst, src)
    case VersionNegotiate(random, dst, src) => PVersionNegotiate(random, dst, src)
  }

  lemma CidRoundTrip(cid: Bytes, rest: Bytes)
    requires |cid| <= MAX_CID_SIZE
    ensures GetCid(PutCid(cid) + rest) == Some((cid, rest))
  {
    var b := PutCid(cid) + rest;
    assert b[1..1 + |cid|] == cid && b[1 + |cid|..] == rest;
  }

  /** The patched length field is a two-byte integer whatever the length. */
  lemma LengthRoundTrip(n: nat, rest: Bytes)
    requires n < 0x4000
    ensures GetVar(PutUint(0x4000 + n, 2) + rest) == Some((n, rest))
  {
    Pow256Values();
    TaggedUint(n, 1, 2);
    var bytes := PutUint(0x4000 + n, 2);
    assert (bytes + rest)[1..2] == bytes[1..] && (bytes + rest)[2..] == rest;
    hide PutUint, GetUint, Pow256;
  }

  lemma FirstByte(p: Packet)
    requires p.Valid()
    ensures var b := p.First();
            && (b >= 0x80 <==> !p.header.Short?)
            && (!p.greased && !p.header.VersionNegotiate? ==> b / 64 % 2 == 1)
            && (p.header.VersionNegotiate? ==> b % 0x80 == p.header.random && (b / 64 % 2 == 1 <==> p.header.random >= 0x40))
            && (p.header.Short? ==> (b / 32 % 2 == 1 <==> p.header.spin))
            && (p.header.Initial? ==> b / 16 % 4 == 0)
            && (p.header.Long? ==> b / 16 % 4 == if p.header.zeroRtt then 1 else 2)
            && (p.header.Retry? ==> b / 16 % 4 == 3)
  {
  }

  /** An Initial or other length-carrying packet from its token on. */
  lemma InitialRoundTrip(total: nat, h: Header, n: nat, rest: Bytes)
    requires h.Initial? && h.Valid() && n < 0x4000
    requires |PutVar(|h.token|) + h.token + (PutUint(0x4000 + n, 2) + rest)| <= total
    ensures var body := PutVar(|h.token|) + h.token + (PutUint(0x4000 + n, 2) + rest);
            var start := total - |body| + VarSize(|h.token|);
            DecodeInitial(total, h.version, h.dst, h.src, body)
            == Ok((PInitial(h.version, h.dst, h.src, start, start + |h.token|, n), rest))
  {
    hide PutVar, GetVar, VarSize, PutUint;
    var after := PutUint(0x4000 + n, 2) + rest;
    assert PutVar(|h.token|) + h.token + after == PutVar(|h.token|) + (h.token + after);
    VarRoundTrip(|h.token|, h.token + after);
    assert (h.token + after)[|h.token|..] == after;
    LengthRoundTrip(n, rest);
  }

  /** What follows the connection IDs of a long header. */
  ghost function Body(p: Packet, rest: Bytes): Bytes
    requires p.Valid() && !p.header.Short?
  {
    if p.header.Initial? then PutVar(|p.header.token|) + p.header.token + (PutUint(0x4000 + |p.tail|, 2) + (p.tail + rest))
    else if p.header.Long? then PutUint(0x4000 + |p.tail|, 2) + (p.tail + rest)
    else p.tail + rest
  }

  lemma TypeRoundTrip(p: Packet, rest: Bytes, c: Config)
    requires Acceptable(p, c) && !p.header.Short?
    ensures var h := p.header;
            var body := Body(p, rest);
            DecodeType(p.First(), 7 + |h.dst| + |h.src| + |body|, if h.VersionNegotiate? then 0 else h.version, h.dst, h.src, body, c)
            == Ok((View(p), p.tail + rest))
  {
    hide PutVar, GetVar, VarSize, PutUint, Packet.First;
    FirstByte(p);
    var h := p.header;
    if h.Initial? {
      hide DecodeInitial;
      InitialRoundTrip(7 + |h.dst| + |h.src| + |Body(p, rest)|, h, |p.tail|, p.tail + rest);
    } else if h.Long? {
      LengthRoundTrip(|p.tail|, p.tail + rest);
    }
  }

  lemma WireShape(p: Packet, rest: Bytes)
    requires p.Valid()
    ensures p.Wire() + rest == [p.First()] +
              if p.header.Short? then p.header.dst + (p.tail + rest)
              else PutUint(if p.header.VersionNegotiate? then 0 else p.header.version, 4)
                   + (PutCid(p.header.dst) + (PutCid(p.header.src) + Body(p, rest)))
  {
    hide PutVar, PutUint, PutCid, VarSize, Packet.First, Top;
  }

  lemma HeaderRoundTrip(p: Packet, rest: Bytes, c: Config)
    requires Acceptable(p, c)
    ensures DecodeHeader(p.Wire() + rest, c) == Ok((View(p), p.tail + rest))
  {
    hide PutUint, PutCid, PutVar, VarSize, Packet.First, Packet.Wire, DecodeLong, Body;
    FirstByte(p);
    WireShape(p, rest);
    var h := p.header;
    var b := p.Wire() + rest;
    if h.Short? {
      assert b[1..1 + c.cidLen] == h.dst;
      assert b[1 + c.cidLen..] == p.tail + rest;
    } else {
      LongRoundTrip(p, rest, c);
      assert b[1..] == PutUint(if h.VersionNegotiate? then 0 else h.version, 4)
                       + (PutCid(h.dst) + (PutCid(h.src) + Body(p, rest)));
    }
  }

  lemma LongRoundTrip(p: Packet, rest: Bytes, c: Config)
    requires Acceptable(p, c) && !p.header.Short?
    ensures var h := p.header;
            var b := PutUint(if h.VersionNegotiate? then 0 else h.version, 4)
                     + (PutCid(h.dst) + (PutCid(h.src) + Body(p, rest)));
            DecodeLong(p.First(), b, c) == Ok((View(p), p.tail + rest))
  {
    hide Packet.First, DecodeType, View, PutUint, GetUint, GetCid, PutCid, Body, VarSize;
    var h := p.header;
    var version := if h.VersionNegotiate? then 0 else h.version;
    var body := Body(p, rest);
    var b := PutUint(version, 4) + (PutCid(h.dst) + (PutCid(h.src) + body));
    VersionRoundTrip(version);
    assert b[..4] == PutUint(version, 4);
    assert b[4..] == PutCid(h.dst) + (PutCid(h.src) + body);
    CidRoundTrip(h.dst, PutCid(h.src) + body);
    CidRoundTrip(h.src, body);
    CidSize(h.dst);
    CidSize(h.src);
    TypeRoundTrip(p, rest, c);
  }

  lemma VersionRoundTrip(version: nat)
    requires version < 0x1_0000_0000
    ensures GetUint(PutUint(version, 4)) == version
  {
    Pow256Values();
    UintRoundTrip(version, 4);
  }

  lemma CidSize(cid: Bytes)
    requires |cid| <= MAX_CID_SIZE
    ensures |PutCid(cid)| == 1 + |cid|
  {
  }

  /** A datagram an endpoint assembles: only its last packet can be one without a length. */
  ghost predicate Datagram(ps: seq<Packet>, c: Config) {
    && (forall i :: 0 <= i < |ps| ==> Acceptable(ps[i], c))
    && (forall i :: 0 <= i < |ps| - 1 ==> ps[i].header.HasLength())
  }

  ghost function WireAll(ps: seq<Packet>, c: Config): Bytes
    requires Datagram(ps, c)
  {
    if ps == [] then [] else ps[0].Wire() + WireAll(ps[1..], c)
  }

  lemma DecodeRoundTrip(p: Packet, rest: Bytes, c: Config)
    requires Acceptable(p, c) && (p.header.HasLength() || rest == [])
    ensures Decode(p.Wire() + rest, c) == Ok(Split(View(p), p.Wire(), rest))
  {
    HeaderRoundTrip(p, rest, c);
    ViewLen(p);
    hide DecodeHeader, Packet.Wire, View, PayloadLen, Acceptable;
    var b := p.Wire() + rest;
    assert b[..|p.Wire()|] == p.Wire() && b[|p.Wire()|..] == rest;
    assert rest == [] ==> b == p.Wire();
  }

  lemma ViewLen(p: Packet)
    requires p.Valid()
    ensures PayloadLen(View(p)) == if p.header.HasLength() then Some(|p.tail|) else None
  {
  }

  /** The receiver finds exactly the packets that were coalesced, each with its own bytes and header. */
  lemma {:induction false} CoalescedRoundTrip(ps: seq<Packet>, c: Config)
    requires Datagram(ps, c)
    ensures var ss := SplitAll(WireAll(ps, c), c);
            && |ss| == |ps| && Joined(ss) == WireAll(ps, c)
            && forall i :: 0 <= i < |ps| ==> ss[i].header == View(ps[i]) && ss[i].packet == ps[i].Wire()
  {
    hide Decode, Packet.Wire, View, Packet.Valid;
    if ps != [] {
      var rest := WireAll(ps[1..], c);
      assert |ps| == 1 ==> rest == [];
      DecodeRoundTrip(ps[0], rest, c);
      CoalescedRoundTrip(ps[1..], c);
      var ss := SplitAll(WireAll(ps, c), c);
      assert WireAll(ps, c) != [];
      assert ss == [Split(View(ps[0]), ps[0].Wire(), rest)] + SplitAll(rest, c);
      assert ss[1..] == SplitAll(rest, c);
    }
  }

  // ---------------------------------------------------------------------------------------------
  // The encoder: a header with room for the length, patched and protected once the payload is known

  /** `Header::encode`: the header up to and including its packet number, which sets the two low bits.
      Retry and Version Negotiation packets have no number. */
  method Encode(h: Header, keyPhase: bool, number: Bytes) returns (w: Bytes)
    requires h.Valid()
    requires if h.Retry? || h.VersionNegotiate? then number == [] else 1 <= |number| <= 4
    ensures w == [Top(h) + Tag(h, keyPhase, number)] + (Middle(h) + ((if h.HasLength() then [0, 0] else []) + number))
  {
    hide PutUint, PutVar, PutCid, VarSize;
    w := [Top(h) + Tag(h, keyPhase, number)];
    hide Tag, Top;
    ghost var start := w;
    if h.Short? {
      w := w + h.dst;
    } else {
      w := w + PutUint(if h.VersionNegotiate? then 0 else h.version, 4);
      w := w + PutCid(h.dst);
      w := w + PutCid(h.src);
      if h.Initial? {
        w := w + PutVar(|h.token|);
        w := w + h.token;
      }
    }
    assert w == start + Middle(h);
    hide Middle;
    ghost var upTo := w;
    if h.HasLength() {
      w := w + [0, 0];
    }
    w := w + number;
    assert w == upTo + ((if h.HasLength() then [0, 0] else []) + number);
  }

  function Tag(h: Header, keyPhase: bool, number: Bytes): nat {
    if number == [] then 0 else |number| - 1 + if h.Short? && keyPhase then 4 else 0
  }

  /** The number of values the protected bits of the first byte can take. */
  function LowRange(h: Header): nat {
    if h.Short? then 0x20 else 0x10
  }

  /** `PartialEncode::finish` on the bytes of one packet. The cipher text of the payload, the masked packet
      number and the masked low bits come from the keys; the assertion on the length is the source's. */
  method Finish(buf: array<byte>, ghost h: Header, ghost greased: bool, ghost tag: nat, headerLen: nat, pnLen: nat,
                writeLen: bool, lowRange: nat, low: nat, masked: Bytes, cipher: Bytes)
    requires h.Valid() && (h.HasLength() || h.Short?) && 1 <= pnLen <= 4 && headerLen <= buf.Length
    requires writeLen == h.HasLength() && lowRange == LowRange(h) && tag < lowRange && low < lowRange
    requires headerLen == 1 + |Middle(h)| + (if writeLen then 2 else 0) + pnLen
    requires buf[0] == Top(h) + tag - (if greased then 0x40 else 0)
    requires forall i :: 0 <= i < |Middle(h)| ==> buf[1 + i] == Middle(h)[i]
    requires |masked| == pnLen && |cipher| == buf.Length - headerLen
    requires writeLen ==> buf.Length - headerLen + pnLen < 0x4000
    modifies buf
    ensures var p := Packet(h, greased, low, masked + cipher);
            p.Valid() && buf[..] == p.Wire()
  {
    hide Middle, PutUint, Packet.Wire, Top;
    var pnPos := headerLen - pnLen;
    FirstRange(h, greased, tag, low);
    buf[0] := buf[0] - buf[0] % lowRange + low;
    if writeLen {
      var len := buf.Length - headerLen + pnLen;
      PutLength(buf, pnPos - 2, len);
    }
    Encrypt(buf, pnPos, masked, cipher);
    Assemble(buf[..], Packet(h, greased, low, masked + cipher));
  }

  /** Puts cipher text and masked packet number in place of what `buf` holds from `pnPos` on. */
  method Encrypt(buf: array<byte>, pnPos: nat, masked: Bytes, cipher: Bytes)
    requires pnPos + |masked| + |cipher| == buf.Length
    modifies buf
    ensures buf[pnPos..] == masked + cipher
    ensures forall i :: 0 <= i < pnPos ==> buf[i] == old(buf[i])
  {
    forall i | 0 <= i < |cipher| {
      buf[pnPos + |masked| + i] := cipher[i];
    }
    forall i | 0 <= i < |masked| {
      buf[pnPos + i] := masked[i];
    }
    assert forall i :: pnPos <= i < buf.Length ==> buf[i] == (masked + cipher)[i - pnPos];
  }

  method PutLength(buf: array<byte>, pos: nat, len: nat)
    requires pos + 2 <= buf.Length && len < 0x4000
    modifies buf
    ensures buf[pos..pos + 2] == PutUint(0x4000 + len, 2)
    ensures forall i :: 0 <= i < buf.Length && !(pos <= i < pos + 2) ==> buf[i] == old(buf[i])
  {
    TwoBytes(0x4000 + len);
    hide PutUint;
    buf[pos] := (0x4000 + len) / 256;
    buf[pos + 1] := (0x4000 + len) % 256;
  }

  lemma Assemble(b: Bytes, p: Packet)
    requires p.Valid()
    requires |b| == 1 + |Middle(p.header)| + (if p.header.HasLength() then 2 else 0) + |p.tail| && b[0] == p.First()
    requires forall i :: 0 <= i < |Middle(p.header)| ==> b[1 + i] == Middle(p.header)[i]
    requires p.header.HasLength() ==> b[|b| - |p.tail| - 2..|b| - |p.tail|] == PutUint(0x4000 + |p.tail|, 2)
    requires b[|b| - |p.tail|..] == p.tail
    ensures b == p.Wire()
  {
    hide Middle, PutUint, Packet.First;
    var m := 1 + |Middle(p.header)|;
    var t := |b| - |p.tail|;
    assert b[1..m] == Middle(p.header);
    assert b == [b[0]] + (b[1..m] + (b[m..t] + b[t..]));
  }

  lemma FirstRange(h: Header, greased: bool, tag: nat, low: nat)
    requires h.Valid() && (h.HasLength() || h.Short?) && tag < LowRange(h) && low < LowRange(h)
    ensures var b := Top(h) + tag - if greased then 0x40 else 0;
            b - b % LowRange(h) + low == Top(h) + low - if greased then 0x40 else 0
  {
  }

  lemma TwoBytes(x: nat)
    requires x < 0x1_0000
    ensures PutUint(x, 2) == [x / 256, x % 256]
  {
    assert PutUint(x, 2) == PutUint(x / 256, 1) + [x % 256];
    assert PutUint(x / 256, 1) == PutUint(x / 256 / 256, 0) + [x / 256 % 256];
  }
}
