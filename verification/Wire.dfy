/** Big-endian integers and QUIC variable-length integers (section 16 of RFC 9000). */
module Wire {
  import opened Basics

  function Pow256(n: nat): (p: nat)
    ensures p >= 1
  {
    if n == 0 then 1 else 256 * Pow256(n - 1)
  }

  /** The `n` low bytes of `x`, most significant first. */
  function PutUint(x: nat, n: nat): (bytes: seq<byte>)
    ensures |bytes| == n
  {
    if n == 0 then [] else PutUint(x / 256, n - 1) + [x % 256]
  }

  function GetUint(bytes: seq<byte>): (x: nat)
    ensures x < Pow256(|bytes|)
  {
    if bytes == [] then 0 else 256 * GetUint(bytes[..|bytes| - 1]) + bytes[|bytes| - 1]
  }

  lemma {:induction false} UintRoundTrip(x: nat, n: nat)
    requires x < Pow256(n)
    ensures GetUint(PutUint(x, n)) == x
  {
    if n > 0 {
      UintRoundTrip(x / 256, n - 1);
      var bytes := PutUint(x, n);
      assert bytes[..n - 1] == PutUint(x / 256, n - 1);
    }
  }

  /** The first byte carries the most significant digits. */
  lemma {:induction false} UintHead(h: byte, rest: seq<byte>)
    ensures GetUint([h] + rest) == h * Pow256(|rest|) + GetUint(rest)
  {
    if rest == [] {
      assert [h] + rest == [h];
      assert [h][..0] == [];
    } else {
      var k := |rest| - 1;
      assert ([h] + rest)[..k + 1] == [h] + rest[..k];
      UintHead(h, rest[..k]);
      assert GetUint([h] + rest) == 256 * (h * Pow256(k) + GetUint(rest[..k])) + rest[k];
      Distribute(h, Pow256(k), GetUint(rest[..k]));
    }
  }

  lemma Distribute(h: int, p: int, g: int)
    ensures 256 * (h * p + g) == h * (256 * p) + 256 * g
  {
  }

  lemma MulMonotone(a: int, b: int, p: nat)
    ensures a <= b ==> a * p <= b * p
  {
  }

  const VARINT_END: nat := 0x4000_0000_0000_0000

  /** `VarInt::size`. */
  function VarSize(x: nat): nat
    requires x < VARINT_END
  {
    if x < 0x40 then 1 else if x < 0x4000 then 2 else if x < 0x4000_0000 then 4 else 8
  }

  /** `VarInt::encode`: the two top bits give the length. */
  function PutVar(x: nat): (bytes: seq<byte>)
    requires x < VARINT_END
    ensures |bytes| == VarSize(x)
  {
    if x < 0x40 then PutUint(x, 1)
    else if x < 0x4000 then PutUint(0x4000 + x, 2)
    else if x < 0x4000_0000 then PutUint(0x8000_0000 + x, 4)
    else PutUint(0xC000_0000_0000_0000 + x, 8)
  }

  /** `VarInt::decode`: the value and what follows it, or `None` when the bytes end too soon. */
  function GetVar(bytes: seq<byte>): (r: Option<(nat, seq<byte>)>)
    ensures r.Some? ==> |r.value.1| < |bytes|
    ensures r.Some? ==> r.value.0 < VARINT_END
  {
    if bytes == [] then None else
      var tag := bytes[0] / 64;
      var n := if tag == 0 then 1 else if tag == 1 then 2 else if tag == 2 then 4 else 8;
      if |bytes| < n then None else
        VarBound(bytes[0] % 64, bytes[1..n]);
        Some((GetUint([bytes[0] % 64] + bytes[1..n]), bytes[n..]))
  }

  lemma VarBound(h: byte, rest: seq<byte>)
    requires h < 64 && |rest| <= 7
    ensures GetUint([h] + rest) < VARINT_END
  {
    UintHead(h, rest);
    PowAtMost(|rest|);
    MulMonotone(h, 63, Pow256(|rest|));
  }

  lemma PowAtMost(n: nat)
    requires n <= 7
    ensures Pow256(n) <= 0x0100_0000_0000_0000
  {
    Pow256Values();
    var p := Pow256(n);
    assert n == 0 || n == 1 || n == 2 || n == 3 || n == 4 || n == 5 || n == 6 || n == 7;
  }

  lemma Pow256Values()
    ensures Pow256(0) == 1 && Pow256(1) == 0x100 && Pow256(2) == 0x1_0000 && Pow256(3) == 0x100_0000
    ensures Pow256(4) == 0x1_0000_0000 && Pow256(5) == 0x100_0000_0000 && Pow256(6) == 0x1_0000_0000_0000
    ensures Pow256(7) == 0x0100_0000_0000_0000 && Pow256(8) == 0x1_0000_0000_0000_0000
  {
    assert Pow256(2) == 256 * Pow256(1);
    assert Pow256(3) == 256 * Pow256(2);
    assert Pow256(4) == 256 * Pow256(3);
    assert Pow256(5) == 256 * Pow256(4);
    assert Pow256(6) == 256 * Pow256(5);
    assert Pow256(7) == 256 * Pow256(6);
    assert Pow256(8) == 256 * Pow256(7);
  }

  /** An `n`-byte integer whose top bits hold a tag splits into tag and value. */
  lemma TaggedUint(x: nat, tag: nat, n: nat)
    requires n > 0 && tag < 4 && x < 64 * Pow256(n - 1)
    ensures var bytes := PutUint(tag * 64 * Pow256(n - 1) + x, n);
            && bytes[0] / 64 == tag
            && GetUint([bytes[0] % 64] + bytes[1..]) == x
  {
    var p := Pow256(n - 1);
    var v := tag * 64 * p + x;
    var bytes := PutUint(v, n);
    assert Pow256(n) == 256 * p;
    MulMonotone(tag, 3, 64 * p);
    assert v < 256 * p;
    UintRoundTrip(v, n);
    assert bytes == [bytes[0]] + bytes[1..];
    UintHead(bytes[0], bytes[1..]);
    UintHead(bytes[0] % 64, bytes[1..]);
    HeadDigits(bytes[0], GetUint(bytes[1..]), tag, x, p);
  }

  /** Uniqueness of the leading digit. */
  lemma HeadDigits(h: byte, low: nat, tag: nat, x: nat, p: nat)
    requires tag < 4 && low < p && x < 64 * p
    requires h * p + low == tag * 64 * p + x
    ensures h / 64 == tag && (h % 64) * p + low == x
  {
    var d := h - tag * 64;
    assert d * p + low == x;
    MulMonotone(d, -1, p);
    MulMonotone(64, d, p);
    assert 0 <= d < 64;
  }

  /** Decoding an encoded integer gives it back, followed by whatever came after it. */
  lemma VarRoundTrip(x: nat, rest: seq<byte>)
    requires x < VARINT_END
    ensures GetVar(PutVar(x) + rest) == Some((x, rest))
  {
    Pow256Values();
    var n := VarSize(x);
    var tag := if n == 1 then 0 else if n == 2 then 1 else if n == 4 then 2 else 3;
    TaggedUint(x, tag, n);
    var bytes := PutVar(x);
    assert bytes == PutUint(tag * 64 * Pow256(n - 1) + x, n);
    assert (bytes + rest)[..n] == bytes && (bytes + rest)[n..] == rest;
    assert (bytes + rest)[1..n] == bytes[1..];
  }
}
