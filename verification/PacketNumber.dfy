/** Truncated packet numbers (section 17.1 and appendix A of RFC 9000). */
module PacketNumbers {
  import opened Basics

  /** The low `8 * len` bits of a packet number. */
  datatype PacketNumber = PacketNumber(truncated: nat, len: nat)

  function Window(len: nat): nat
    requires 1 <= len <= 4
  {
    if len == 1 then 0x100 else if len == 2 then 0x1_0000 else if len == 3 then 0x100_0000 else 0x1_0000_0000
  }

  /** `PacketNumber::new`; `None` where the source panics because the number is too far ahead. */
  function New(n: nat, largestAcked: nat): (r: Option<PacketNumber>)
    requires largestAcked <= n
    ensures r.None? <==> n - largestAcked >= 0x8000_0000
    ensures r.Some? ==> 1 <= r.value.len <= 4 && n - largestAcked < Window(r.value.len) / 2
    ensures r.Some? ==> forall k :: 1 <= k < r.value.len ==> Window(k) / 2 <= n - largestAcked
  {
    var range := (n - largestAcked) * 2;
    if range < 0x100 then Some(PacketNumber(n % 0x100, 1))
    else if range < 0x1_0000 then Some(PacketNumber(n % 0x1_0000, 2))
    else if range < 0x100_0000 then Some(PacketNumber(n % 0x100_0000, 3))
    else if range < 0x1_0000_0000 then Some(PacketNumber(n % 0x1_0000_0000, 4))
    else None
  }

  /** `PacketNumber::expand`. */
  function Expand(number: PacketNumber, expected: nat): nat
    requires 1 <= number.len <= 4 && number.truncated < Window(number.len)
  {
    var win := Window(number.len);
    var candidate := expected - expected % win + number.truncated;
    if expected >= win / 2 && candidate <= expected - win / 2 then candidate + win
    else if candidate > expected + win / 2 && candidate > win then candidate - win
    else candidate
  }

  /** Expansion recovers a number exactly when it lies in the half-open window around the expected one,
      or, when the window would reach below zero, when it was not truncated at all. */
  lemma ExpandExact(n: nat, len: nat, expected: nat)
    requires 1 <= len <= 4
    ensures var win := Window(len);
            Expand(PacketNumber(n % win, len), expected) == n
            <==> if expected < win / 2 then n < win else expected - win / 2 < n <= expected + win / 2
  {
    var win := Window(len);
    Residues(n, expected, win);
    var candidate := expected - expected % win + n % win;
    Nearest(n, expected, win, candidate);
  }

  /** Two numbers with the same residue differ by a multiple of the window. */
  lemma Residues(n: nat, expected: nat, win: nat)
    requires win == 0x100 || win == 0x1_0000 || win == 0x100_0000 || win == 0x1_0000_0000
    ensures var candidate := expected - expected % win + n % win;
            && (n < candidate ==> n == candidate - win || n <= candidate - 2 * win)
            && (n > candidate ==> n == candidate + win || n >= candidate + 2 * win)
            && (candidate < win <==> expected < win)
            && 0 <= candidate && expected - win < candidate < expected + win
  {
  }

  lemma Nearest(n: nat, expected: nat, win: nat, candidate: nat)
    requires win % 2 == 0
    requires n < candidate ==> n == candidate - win || n <= candidate - 2 * win
    requires n > candidate ==> n == candidate + win || n >= candidate + 2 * win
    requires (candidate < win <==> expected < win) && expected - win < candidate < expected + win
    ensures var found := if expected >= win / 2 && candidate <= expected - win / 2 then candidate + win
                         else if candidate > expected + win / 2 && candidate > win then candidate - win
                         else candidate;
            found == n <==> if expected < win / 2 then n < win else expected - win / 2 < n <= expected + win / 2
  {
  }

  /** Across two endpoints: the sender encodes against the largest number acknowledged to it, which the
      receiver has already seen, so the receiver expects at least that. The number is recovered if and
      only if it is not overtaken by half a window. */
  lemma NumberRoundTrip(n: nat, largestAcked: nat, expected: nat)
    requires largestAcked <= n && largestAcked <= expected
    requires New(n, largestAcked).Some?
    ensures var number := New(n, largestAcked).value;
            Expand(number, expected) == n
            <==> expected < n + Window(number.len) / 2
  {
    var number := New(n, largestAcked).value;
    ExpandExact(n, number.len, expected);
  }
}
