/** The log of used address-validation tokens: two filters over consecutive periods, each a set that
    turns into a Bloom filter when it grows too large. */
module TokenLog {
  /** The bits a Bloom filter sets for a fingerprint: any function of it. */
  type Hashes = nat -> set<nat>

  datatype Filter = Exact(items: set<nat>) | Bloom(bits: set<nat>) {
    /** Whether inserting the fingerprint would find it present. */
    predicate Detects(fingerprint: nat, h: Hashes) {
      match this
      case Exact(items) => fingerprint in items
      case Bloom(bits) => h(fingerprint) <= bits
    }
  }

  /** The bits of all items, as the conversion loop sets them. */
  method Convert(items: set<nat>, h: Hashes) returns (bits: set<nat>)
    ensures forall x :: x in items ==> h(x) <= bits
    ensures forall b :: b in bits ==> exists x :: x in items && b in h(x)
  {
    bits := {};
    var rest := items;
    while rest != {}
      invariant rest <= items
      invariant forall x :: x in items - rest ==> h(x) <= bits
      invariant forall b :: b in bits ==> exists x :: x in items && b in h(x)
      decreases rest
    {
      var x :| x in rest;
      bits := bits + h(x);
      rest := rest - {x};
    }
  }

  /** `Filter::check_and_insert`: accept a fingerprint exactly when it is not detected, and detect it
      and everything detected before from then on. `grown` says whether the set outgrew its budget. */
  method Insert(f: Filter, fingerprint: nat, grown: bool, h: Hashes) returns (ok: bool, f': Filter)
    ensures ok <==> !f.Detects(fingerprint, h)
    ensures forall x :: x == fingerprint || f.Detects(x, h) ==> f'.Detects(x, h)
    ensures f.Exact? && f'.Exact? ==> f'.items == f.items + {fingerprint}
    ensures f.Bloom? ==> f'.Bloom?
  {
    match f
    case Exact(items) =>
      if fingerprint in items {
        return false, f;
      }
      if !grown {
        return true, Exact(items + {fingerprint});
      }
      var bits := Convert(items + {fingerprint}, h);
      return true, Bloom(bits);
    case Bloom(bits) =>
      return !(h(fingerprint) <= bits), Bloom(bits + h(fingerprint));
  }

  /** The nonce is cut down to 64 bits. */
  function Fingerprint(nonce: nat): nat { nonce % 0x1_0000_0000_0000_0000 }

  /** How many whole periods fit before a time. */
  function PeriodsForward(duration: nat, lifetime: nat): (n: nat)
    requires lifetime > 0
    ensures n == 0 <==> duration < lifetime
    ensures n == 1 <==> lifetime <= duration < 2 * lifetime
    ensures n == 2 <==> 2 * lifetime <= duration < 3 * lifetime
  {
    duration / lifetime
  }

  /** A presented token: its nonce and issue time, in nanoseconds around the epoch. */
  datatype Token = Token(nonce: nat, issued: int)

  class BloomTokenLog {
    const h: Hashes
    const lifetime: nat
    var period1Start: int
    var filter1: Filter
    var filter2: Filter

    /** The tokens accepted so far. */
    ghost var accepted: set<Token>

    /** An accepted token has expired, or the filter for the period in which it expires detects it. */
    ghost predicate Remembered(t: Token)
      reads this
    {
      var expires := t.issued + lifetime;
      || expires < period1Start
      || (expires < period1Start + lifetime && filter1.Detects(Fingerprint(t.nonce), h))
      || (period1Start + lifetime <= expires < period1Start + 2 * lifetime
          && filter2.Detects(Fingerprint(t.nonce), h))
    }

    ghost predicate Valid()
      reads this
    {
      forall t :: t in accepted ==> Remembered(t)
    }

    constructor (h: Hashes, lifetime: nat)
      ensures Valid() && accepted == {} && this.lifetime == lifetime
    {
      this.h, this.lifetime := h, lifetime;
      period1Start, filter1, filter2 := 0, Exact({}), Exact({});
      accepted := {};
    }

    /** Accept a token only if it was never accepted before, whatever the order of presentation. A
        token is refused only when it expired before the first period or its period's filter detects
        its fingerprint. */
    method CheckAndInsert(t: Token, grown: bool) returns (ok: bool)
      requires Valid()
      modifies this
      ensures Valid()
      ensures ok ==> t !in old(accepted) && accepted == old(accepted) + {t}
      ensures !ok ==> accepted == old(accepted)
      ensures !ok <==>
                || lifetime == 0 || t.issued + lifetime < old(period1Start)
                || (t.issued + lifetime < old(period1Start) + lifetime
                    && old(filter1).Detects(Fingerprint(t.nonce), h))
                || (old(period1Start) + lifetime <= t.issued + lifetime < old(period1Start) + 2 * lifetime
                    && old(filter2).Detects(Fingerprint(t.nonce), h))
    {
      hide PeriodsForward, Fingerprint;
      if lifetime == 0 {
        return false;
      }
      var expires := t.issued + lifetime;
      if expires < period1Start {
        return false;
      }
      var periodsForward := PeriodsForward(expires - period1Start, lifetime);
      var fingerprint := Fingerprint(t.nonce);
      if periodsForward == 0 {
        ok, filter1 := Insert(filter1, fingerprint, grown, h);
      } else if periodsForward == 1 {
        ok, filter2 := Insert(filter2, fingerprint, grown, h);
      } else if periodsForward == 2 {
        filter1, filter2 := filter2, Exact({});
        period1Start := period1Start + lifetime;
        ok, filter2 := Insert(filter2, fingerprint, grown, h);
      } else {
        filter1, filter2 := Exact({}), Exact({});
        period1Start := expires;
        ok, filter1 := Insert(filter1, fingerprint, grown, h);
      }
      if ok {
        accepted := accepted + {t};
      }
    }
  }

  /** Over any sequence of presentations, through period turnover and conversion to Bloom filters, no
      token is accepted twice. */
  method Present(tokens: seq<Token>, grown: seq<bool>, h: Hashes, lifetime: nat) returns (oks: seq<bool>)
    requires |grown| == |tokens|
    ensures |oks| == |tokens|
    ensures forall i, j :: 0 <= i < j < |tokens| && tokens[i] == tokens[j] ==> !(oks[i] && oks[j])
  {
    var log := new BloomTokenLog(h, lifetime);
    oks := [];
    for k := 0 to |tokens|
      invariant log.Valid() && fresh(log) && |oks| == k
      invariant forall i :: 0 <= i < k && oks[i] ==> tokens[i] in log.accepted
      invariant forall i, j :: 0 <= i < j < k && tokens[i] == tokens[j] ==> !(oks[i] && oks[j])
    {
      var ok := log.CheckAndInsert(tokens[k], grown[k]);
      oks := oks + [ok];
    }
  }
}
