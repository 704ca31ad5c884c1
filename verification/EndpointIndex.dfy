/** The server side of the endpoint: which connection or pending attempt a datagram belongs to, and how many
    bytes are buffered for attempts nobody has accepted yet. Local connection IDs are not empty. */
module EndpointIndex {
  import opened Basics

  type Cid = seq<byte>

  datatype Route = ToIncoming(index: nat) | ToConnection(handle: nat)

  /** What the endpoint keeps of a connection: the CID the client chose first and the CIDs issued to it. */
  datatype Meta = Meta(initCid: Cid, cidsIssued: nat, locCids: map<nat, Cid>)

  type Connections = map<nat, Meta>

  /** Datagrams held back for a pending attempt, as their lengths. */
  datatype Buffer = Buffer(datagrams: seq<nat>, totalBytes: nat)

  datatype Config = Config(cidLen: nat, maxIncoming: nat, bufferSize: nat, bufferSizeTotal: nat)

  const MIN_INITIAL_SIZE := 1200

  // ---------------------------------------------------------------------------------------------
  // Local connection IDs

  ghost predicate Owns(meta: Meta, cid: Cid) {
    exists q :: q in meta.locCids && meta.locCids[q] == cid
  }

  /** A connection's CIDs are distinct and were issued under increasing sequence numbers. */
  ghost predicate Distinct(meta: Meta) {
    && (forall q :: q in meta.locCids ==> q < meta.cidsIssued)
    && (forall q, q' :: q in meta.locCids && q' in meta.locCids && q != q' ==> meta.locCids[q] != meta.locCids[q'])
  }

  /** `ids` is exactly the union of the connections' local CIDs, and no CID is shared. */
  ghost predicate Routes(ids: map<Cid, nat>, conns: Connections) {
    && (forall ch :: ch in conns ==> Distinct(conns[ch]))
    && (forall ch, cid :: ch in conns && Owns(conns[ch], cid) ==> cid in ids && ids[cid] == ch)
    && (forall cid :: cid in ids ==> ids[cid] in conns && Owns(conns[ids[cid]], cid))
  }

  function Issued(meta: Meta, cid: Cid): Meta {
    meta.(cidsIssued := meta.cidsIssued + 1, locCids := meta.locCids[meta.cidsIssued := cid])
  }

  lemma IssuedOwns(meta: Meta, cid: Cid)
    requires Distinct(meta) && !Owns(meta, cid)
    ensures Distinct(Issued(meta, cid))
    ensures forall c :: Owns(Issued(meta, cid), c) <==> c == cid || Owns(meta, c)
  {
    var meta' := Issued(meta, cid);
    assert meta'.locCids[meta.cidsIssued] == cid;
    forall c | Owns(meta, c)
      ensures Owns(meta', c)
    {
      var q :| q in meta.locCids && meta.locCids[q] == c;
      assert q in meta'.locCids && meta'.locCids[q] == c;
    }
  }

  lemma RoutesIssue(ids: map<Cid, nat>, conns: Connections, ch: nat, cid: Cid)
    requires Routes(ids, conns) && ch in conns && cid !in ids
    ensures Routes(ids[cid := ch], conns[ch := Issued(conns[ch], cid)])
  {
    IssuedOwns(conns[ch], cid);
    hide Owns, Distinct, Issued;
  }

  function Retired(meta: Meta, q: nat): Meta {
    meta.(locCids := meta.locCids - {q})
  }

  lemma RetiredOwns(meta: Meta, q: nat)
    requires Distinct(meta) && q in meta.locCids
    ensures Distinct(Retired(meta, q)) && Owns(meta, meta.locCids[q])
    ensures forall c :: Owns(Retired(meta, q), c) <==> c != meta.locCids[q] && Owns(meta, c)
  {
    var meta' := Retired(meta, q);
    forall c | c != meta.locCids[q] && Owns(meta, c)
      ensures Owns(meta', c)
    {
      var p :| p in meta.locCids && meta.locCids[p] == c;
      assert p in meta'.locCids && meta'.locCids[p] == c;
    }
  }

  lemma RoutesRetire(ids: map<Cid, nat>, conns: Connections, ch: nat, q: nat)
    requires Routes(ids, conns) && ch in conns && q in conns[ch].locCids
    ensures Routes(ids - {conns[ch].locCids[q]}, conns[ch := Retired(conns[ch], q)])
  {
    var cid := conns[ch].locCids[q];
    RetiredOwns(conns[ch], q);
    assert ids[cid] == ch;
    hide Owns, Distinct, Retired;
    var ids', conns' := ids - {cid}, conns[ch := Retired(conns[ch], q)];
    forall c | c in ids'
      ensures ids'[c] in conns' && Owns(conns'[ids'[c]], c)
    {
      assert Owns(conns[ids[c]], c);
    }
  }

  lemma RoutesOpen(ids: map<Cid, nat>, conns: Connections, ch: nat, d: Cid)
    requires Routes(ids, conns) && ch !in conns
    ensures Routes(ids, conns[ch := Meta(d, 0, map[])])
  {
    var blank := Meta(d, 0, map[]);
    assert Distinct(blank) && forall c :: !Owns(blank, c);
    hide Owns, Distinct;
  }

  function Without(ids: map<Cid, nat>, ch: nat): map<Cid, nat> {
    map cid | cid in ids && ids[cid] != ch :: ids[cid]
  }

  /** None of the CIDs issued so far was retired. */
  ghost predicate Complete(meta: Meta) {
    forall q :: q in meta.locCids <==> 0 <= q < meta.cidsIssued
  }

  /** One more CID for the connection `ch` that is being set up. */
  lemma IssueOne(ids: map<Cid, nat>, conns: Connections, ch: nat, meta: Meta, cid: Cid)
    requires Routes(ids, conns[ch := meta]) && cid !in ids
    ensures Routes(ids[cid := ch], conns[ch := Issued(meta, cid)])
    ensures Without(ids[cid := ch], ch) == Without(ids, ch)
    ensures Complete(meta) ==> Complete(Issued(meta, cid))
    ensures Issued(meta, cid).initCid == meta.initCid && Issued(meta, cid).cidsIssued == meta.cidsIssued + 1
  {
    hide Routes;
    RoutesIssue(ids, conns[ch := meta], ch, cid);
    assert conns[ch := meta][ch := Issued(meta, cid)] == conns[ch := Issued(meta, cid)];
  }

  lemma Unused(ids: map<Cid, nat>, conns: Connections, ch: nat)
    requires Routes(ids, conns) && ch !in conns
    ensures Without(ids, ch) == ids
  {
  }

  lemma RoutesClose(ids: map<Cid, nat>, conns: Connections, ch: nat)
    requires Routes(ids, conns)
    ensures Routes(Without(ids, ch), conns - {ch})
  {
    hide Owns, Distinct;
  }

  // ---------------------------------------------------------------------------------------------
  // Initial connection IDs

  ghost predicate StartsAt(route: Route, d: Cid, pending: map<nat, Cid>, conns: Connections) {
    match route
    case ToIncoming(i) => i in pending && pending[i] == d
    case ToConnection(ch) => ch in conns && conns[ch].initCid == d
  }

  /** `initial` maps each client-chosen CID to the one pending attempt or live connection it belongs to, and
      misses none of them. */
  ghost predicate Starts(initial: map<Cid, Route>, pending: map<nat, Cid>, conns: Connections) {
    && (forall i :: i in pending ==> pending[i] in initial && initial[pending[i]] == ToIncoming(i))
    && (forall ch :: ch in conns ==> conns[ch].initCid in initial && initial[conns[ch].initCid] == ToConnection(ch))
    && (forall d :: d in initial ==> d != [] && StartsAt(initial[d], d, pending, conns))
  }

  lemma StartsPending(initial: map<Cid, Route>, pending: map<nat, Cid>, conns: Connections, i: nat, d: Cid)
    requires Starts(initial, pending, conns) && i !in pending && d !in initial && d != []
    ensures Starts(initial[d := ToIncoming(i)], pending[i := d], conns)
  {
  }

  lemma StartsDropped(initial: map<Cid, Route>, pending: map<nat, Cid>, conns: Connections, i: nat)
    requires Starts(initial, pending, conns) && i in pending
    ensures Starts(initial - {pending[i]}, pending - {i}, conns)
  {
  }

  lemma StartsAccepted(initial: map<Cid, Route>, pending: map<nat, Cid>, conns: Connections, i: nat, ch: nat, meta: Meta)
    requires Starts(initial, pending, conns) && i in pending && ch !in conns && meta.initCid == pending[i]
    ensures Starts(initial[pending[i] := ToConnection(ch)], pending - {i}, conns[ch := meta])
  {
  }

  lemma StartsClosed(initial: map<Cid, Route>, pending: map<nat, Cid>, conns: Connections, ch: nat)
    requires Starts(initial, pending, conns) && ch in conns
    ensures Starts(initial - {conns[ch].initCid}, pending, conns - {ch})
  {
  }

  lemma StartsSame(initial: map<Cid, Route>, pending: map<nat, Cid>, conns: Connections, ch: nat, meta: Meta)
    requires Starts(initial, pending, conns) && ch in conns && meta.initCid == conns[ch].initCid
    ensures Starts(initial, pending, conns[ch := meta])
  {
  }

  // ---------------------------------------------------------------------------------------------
  // Buffered bytes

  function Sum(lens: seq<nat>): nat {
    if lens == [] then 0 else Sum(lens[..|lens| - 1]) + lens[|lens| - 1]
  }

  /** The bytes buffered for the attempts numbered below `n`. */
  function Total(buffers: map<nat, Buffer>, n: nat): nat {
    if n == 0 then 0 else Total(buffers, n - 1) + if n - 1 in buffers then buffers[n - 1].totalBytes else 0
  }

  lemma {:induction false} TotalSame(a: map<nat, Buffer>, b: map<nat, Buffer>, n: nat)
    requires forall k :: 0 <= k < n ==> (k in a <==> k in b) && (k in a ==> a[k].totalBytes == b[k].totalBytes)
    ensures Total(a, n) == Total(b, n)
  {
    if n > 0 {
      TotalSame(a, b, n - 1);
    }
  }

  lemma {:induction false} TotalChange(a: map<nat, Buffer>, b: map<nat, Buffer>, i: nat, n: nat)
    requires i < n && forall k :: 0 <= k < n && k != i ==> (k in a <==> k in b) && (k in a ==> a[k].totalBytes == b[k].totalBytes)
    ensures Total(b, n) - (if i in b then b[i].totalBytes else 0) == Total(a, n) - if i in a then a[i].totalBytes else 0
    ensures i in a ==> a[i].totalBytes <= Total(a, n)
  {
    if n - 1 == i {
      TotalSame(a, b, i);
    } else {
      TotalChange(a, b, i, n - 1);
    }
  }

  lemma {:induction false} TotalExtend(a: map<nat, Buffer>, n: nat, n': nat)
    requires n <= n' && forall k :: k in a ==> k < n
    ensures Total(a, n') == Total(a, n)
    decreases n'
  {
    if n < n' {
      TotalExtend(a, n, n' - 1);
    }
  }

  /** The global counter is the sum over the buffers, each of which counts its own datagrams, and all limits
      hold. `span` is past every index in use. */
  ghost predicate Accounted(buffers: map<nat, Buffer>, all: nat, span: nat, config: Config) {
    && (forall i :: i in buffers ==>
          i < span && buffers[i].totalBytes == Sum(buffers[i].datagrams) && buffers[i].totalBytes <= config.bufferSize)
    && all == Total(buffers, span) && all <= config.bufferSizeTotal
    && |buffers| <= config.maxIncoming
  }

  lemma AccountedOpen(buffers: map<nat, Buffer>, all: nat, span: nat, config: Config, i: nat)
    requires Accounted(buffers, all, span, config) && i !in buffers && |buffers| < config.maxIncoming
    ensures Accounted(buffers[i := Buffer([], 0)], all, Max(span, i + 1), config)
  {
    var b := buffers[i := Buffer([], 0)];
    var n := Max(span, i + 1);
    TotalExtend(buffers, span, n);
    TotalChange(buffers, b, i, n);
  }

  function Pushed(buffer: Buffer, len: nat): Buffer {
    Buffer(buffer.datagrams + [len], buffer.totalBytes + len)
  }

  lemma AccountedPush(buffers: map<nat, Buffer>, all: nat, span: nat, config: Config, i: nat, len: nat)
    requires Accounted(buffers, all, span, config) && i in buffers
    requires buffers[i].totalBytes + len <= config.bufferSize && all + len <= config.bufferSizeTotal
    ensures Accounted(buffers[i := Pushed(buffers[i], len)], all + len, span, config)
  {
    var b := buffers[i := Pushed(buffers[i], len)];
    TotalChange(buffers, b, i, span);
    assert b[i].datagrams[..|b[i].datagrams| - 1] == buffers[i].datagrams;
    assert b.Keys == buffers.Keys;
    assert |b| == |b.Keys| == |buffers.Keys|;
  }

  lemma AccountedDrop(buffers: map<nat, Buffer>, all: nat, span: nat, config: Config, i: nat)
    requires Accounted(buffers, all, span, config) && i in buffers
    ensures buffers[i].totalBytes <= all
    ensures Accounted(buffers - {i}, all - buffers[i].totalBytes, span, config)
  {
    TotalChange(buffers, buffers - {i}, i, span);
    assert (buffers - {i}).Keys == buffers.Keys - {i};
    assert |buffers - {i}| == |(buffers - {i}).Keys|;
  }

  // ---------------------------------------------------------------------------------------------
  // The endpoint

  /** What `handle` does with a datagram. */
  datatype Outcome = Buffered | Discarded | ForConnection(handle: nat) | NewConnection(index: nat) | Refused | Ignored

  datatype Verdict = Stale | Exhausted | Unauthentic | HandshakeFailed | Accepted(handle: nat)

  class Endpoint {
    const config: Config
    var connectionIds: map<Cid, nat>
    var initial: map<Cid, Route>
    var connections: Connections
    var incoming: map<nat, Buffer>
    var totalBytes: nat
    /** The attempts handed to the application and not yet decided, with the CIDs they came in on. */
    ghost var pending: map<nat, Cid>
    ghost var span: nat

    ghost predicate Valid()
      reads this
    {
      && Routes(connectionIds, connections)
      && Starts(initial, pending, connections)
      && Accounted(incoming, totalBytes, span, config)
      && pending.Keys == incoming.Keys
      && config.cidLen > 0
    }

    constructor (config: Config)
      requires config.cidLen > 0
      ensures Valid() && this.config == config && connections == map[] && incoming == map[]
    {
      this.config := config;
      connectionIds, initial, connections, incoming, totalBytes := map[], map[], map[], map[], 0;
      pending, span := map[], 0;
    }

    predicate CidsExhausted()
      reads this`connectionIds
    {
      var space := if config.cidLen == 1 then 0x100 else if config.cidLen == 2 then 0x1_0000
                   else if config.cidLen == 3 then 0x100_0000 else 0x1_0000_0000;
      0 < config.cidLen <= 4 && |connectionIds| > space - space / 4
    }

    /** `ConnectionIndex::get` by connection ID. */
    function Get(dst: Cid, early: bool): Option<Route>
      reads this
    {
      if dst != [] && dst in connectionIds then Some(ToConnection(connectionIds[dst]))
      else if early && dst in initial then Some(initial[dst])
      else None
    }

    /** A datagram reaches a connection exactly when its CID is one of that connection's own, or, for Initial
        and 0-RTT packets only, the one its client chose and nobody's own; and a pending attempt exactly when,
        for such packets, it is the one chosen for the attempt and nobody's own. */
    lemma RouteExact(dst: Cid, early: bool, n: nat)
      requires Valid() && dst != []
      ensures Get(dst, early) == Some(ToConnection(n))
              <==> && n in connections
                   && (Owns(connections[n], dst)
                       || (early && connections[n].initCid == dst
                           && forall c :: c in connections ==> !Owns(connections[c], dst)))
      ensures Get(dst, early) == Some(ToIncoming(n))
              <==> && early && n in pending && pending[n] == dst
                   && forall c :: c in connections ==> !Owns(connections[c], dst)
    {
      hide Owns, Distinct, Accounted;
      if dst !in connectionIds {
        forall c | c in connections
          ensures !Owns(connections[c], dst)
        {
        }
      }
    }

    /** Holds a datagram for a pending attempt if both limits allow it. */
    method BufferFor(i: nat, len: nat) returns (kept: bool)
      requires Valid() && i in incoming
      modifies this`incoming, this`totalBytes
      ensures Valid()
      ensures kept <==> old(incoming[i].totalBytes) + len <= config.bufferSize && old(totalBytes) + len <= config.bufferSizeTotal
      ensures totalBytes == old(totalBytes) + if kept then len else 0
      ensures incoming == if kept then old(incoming)[i := Pushed(old(incoming)[i], len)] else old(incoming)
    {
      hide Routes, Accounted, Starts;
      kept := incoming[i].totalBytes + len <= config.bufferSize && totalBytes + len <= config.bufferSizeTotal;
      if kept {
        AccountedPush(incoming, totalBytes, span, config, i, len);
        incoming := incoming[i := Pushed(incoming[i], len)];
        totalBytes := totalBytes + len;
      }
    }

    /** `handle_first_packet`. What depends on keys comes in as `supported`, `readable` and `tokenValid`;
        `slot` is the index the slab would use next. */
    method HandleFirstPacket(dst: Cid, len: nat, tokenEmpty: bool, supported: bool, readable: bool, tokenValid: bool, slot: nat)
      returns (outcome: Outcome)
      requires Valid() && slot !in incoming && dst !in initial
      modifies this
      ensures Valid() && connections == old(connections) && connectionIds == old(connectionIds)
      ensures outcome == NewConnection(slot) || ((outcome.Refused? || outcome.Ignored?) && unchanged(this))
      ensures outcome.NewConnection? <==>
                && len >= MIN_INITIAL_SIZE && supported && readable && tokenValid
                && !old(CidsExhausted()) && |old(incoming)| < config.maxIncoming
                && (|dst| >= 8 || (!tokenEmpty && |dst| == config.cidLen))
      ensures outcome.NewConnection? ==> pending == old(pending)[slot := dst] && totalBytes == old(totalBytes)
    {
      hide Routes, Accounted, Starts;
      if len < MIN_INITIAL_SIZE || !supported {
        return Ignored;
      } else if CidsExhausted() || |incoming| >= config.maxIncoming {
        return Refused;
      } else if |dst| < 8 && (tokenEmpty || |dst| != config.cidLen) {
        return Refused;
      } else if !readable {
        return Ignored;
      } else if !tokenValid {
        return Refused;
      }
      AccountedOpen(incoming, totalBytes, span, config, slot);
      StartsPending(initial, pending, connections, slot, dst);
      incoming := incoming[slot := Buffer([], 0)];
      initial := initial[dst := ToIncoming(slot)];
      pending := pending[slot := dst];
      span := Max(span, slot + 1);
      return NewConnection(slot);
    }

    /** `handle` after the header is decoded; `early` is set for Initial and 0-RTT packets. */
    method Handle(dst: Cid, initialPacket: bool, early: bool, len: nat, tokenEmpty: bool, supported: bool, readable: bool,
                  tokenValid: bool, slot: nat)
      returns (outcome: Outcome)
      requires Valid() && (initialPacket ==> early) && slot !in incoming
      modifies this
      ensures Valid() && connections == old(connections) && connectionIds == old(connectionIds)
      ensures outcome.ForConnection? <==> old(Get(dst, early)).Some? && old(Get(dst, early)).value.ToConnection?
      ensures outcome.ForConnection? ==> old(Get(dst, early)) == Some(ToConnection(outcome.handle)) && outcome.handle in connections
      ensures outcome.Buffered? || outcome.Discarded? <==> old(Get(dst, early)).Some? && old(Get(dst, early)).value.ToIncoming?
      ensures outcome.Buffered? ==>
                var i := old(Get(dst, early)).value.index;
                && i in old(incoming) && incoming == old(incoming)[i := Pushed(old(incoming)[i], len)]
                && totalBytes == old(totalBytes) + len
      ensures outcome.NewConnection? <==>
                && old(Get(dst, early)).None? && initialPacket && len >= MIN_INITIAL_SIZE && supported && readable && tokenValid
                && !old(CidsExhausted()) && |old(incoming)| < config.maxIncoming
                && (|dst| >= 8 || (!tokenEmpty && |dst| == config.cidLen))
      ensures outcome.NewConnection? ==> outcome.index == slot && pending == old(pending)[slot := dst]
      ensures !outcome.Buffered? && !outcome.NewConnection? ==> unchanged(this)
    {
      hide Routes, Accounted, CidsExhausted;
      var route := Get(dst, early);
      if route.Some? && route.value.ToIncoming? {
        assert route.value.index in incoming;
        var kept := BufferFor(route.value.index, len);
        outcome := if kept then Buffered else Discarded;
      } else if route.Some? {
        Routed(dst, early);
        outcome := ForConnection(route.value.handle);
      } else if initialPacket {
        outcome := HandleFirstPacket(dst, len, tokenEmpty, supported, readable, tokenValid, slot);
      } else {
        outcome := Ignored;
      }
    }

    lemma Routed(dst: Cid, early: bool)
      requires Valid() && Get(dst, early).Some? && Get(dst, early).value.ToConnection?
      ensures Get(dst, early).value.handle in connections
    {
      hide Owns, Distinct, Accounted;
    }

    /** `new_cid`: draws from the generator until a CID is free. */
    method NewCid(ch: nat, draws: seq<Cid>) returns (cid: Cid)
      requires exists i :: 0 <= i < |draws| && draws[i] !in connectionIds
      modifies this`connectionIds
      ensures cid in draws && cid !in old(connectionIds) && connectionIds == old(connectionIds)[cid := ch]
    {
      var i := 0;
      while draws[i] in connectionIds
        invariant 0 <= i < |draws| && exists j :: i <= j < |draws| && draws[j] !in connectionIds
        invariant connectionIds == old(connectionIds)
        decreases |draws| - i
      {
        i := i + 1;
      }
      cid := draws[i];
      connectionIds := connectionIds[cid := ch];
    }

    /** A pending attempt is decided: its buffer goes away. */
    method RemoveBuffer(i: nat) returns (buffer: Buffer)
      requires i in incoming && Accounted(incoming, totalBytes, span, config)
      modifies this`incoming, this`totalBytes
      ensures buffer == old(incoming[i]) && incoming == old(incoming) - {i} && totalBytes == old(totalBytes) - buffer.totalBytes
      ensures Accounted(incoming, totalBytes, span, config)
    {
      AccountedDrop(incoming, totalBytes, span, config, i);
      hide Accounted;
      buffer := incoming[i];
      incoming := incoming - {i};
      totalBytes := totalBytes - buffer.totalBytes;
    }

    /** `clean_up_incoming`, for `refuse`, `ignore` and `retry`. */
    method CleanUpIncoming(i: nat, dst: Cid)
      requires Valid() && i in pending && pending[i] == dst
      modifies this
      ensures Valid() && connections == old(connections) && connectionIds == old(connectionIds)
      ensures pending == old(pending) - {i} && initial == old(initial) - {dst}
      ensures totalBytes == old(totalBytes) - old(incoming[i].totalBytes)
    {
      hide Routes, Accounted;
      StartsDropped(initial, pending, connections, i);
      hide Starts;
      initial := initial - {dst};
      var _ := RemoveBuffer(i);
      pending := pending - {i};
    }

    /** The CIDs of a new connection, one more with a preferred address, as `accept` and `add_connection`
        register them. */
    method OpenConnection(ch: nat, dst: Cid, preferred: bool, draws: seq<Cid>, moreDraws: seq<Cid>) returns (meta: Meta)
      requires Routes(connectionIds, connections) && ch !in connections
      requires exists j :: 0 <= j < |draws| && draws[j] !in connectionIds
      requires exists j :: 0 <= j < |moreDraws| && moreDraws[j] !in connectionIds && moreDraws[j] !in draws
      modifies this`connectionIds
      ensures Routes(connectionIds, connections[ch := meta])
      ensures meta.initCid == dst && meta.cidsIssued == (if preferred then 2 else 1) && Complete(meta)
      ensures Without(connectionIds, ch) == Without(old(connectionIds), ch)
    {
      RoutesOpen(connectionIds, connections, ch, dst);
      hide Routes, Owns, Distinct, Issued, Without;
      ghost var before := connectionIds;
      meta := Meta(dst, 0, map[]);
      var cid := NewCid(ch, draws);
      IssueOne(before, connections, ch, meta, cid);
      meta := Issued(meta, cid);
      if preferred {
        ghost var first := connectionIds;
        var more := NewCid(ch, moreDraws);
        IssueOne(first, connections, ch, meta, more);
        meta := Issued(meta, more);
      }
    }

    /** `accept`. Staleness, authentication, a preferred address and the outcome of the first packet come in
        from the configuration and the keys; `ch` is the next vacant handle, `draws` what the generator gives. */
    method Accept(i: nat, dst: Cid, stale: bool, authentic: bool, preferred: bool, handshakes: bool, ch: nat,
                  draws: seq<Cid>, moreDraws: seq<Cid>)
      returns (verdict: Verdict)
      requires Valid() && i in pending && pending[i] == dst && ch !in connections
      requires exists j :: 0 <= j < |draws| && draws[j] !in connectionIds
      requires exists j :: 0 <= j < |moreDraws| && moreDraws[j] !in connectionIds && moreDraws[j] !in draws
      modifies this
      ensures Valid() && pending == old(pending) - {i} && totalBytes == old(totalBytes) - old(incoming[i].totalBytes)
      ensures verdict == if stale then Stale else if old(CidsExhausted()) then Exhausted
                         else if !authentic then Unauthentic else if !handshakes then HandshakeFailed else Accepted(ch)
      ensures !verdict.Accepted? ==>
                connections == old(connections) && connectionIds == old(connectionIds) && initial == old(initial) - {dst}
      ensures verdict.Accepted? ==>
                && initial == old(initial)[dst := ToConnection(ch)]
                && ch in connections && connections == old(connections)[ch := connections[ch]]
                && connections[ch].initCid == dst
                && connections[ch].cidsIssued == (if preferred then 2 else 1) && Complete(connections[ch])
    {
      hide Routes, Accounted, Starts, Without, Complete, CidsExhausted;
      var _ := RemoveBuffer(i);
      if stale || CidsExhausted() || !authentic {
        verdict := if stale then Stale else if CidsExhausted() then Exhausted else Unauthentic;
        RemoveInitial(i, dst);
      } else {
        Unused(connectionIds, connections, ch);
        Establish(i, dst, preferred, ch, draws, moreDraws);
        verdict := Accepted(ch);
        if !handshakes {
          assert connections - {ch} == old(connections);
          assert initial - {dst} == old(initial) - {dst};
          Drained(ch);
          verdict := HandshakeFailed;
        }
      }
    }

    /** The attempt has lost its buffer; it is not accepted. */
    method RemoveInitial(i: nat, dst: Cid)
      requires Undecided(i) && pending[i] == dst
      modifies this`initial, this`pending
      ensures Valid() && pending == old(pending) - {i} && initial == old(initial) - {dst}
    {
      StartsDropped(initial, pending, connections, i);
      hide Routes, Accounted, Starts;
      initial := initial - {dst};
      pending := pending - {i};
    }

    /** The attempt has lost its buffer; it becomes connection `ch`. */
    method Establish(i: nat, dst: Cid, preferred: bool, ch: nat, draws: seq<Cid>, moreDraws: seq<Cid>)
      requires Undecided(i) && pending[i] == dst && ch !in connections
      requires exists j :: 0 <= j < |draws| && draws[j] !in connectionIds
      requires exists j :: 0 <= j < |moreDraws| && moreDraws[j] !in connectionIds && moreDraws[j] !in draws
      modifies this`initial, this`pending, this`connections, this`connectionIds
      ensures Valid() && pending == old(pending) - {i} && initial == old(initial)[dst := ToConnection(ch)]
      ensures ch in connections && connections == old(connections)[ch := connections[ch]]
      ensures connections[ch].initCid == dst
      ensures connections[ch].cidsIssued == (if preferred then 2 else 1) && Complete(connections[ch])
      ensures Without(connectionIds, ch) == Without(old(connectionIds), ch)
    {
      var meta := OpenConnection(ch, dst, preferred, draws, moreDraws);
      StartsAccepted(initial, pending, connections, i, ch, meta);
      hide Routes, Accounted, Starts, Without, Complete;
      connections := connections[ch := meta];
      initial := initial[dst := ToConnection(ch)];
      pending := pending - {i};
    }

    /** Between the removal of an attempt's buffer and the decision about it. */
    ghost predicate Undecided(i: nat)
      reads this
    {
      && Routes(connectionIds, connections)
      && Starts(initial, pending, connections)
      && Accounted(incoming, totalBytes, span, config)
      && i in pending && pending.Keys - {i} == incoming.Keys
      && config.cidLen > 0
    }

    /** `Drained`: all references to a connection are removed. */
    method Drained(ch: nat)
      requires Valid()
      modifies this`connectionIds, this`initial, this`connections
      ensures Valid() && connections == old(connections) - {ch}
      ensures connectionIds == Without(old(connectionIds), ch)
      ensures ch in old(connections) ==> initial == old(initial) - {old(connections)[ch].initCid}
      ensures ch !in old(connections) ==> initial == old(initial)
    {
      hide Routes, Starts, Accounted, Without;
      RoutesClose(connectionIds, connections, ch);
      if ch in connections {
        var meta := connections[ch];
        StartsClosed(initial, pending, connections, ch);
        RemoveCids(meta, ch);
        initial := initial - {meta.initCid};
        connections := connections - {ch};
      } else {
        Unused(connectionIds, connections, ch);
        assert connections - {ch} == connections;
      }
    }

    /** The loop of `ConnectionIndex::remove` over a connection's local CIDs. */
    method RemoveCids(meta: Meta, ch: nat)
      requires Routes(connectionIds, connections) && ch in connections && connections[ch] == meta
      modifies this`connectionIds
      ensures connectionIds == Without(old(connectionIds), ch)
    {
      for q := 0 to meta.cidsIssued
        invariant forall c :: c in connectionIds ==> c in old(connectionIds) && connectionIds[c] == old(connectionIds)[c]
        invariant forall c :: c in old(connectionIds) && c !in connectionIds ==> old(connectionIds)[c] == ch
        invariant forall p :: 0 <= p < q && p in meta.locCids ==> meta.locCids[p] !in connectionIds
      {
        if q in meta.locCids {
          assert Owns(meta, meta.locCids[q]);
          connectionIds := connectionIds - {meta.locCids[q]};
        }
      }
    }

    /** `send_new_identifiers`: a CID from each of the draws, under consecutive sequence numbers. */
    method SendNewIdentifiers(ch: nat, draws: seq<seq<Cid>>) returns (issued: seq<Cid>)
      requires Valid() && ch in connections && Supplies(draws, connectionIds)
      modifies this`connectionIds, this`connections
      ensures Valid() && |issued| == |draws| && Grown(old(connections), connections, ch, issued)
      ensures forall n :: 0 <= n < |issued| ==> issued[n] !in old(connectionIds)
    {
      hide Accounted, Starts, Routes;
      issued := [];
      for n := 0 to |draws|
        invariant Valid() && ch in connections && |issued| == n
        invariant forall c :: c in connectionIds ==> c in old(connectionIds) || exists m :: 0 <= m < n && c in draws[m]
        invariant forall c :: c in old(connectionIds) ==> c in connectionIds
        invariant Grown(old(connections), connections, ch, issued)
        invariant forall m :: 0 <= m < n ==> issued[m] !in old(connectionIds)
      {
        var last := |draws[n]| - 1;
        assert draws[n][last] !in connectionIds;
        ghost var ids := connectionIds;
        var cid := NewCid(ch, draws[n]);
        RoutesIssue(ids, connections, ch, cid);
        StartsSame(initial, pending, connections, ch, Issued(connections[ch], cid));
        GrownMore(old(connections), connections, ch, issued, cid);
        hide Grown, Issued;
        connections := connections[ch := Issued(connections[ch], cid)];
        issued := issued + [cid];
      }
    }

    /** `RetireConnectionId`: the peer gave up a CID, and may get another one for it. */
    method RetireConnectionId(ch: nat, q: nat, allowMore: bool, draws: seq<Cid>) returns (issued: seq<Cid>)
      requires Valid() && ch in connections
      requires draws != [] && draws[|draws| - 1] !in connectionIds
      modifies this`connectionIds, this`connections
      ensures Valid() && ch in connections
      ensures q !in old(connections[ch].locCids) ==> issued == [] && connections == old(connections)
      ensures q in old(connections[ch].locCids) ==>
                && |issued| == (if allowMore then 1 else 0)
                && Grown(old(connections)[ch := Retired(old(connections)[ch], q)], connections, ch, issued)
    {
      hide Accounted, Starts, Routes;
      issued := [];
      if q in connections[ch].locCids {
        RoutesRetire(connectionIds, connections, ch, q);
        StartsSame(initial, pending, connections, ch, Retired(connections[ch], q));
        connectionIds := connectionIds - {connections[ch].locCids[q]};
        connections := connections[ch := Retired(connections[ch], q)];
        assert Valid();
        if allowMore {
          issued := SendNewIdentifiers(ch, [draws]);
        }
      }
    }
  }

  /** Each of the draws ends with a CID that neither the index nor an earlier draw contains. */
  ghost predicate Supplies(draws: seq<seq<Cid>>, ids: map<Cid, nat>) {
    forall n :: 0 <= n < |draws| ==>
                  && draws[n] != [] && draws[n][|draws[n]| - 1] !in ids
                  && forall m :: 0 <= m < n ==> draws[n][|draws[n]| - 1] !in draws[m]
  }

  /** Connection `ch` got the CIDs `issued` next in sequence, and nothing else changed. */
  ghost predicate Grown(before: Connections, after: Connections, ch: nat, issued: seq<Cid>) {
    && ch in before && ch in after && after == before[ch := after[ch]]
    && after[ch].initCid == before[ch].initCid && after[ch].cidsIssued == before[ch].cidsIssued + |issued|
    && (forall q :: q in after[ch].locCids <==>
                      q in before[ch].locCids || before[ch].cidsIssued <= q < before[ch].cidsIssued + |issued|)
    && (forall q :: q in before[ch].locCids && q < before[ch].cidsIssued ==> after[ch].locCids[q] == before[ch].locCids[q])
    && (forall n :: 0 <= n < |issued| ==>
          before[ch].cidsIssued + n in after[ch].locCids && after[ch].locCids[before[ch].cidsIssued + n] == issued[n])
  }

  lemma GrownMore(before: Connections, after: Connections, ch: nat, issued: seq<Cid>, cid: Cid)
    requires Grown(before, after, ch, issued)
    ensures Grown(before, after[ch := Issued(after[ch], cid)], ch, issued + [cid])
  {
  }
}
