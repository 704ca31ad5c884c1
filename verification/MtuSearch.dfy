/** Path MTU discovery: a binary search driven by acknowledged and lost probes. */
module MtuSearch {
  import opened Basics

  const MAX_PROBE_RETRANSMITS: nat := 3

  datatype Config = Config(upperBound: nat, minimumChange: nat, interval: nat)

  /** `SearchState`. */
  datatype Search = Search(
    lower: nat, upper: nat, minimumChange: nat, lastProbed: nat, inFlight: Option<nat>, lost: nat)
  {
    /** The last probe was given up. */
    predicate Failed() { inFlight.None? && lost >= MAX_PROBE_RETRANSMITS }

    /** The last probe, or the starting size, is known to get through. */
    predicate Succeeded() { inFlight.None? && lost == 0 }

    /** The largest size known to get through. */
    function Confirmed(): nat { if Succeeded() then lastProbed else lower }
  }

  datatype Phase = Initial | Searching(search: Search) | Complete(nextActivation: nat)

  /** `SearchState::new`. */
  function NewSearch(currentMtu: nat, peerMax: nat, config: Config): Search {
    var lower := Min(currentMtu, peerMax);
    Search(lower, Min(Max(config.upperBound, lower), peerMax), config.minimumChange, lower, None, 0)
  }

  /** The search a poll works on: the one in progress, or a new one when its time has come. */
  function CurrentSearch(phase: Phase, currentMtu: nat, peerMax: nat, config: Config, now: nat): Option<Search> {
    match phase
    case Initial => Some(NewSearch(currentMtu, peerMax, config))
    case Complete(at) => if now < at then None else Some(NewSearch(currentMtu, peerMax, config))
    case Searching(s) => Some(s)
  }

  /** Subtraction that stops at 0. */
  function Minus(a: nat, b: nat): nat { if a < b then 0 else a - b }

  /** The bounds after the last probe was decided. */
  function Narrow(s: Search): Search
    requires s.Succeeded() || (s.Failed() && s.lastProbed > 0)
  {
    if s.Succeeded() then s.(lower := s.lastProbed) else s.(upper := s.lastProbed - 1, lost := 0)
  }

  /** `next_mtu_to_probe`, once the bounds are narrowed: the middle if it is far enough from the last
      probe, else the upper bound if that is far enough above it. */
  function Choose(s: Search): Option<nat> {
    var mid := (s.lower + s.upper) / 2;
    if Minus(mid, s.lastProbed) + Minus(s.lastProbed, mid) >= s.minimumChange then Some(mid)
    else if Minus(s.upper, s.lastProbed) >= s.minimumChange then Some(s.upper)
    else None
  }

  /** What a search does when asked for a probe: nothing while one is in flight, retransmit a lost
      one, or move on. `None` as the new state means the search is over. */
  function Poll(s: Search, pn: nat): (Option<Search>, Option<nat>)
    requires s.Failed() ==> s.lastProbed > 0
  {
    if s.inFlight.Some? then (Some(s), None)
    else if 0 < s.lost < MAX_PROBE_RETRANSMITS then (Some(s.(inFlight := Some(pn))), Some(s.lastProbed))
    else
      var n := Narrow(s);
      var probe := Choose(n);
      if probe.Some? then (Some(n.(inFlight := Some(pn), lastProbed := probe.value)), probe) else (None, None)
  }

  function Acked(s: Search): Search { s.(inFlight := None, lost := 0) }

  function Lost(s: Search): Search { s.(inFlight := None, lost := s.lost + 1) }

  /** Bounds and counters of a search; an undecided or failed probe lies above the lower bound. */
  ghost predicate Sane(s: Search) {
    && s.lower <= s.lastProbed <= s.upper
    && s.lost <= MAX_PROBE_RETRANSMITS
    && (s.inFlight.Some? ==> s.lost < MAX_PROBE_RETRANSMITS)
    && (!s.Succeeded() ==> s.lower < s.lastProbed)
  }

  /** Every probe lies strictly above the lower bound and at most at the upper bound. */
  lemma ProbeInBounds(s: Search, pn: nat)
    requires Sane(s) && s.minimumChange >= 3
    ensures var (s', probe) := Poll(s, pn);
            && (s'.Some? ==> Sane(s'.value) && s'.value.minimumChange == s.minimumChange)
            && (probe.Some? ==> s'.Some? && s'.value.lower < probe.value == s'.value.lastProbed <= s'.value.upper)
            && (probe.Some? ==> s'.value.Confirmed() == s'.value.lower == s.Confirmed())
            && (probe.None? ==> s'.None? || s'.value == s)
  {
  }

  // ---------------------------------------------------------------------------------------------
  // How many probes a search sends

  /** The ceiling of the binary logarithm. */
  function CLog2(w: nat): nat { if w <= 1 then 0 else 1 + CLog2((w + 1) / 2) }

  function Pow2(n: nat): nat { if n == 0 then 1 else 2 * Pow2(n - 1) }

  /** `CLog2(w)` is the least exponent whose power reaches `w`. */
  lemma {:induction false} CLog2IsLeast(w: nat, k: nat)
    ensures w <= Pow2(k) <==> CLog2(w) <= k
  {
    if w > 1 && k > 0 {
      CLog2IsLeast((w + 1) / 2, k - 1);
    } else if w > 1 {
      assert CLog2(w) >= 1;
    } else {
      PowPositive(k);
    }
  }

  lemma {:induction false} PowPositive(k: nat)
    ensures Pow2(k) >= 1
  {
    if k > 0 {
      PowPositive(k - 1);
    }
  }

  lemma {:induction false} CLog2Monotone(a: nat, b: nat)
    requires a <= b
    ensures CLog2(a) <= CLog2(b)
  {
    if b > 1 {
      CLog2Monotone((a + 1) / 2, (b + 1) / 2);
    }
  }

  /** Sizes that may still be tried after a success that leaves `w` above it. */
  function AfterSuccess(w: nat, m: nat): nat { if w < m then 0 else CLog2(w) }

  /** Sizes that may still be tried after a failure that leaves `w` between the bounds. */
  function AfterFailure(w: nat, m: nat): nat {
    if (w + 1) / 2 + 1 < m then 0 else if w + 2 <= 2 * m then 1 else CLog2(w)
  }

  /** Sizes that may still be tried once the current probe is decided. */
  function AfterProbe(s: Search): nat
    requires s.lower < s.lastProbed <= s.upper
  {
    Max(AfterSuccess(s.upper - s.lastProbed, s.minimumChange),
        AfterFailure(s.lastProbed - 1 - s.lower, s.minimumChange))
  }

  /** Probes that may still be sent. */
  function Left(s: Search): nat
    requires Sane(s)
  {
    if s.Succeeded() then 3 * AfterSuccess(s.upper - s.lastProbed, s.minimumChange)
    else if s.Failed() then 3 * AfterFailure(s.lastProbed - 1 - s.lower, s.minimumChange)
    else MAX_PROBE_RETRANSMITS - s.lost - (if s.inFlight.Some? then 1 else 0) + 3 * AfterProbe(s)
  }

  /** Halving the interval lowers the logarithm. */
  lemma Halves(w: nat, x: nat, m: nat)
    requires m >= 3 && w >= 2 && x <= (w + 1) / 2
    ensures AfterSuccess(x, m) + 1 <= CLog2(w)
    ensures AfterFailure(Minus(x, 1), m) + 1 <= Max(2, CLog2(w))
  {
    CLog2Monotone(x, (w + 1) / 2);
    CLog2Monotone(Minus(x, 1), (w + 1) / 2);
  }

  lemma ChooseShrinks(n: Search)
    requires n.minimumChange >= 3 && n.lower <= n.upper && Choose(n).Some?
    requires n.lastProbed == n.lower || n.lastProbed == n.upper + 1
    ensures var p := Choose(n).value;
            && n.lower < p <= n.upper
            && AfterProbe(n.(lastProbed := p)) + 1
               <= if n.lastProbed == n.lower then AfterSuccess(n.upper - n.lower, n.minimumChange)
                  else AfterFailure(n.upper - n.lower, n.minimumChange)
  {
    var m, w, p := n.minimumChange, n.upper - n.lower, Choose(n).value;
    if p == (n.lower + n.upper) / 2 {
      Halves(w, n.upper - p, m);
      Halves(w, p - n.lower, m);
      CLog2Monotone(3, w);
    } else {
      CLog2Monotone(3, w);
    }
  }

  /** Sending a probe uses up the bound. */
  lemma PollUses(s: Search, pn: nat)
    requires Sane(s) && s.minimumChange >= 3 && Poll(s, pn).1.Some?
    ensures Left(Poll(s, pn).0.value) + 1 <= Left(s)
  {
    ProbeInBounds(s, pn);
    if s.Succeeded() || s.Failed() {
      ChooseShrinks(Narrow(s));
    }
  }

  // ---------------------------------------------------------------------------------------------
  // Runs

  datatype Event = Polled(pn: nat) | ProbeAcked | ProbeLost

  /** Only the probe in flight is acknowledged or lost. */
  predicate Legal(s: Search, e: Event) { e.Polled? || s.inFlight.Some? }

  /** The search after an event, or `None` when it is over. */
  function Step(s: Search, e: Event): Option<Search>
    requires s.Failed() ==> s.lastProbed > 0
  {
    match e
    case Polled(pn) => Poll(s, pn).0
    case ProbeAcked => Some(Acked(s))
    case ProbeLost => Some(Lost(s))
  }

  predicate Sends(s: Search, e: Event)
    requires s.Failed() ==> s.lastProbed > 0
  {
    e.Polled? && Poll(s, e.pn).1.Some?
  }

  /** The states of a search that is not over. */
  ghost predicate Run(states: seq<Search>, events: seq<Event>) {
    && |states| == |events| + 1
    && forall i :: 0 <= i < |events| ==>
         && Legal(states[i], events[i])
         && (states[i].Failed() ==> states[i].lastProbed > 0)
         && Step(states[i], events[i]) == Some(states[i + 1])
  }

  ghost function Sent(states: seq<Search>, events: seq<Event>): nat
    requires Run(states, events)
  {
    if events == [] then 0 else
      (if Sends(states[0], events[0]) then 1 else 0) + Sent(states[1..], events[1..])
  }

  lemma StepKeepsSane(s: Search, e: Event)
    requires Sane(s) && s.minimumChange >= 3 && Legal(s, e) && Step(s, e).Some?
    ensures Sane(Step(s, e).value) && Step(s, e).value.minimumChange == s.minimumChange
    ensures Left(Step(s, e).value) + (if Sends(s, e) then 1 else 0) <= Left(s)
  {
    match e
    case Polled(pn) =>
      ProbeInBounds(s, pn);
      if Poll(s, pn).1.Some? {
        PollUses(s, pn);
      }
    case _ =>
  }

  lemma {:induction false} RunKeepsSane(states: seq<Search>, events: seq<Event>)
    requires Run(states, events) && Sane(states[0]) && states[0].minimumChange >= 3
    ensures var last := states[|events|];
            && Sane(last) && last.minimumChange == states[0].minimumChange
            && Sent(states, events) + Left(last) <= Left(states[0])
    decreases |events|
  {
    if events != [] {
      assert Step(states[0], events[0]) == Some(states[1]);
      StepKeepsSane(states[0], events[0]);
      RunKeepsSane(states[1..], events[1..]);
    }
  }

  lemma NewSearchSane(currentMtu: nat, peerMax: nat, config: Config)
    ensures var s := NewSearch(currentMtu, peerMax, config);
            Sane(s) && s.Succeeded() && s.Confirmed() == s.lower
  {
  }

  /** Whatever is acknowledged or lost, a search over `w` sizes sends at most 3 probes for each of the
      logarithm of `w` sizes; while it runs, every probe lies above what was confirmed; and once the
      bound is used up and the last probe is decided, the next poll ends it. */
  lemma {:induction false} SearchEnds(states: seq<Search>, events: seq<Event>, currentMtu: nat, peerMax: nat, config: Config, pn: nat)
    requires config.minimumChange >= 3
    requires Run(states, events) && states[0] == NewSearch(currentMtu, peerMax, config)
    ensures Sent(states, events) <= 3 * CLog2(states[0].upper - states[0].lower)
    ensures var s := states[|events|];
            && Sane(s)
            && (Poll(s, pn).1.Some? ==> s.Confirmed() < Poll(s, pn).1.value <= states[|events|].upper)
            && (Sent(states, events) == 3 * CLog2(states[0].upper - states[0].lower) && s.inFlight.None?
                ==> Poll(s, pn).0.None?)
  {
    NewSearchSane(currentMtu, peerMax, config);
    RunKeepsSane(states, events);
    hide CLog2, NewSearch, Run, Sent;
    var s := states[|events|];
    ProbeInBounds(s, pn);
    if Poll(s, pn).1.Some? {
      PollUses(s, pn);
    }
  }

  /** The run of a new search whose first probe is lost three times. */
  lemma LostThrice(s: Search, pn: nat, size: nat) returns (states: seq<Search>, events: seq<Event>)
    requires s.Succeeded() && s.lower == s.lastProbed && Choose(s) == Some(size)
    ensures Run(states, events) && states[0] == s && states[|events|] == s.(lastProbed := size, lost := 3)
  {
    var t := s.(lastProbed := size);
    var u := t.(inFlight := Some(pn));
    states := [s, u, t.(lost := 1), u.(lost := 1), t.(lost := 2), u.(lost := 2), t.(lost := 3)];
    events := [Polled(pn), ProbeLost, Polled(pn), ProbeLost, Polled(pn), ProbeLost];
    assert Poll(s, pn) == (Some(u), Some(size));
  }

  /** For any `minimumChange` below 3 the search can probe the confirmed size again: at once, or when its
      first probe is lost three times. */
  lemma SmallChangeReprobes(m: nat, pn: nat) returns (config: Config, states: seq<Search>, events: seq<Event>)
    requires m < 3
    ensures config.minimumChange == m && config.upperBound == 1200 + 2 * m
    ensures Run(states, events) && states[0] == NewSearch(1200, 65527, config)
    ensures var s := states[|events|];
            (s.Failed() ==> s.lastProbed > 0) && s.Confirmed() == 1200 && Poll(s, pn).1 == Some(1200)
  {
    config := Config(1200 + 2 * m, m, 600);
    var s := NewSearch(1200, 65527, config);
    if m == 0 {
      states, events := [s], [];
    } else {
      states, events := LostThrice(s, pn, 1200 + m);
    }
  }

  // ---------------------------------------------------------------------------------------------
  // How accurate the result is

  /** The path passes exactly the probes of at most `limit` bytes. */
  predicate Faithful(s: Search, e: Event, limit: nat) {
    match e
    case Polled(_) => true
    case ProbeAcked => s.lastProbed <= limit
    case ProbeLost => s.lastProbed > limit
  }

  /** What is confirmed passes, what is given up does not, and the answer is still within bounds. */
  ghost predicate Tracks(s: Search, limit: nat, target: nat) {
    && Sane(s) && s.minimumChange >= 3
    && s.Confirmed() <= limit
    && target <= limit && target <= s.upper
    && (s.lost > 0 ==> s.lastProbed > limit)
  }

  lemma StepTracks(s: Search, e: Event, limit: nat, target: nat)
    requires Tracks(s, limit, target) && Legal(s, e) && Faithful(s, e, limit)
    requires Step(s, e).Some?
    ensures Tracks(Step(s, e).value, limit, target)
  {
    StepKeepsSane(s, e);
    if e.Polled? {
      ProbeInBounds(s, e.pn);
    }
  }

  lemma {:induction false} RunTracks(states: seq<Search>, events: seq<Event>, limit: nat, target: nat)
    requires Run(states, events) && Tracks(states[0], limit, target)
    requires forall i :: 0 <= i < |events| ==> Faithful(states[i], events[i], limit)
    ensures Tracks(states[|events|], limit, target)
    decreases |events|
  {
    if events != [] {
      assert Step(states[0], events[0]) == Some(states[1]);
      StepTracks(states[0], events[0], limit, target);
      RunTracks(states[1..], events[1..], limit, target);
    }
  }

  /** When the search over a path that passes exactly `limit` bytes ends, the confirmed size passes,
      and it is within `2 * minimumChange - 4` of the best possible. */
  lemma SearchAccuracy(states: seq<Search>, events: seq<Event>, currentMtu: nat, peerMax: nat, config: Config,
                       limit: nat, pn: nat)
    requires config.minimumChange >= 3
    requires Run(states, events) && states[0] == NewSearch(currentMtu, peerMax, config)
    requires states[0].lower <= limit
    requires forall i :: 0 <= i < |events| ==> Faithful(states[i], events[i], limit)
    requires states[|events|].Failed() ==> states[|events|].lastProbed > 0
    requires Poll(states[|events|], pn).0.None?
    ensures states[|events|].Confirmed() <= limit
    ensures Min(limit, states[0].upper) <= states[|events|].Confirmed() + 2 * config.minimumChange - 4
  {
    NewSearchSane(currentMtu, peerMax, config);
    RunTracks(states, events, limit, Min(limit, states[0].upper));
    RunKeepsSane(states, events);
  }

  // ---------------------------------------------------------------------------------------------
  // The discovery state, updated in place

  class MtuDiscovery {
    var currentMtu: nat
    var phase: Phase
    var peerMax: nat
    const config: Config

    constructor (currentMtu: nat, peerMax: nat, config: Config)
      ensures this.currentMtu == Min(currentMtu, peerMax) && phase == Initial
      ensures this.peerMax == peerMax && this.config == config
      ensures config.minimumChange >= 3 ==> Valid()
    {
      this.currentMtu := Min(currentMtu, peerMax);
      this.phase, this.peerMax, this.config := Initial, peerMax, config;
    }

    /** While searching, the current MTU is the largest size known to get through. */
    ghost predicate Valid()
      reads this
    {
      && config.minimumChange >= 3 && currentMtu <= peerMax
      && (phase.Searching? ==>
            Sane(phase.search) && phase.search.minimumChange == config.minimumChange
            && phase.search.upper <= peerMax && currentMtu == phase.search.Confirmed())
    }

    function Current(now: nat): Option<Search>
      reads this
    {
      CurrentSearch(phase, currentMtu, peerMax, config, now)
    }

    /** A probe is larger than the current MTU and at most what the peer accepts. */
    method PollTransmit(now: nat, pn: nat) returns (probe: Option<nat>)
      requires Current(now).Some? && Current(now).value.Failed() ==> Current(now).value.lastProbed > 0
      modifies this`phase
      ensures old(Current(now)).None? ==> probe.None? && phase == old(phase)
      ensures old(Current(now)).Some? ==>
                var (s, p) := Poll(old(Current(now)).value, pn);
                && probe == p
                && phase == if s.Some? then Searching(s.value) else Complete(now + config.interval)
      ensures old(Valid()) ==> Valid() && (probe.Some? ==> currentMtu < probe.value <= peerMax)
    {
      ghost var c := Current(now);
      if c.Some? && Valid() {
        ProbeInBounds(c.value, pn);
      }
      if phase.Complete? && now < phase.nextActivation {
        return None;
      }
      if !phase.Searching? {
        phase := Searching(NewSearch(currentMtu, peerMax, config));
      }
      var s := phase.search;
      if s.inFlight.Some? {
        return None;
      }
      if 0 < s.lost < MAX_PROBE_RETRANSMITS {
        phase := Searching(s.(inFlight := Some(pn)));
        return Some(s.lastProbed);
      }
      s := Narrow(s);
      probe := Choose(s);
      if probe.Some? {
        phase := Searching(s.(inFlight := Some(pn), lastProbed := probe.value));
      } else {
        phase := Complete(now + config.interval);
      }
    }

    /** Acknowledging the probe in flight, in the data space, confirms its size as the current MTU; nothing
        else does. */
    method OnAcked(inDataSpace: bool, pn: nat) returns (wasProbe: bool)
      modifies this`phase, this`currentMtu
      ensures wasProbe <==> inDataSpace && old(phase).Searching? && old(phase).search.inFlight == Some(pn)
      ensures wasProbe ==> phase == Searching(Acked(old(phase).search)) && currentMtu == old(phase).search.lastProbed
      ensures !wasProbe ==> phase == old(phase) && currentMtu == old(currentMtu)
      ensures old(Valid()) ==> Valid() && currentMtu >= old(currentMtu)
    {
      if !inDataSpace {
        return false;
      }
      if phase.Searching? && phase.search.inFlight == Some(pn) {
        currentMtu := phase.search.lastProbed;
        phase := Searching(Acked(phase.search));
        return true;
      }
      return false;
    }

    /** A lost probe never changes the current MTU. */
    method OnProbeLost()
      requires phase.Searching? ==> phase.search.inFlight.Some?
      modifies this`phase
      ensures phase == if old(phase).Searching? then Searching(Lost(old(phase).search)) else old(phase)
      ensures old(Valid()) ==> Valid()
    {
      if phase.Searching? {
        phase := Searching(Lost(phase.search));
      }
    }
  }
}
