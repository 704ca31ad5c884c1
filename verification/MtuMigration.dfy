/** MTU discovery across migrations: a new path copies the discovery of the old one or starts afresh, and a path
    that is given up hands over to the old one as it was when the new path took over. */
module MtuMigration {
  import opened Basics
  import opened MtuSearch

  /** What a connection knows about the peer and was configured with. */
  datatype Env = Env(peerMax: nat, config: Config)

  /** The MTU discovery of one path. */
  datatype Discovery = Discovery(mtu: nat, phase: Phase)
  {
    /** The number of the probe in flight. */
    function Probe(): Option<nat> {
      if phase.Searching? then phase.search.inFlight else None
    }

    function Current(now: nat, env: Env): Option<Search> {
      CurrentSearch(phase, mtu, env.peerMax, env.config, now)
    }

    predicate Pollable(now: nat, env: Env) {
      var s := Current(now, env);
      s.Some? && s.value.Failed() ==> s.value.lastProbed > 0
    }

    function Polled(now: nat, pn: nat, env: Env): (Discovery, Option<nat>)
      requires Pollable(now, env)
    {
      var s := Current(now, env);
      if s.None? then (this, None) else
        var (s', probe) := Poll(s.value, pn);
        (this.(phase := if s'.Some? then Searching(s'.value) else Complete(now + env.config.interval)), probe)
    }

    /** A tracked packet was acknowledged or lost; it may be the probe. */
    function Decided(pn: nat, acked: bool): Discovery {
      if Probe() != Some(pn) then this
      else if acked then Discovery(phase.search.lastProbed, Searching(Acked(phase.search)))
      else this.(phase := Searching(Lost(phase.search)))
    }
  }

  /** The current path, whether its validation is pending, the previous path, the tracked packets of the data
      space and the next packet number. */
  datatype Paths = Paths(path: Discovery, challenged: bool, prev: Option<Discovery>, tracked: set<nat>, next: nat)

  /** A packet is sent; a probe is asked for; a packet is acknowledged or lost; the peer moves, which looks like
      a rebinding or not; the new path is validated or given up. */
  datatype Move =
    | Send(pn: nat)
    | Ask(now: nat, pn: nat)
    | Decide(pn: nat, acked: bool)
    | Migrate(rebinding: bool, mtu: nat)
    | PathValidated
    | PathTimeout

  predicate Enabled(s: Paths, e: Move, env: Env) {
    match e
    case Send(pn) => pn >= s.next
    case Ask(now, pn) => pn >= s.next && s.path.Pollable(now, env)
    case Decide(pn, _) => pn in s.tracked
    case Migrate(_, _) => true
    case PathValidated => s.challenged
    case PathTimeout => s.challenged
  }

  function After(s: Paths, e: Move, env: Env): Paths
    requires Enabled(s, e, env)
  {
    match e
    case Send(pn) => s.(tracked := s.tracked + {pn}, next := pn + 1)
    case Ask(now, pn) =>
      var (d, probe) := s.path.Polled(now, pn, env);
      if probe.Some? then s.(path := d, tracked := s.tracked + {pn}, next := pn + 1) else s.(path := d)
    case Decide(pn, acked) => s.(path := s.path.Decided(pn, acked), tracked := s.tracked - {pn})
    case Migrate(rebinding, mtu) =>
      Paths(if rebinding then s.path else Discovery(mtu, Initial), true, if s.challenged then s.prev else Some(s.path),
            s.tracked, s.next)
    case PathValidated => s.(challenged := false)
    case PathTimeout => s.(path := if s.prev.Some? then s.prev.value else s.path, challenged := false, prev := None)
  }

  /** The search waits for a packet that is not tracked, so that nothing will be heard of it. */
  predicate Stuck(d: Discovery, tracked: set<nat>) {
    d.Probe().Some? && d.Probe().value !in tracked
  }

  predicate PrevStuck(s: Paths) {
    s.prev.Some? && Stuck(s.prev.value, s.tracked)
  }

  /** Every packet that is tracked or waited for was sent. */
  ghost predicate Inv(s: Paths) {
    && (forall p :: p in s.tracked ==> p < s.next)
    && (s.path.Probe().Some? ==> s.path.Probe().value < s.next)
    && (s.prev.Some? && s.prev.value.Probe().Some? ==> s.prev.value.Probe().value < s.next)
  }

  /** A poll leaves a pending probe alone, and otherwise sends the only probe in flight. */
  lemma PolledProbe(d: Discovery, now: nat, pn: nat, env: Env)
    requires d.Pollable(now, env)
    ensures var (d', probe) := d.Polled(now, pn, env);
            && (d.Probe().Some? ==> d' == d && probe.None?)
            && (d.Probe().None? ==> d'.Probe() == if probe.Some? then Some(pn) else None)
  {
  }

  /** A current search gets stuck only when a stuck one is restored, and gets free only with its path. */
  lemma StuckIff(s: Paths, e: Move, env: Env)
    requires Inv(s) && Enabled(s, e, env)
    ensures var t := After(s, e, env);
            && Inv(t)
            && (Stuck(t.path, t.tracked)
                <==> if e.PathTimeout? && s.prev.Some? then PrevStuck(s)
                     else Stuck(s.path, s.tracked) && !(e.Migrate? && !e.rebinding))
  {
    if e.Ask? {
      PolledProbe(s.path, e.now, e.pn, env);
      hide Discovery.Polled, Discovery.Pollable;
    }
  }

  /** The search of the previous path gets stuck exactly when its probe is decided, whatever happens to the copy
      of it on the current path, or when a stuck one becomes the previous one. */
  lemma PrevStuckIff(s: Paths, e: Move, env: Env)
    requires Inv(s) && Enabled(s, e, env)
    ensures var t := After(s, e, env);
            PrevStuck(t)
            <==> if e.Migrate? && !s.challenged then Stuck(s.path, s.tracked)
                 else !e.PathTimeout? && s.prev.Some? && (PrevStuck(s) || (e.Decide? && s.prev.value.Probe() == Some(e.pn)))
  {
  }

  // ---------------------------------------------------------------------------------------------
  // Runs

  ghost predicate Course(ss: seq<Paths>, es: seq<Move>, env: Env) {
    && |ss| == |es| + 1 && Inv(ss[0])
    && forall i :: 0 <= i < |es| ==> Enabled(ss[i], es[i], env) && ss[i + 1] == After(ss[i], es[i], env)
  }

  lemma {:induction false} CourseInv(ss: seq<Paths>, es: seq<Move>, env: Env, n: nat)
    requires Course(ss, es, env) && n < |ss|
    ensures Inv(ss[n])
  {
    hide Inv, Enabled;
    if n > 0 {
      CourseInv(ss, es, env, n - 1);
      assert ss[n - 1 + 1] == After(ss[n - 1], es[n - 1], env);
      hide After;
      StuckIff(ss[n - 1], es[n - 1], env);
    }
  }

  lemma StuckWaits(s: Paths, e: Move, env: Env)
    requires Inv(s) && Enabled(s, e, env) && Stuck(s.path, s.tracked) && !e.Migrate? && !e.PathTimeout?
    ensures After(s, e, env).path == s.path && Stuck(s.path, After(s, e, env).tracked)
  {
    StuckIff(s, e, env);
    if e.Ask? {
      PolledProbe(s.path, e.now, e.pn, env);
      hide Discovery.Polled, Discovery.Pollable;
    }
  }

  /** A search that is stuck sends no probe and keeps its MTU until another path takes over. */
  lemma {:induction false} StaysStuck(ss: seq<Paths>, es: seq<Move>, env: Env, i: nat, n: nat)
    requires Course(ss, es, env) && i <= n < |ss| && Stuck(ss[i].path, ss[i].tracked)
    requires forall k :: i <= k < n ==> !es[k].Migrate? && !es[k].PathTimeout?
    ensures ss[n].path == ss[i].path && Stuck(ss[n].path, ss[n].tracked)
    decreases n
  {
    hide Inv, Enabled, After, Stuck;
    if i < n {
      StaysStuck(ss, es, env, i, n - 1);
      CourseInv(ss, es, env, n - 1);
      assert ss[n - 1 + 1] == After(ss[n - 1], es[n - 1], env);
      StuckWaits(ss[n - 1], es[n - 1], env);
    }
  }

  /** Packet `p` was acknowledged or lost before step `n`. */
  ghost predicate WasDecided(es: seq<Move>, p: nat, n: nat)
    requires n <= |es|
  {
    exists k :: 0 <= k < n && es[k].Decide? && es[k].pn == p
  }

  lemma {:induction false} TrackedUntilDecided(ss: seq<Paths>, es: seq<Move>, env: Env, p: nat, n: nat)
    requires Course(ss, es, env) && n < |ss| && p in ss[0].tracked
    ensures p < ss[n].next && (p in ss[n].tracked <==> !WasDecided(es, p, n))
  {
    if n > 0 {
      TrackedUntilDecided(ss, es, env, p, n - 1);
      assert ss[n - 1 + 1] == After(ss[n - 1], es[n - 1], env);
      hide Discovery.Polled, Discovery.Pollable, Discovery.Decided;
      var e := es[n - 1];
      assert WasDecided(es, p, n) <==> WasDecided(es, p, n - 1) || (e.Decide? && e.pn == p);
    }
  }

  /** While a migration from a validated path is pending, that path is kept as it was. */
  lemma {:induction false} Pending(ss: seq<Paths>, es: seq<Move>, env: Env, n: nat)
    requires Course(ss, es, env) && 0 < n < |ss| && es[0].Migrate? && !ss[0].challenged
    requires forall k :: 0 < k < n ==> !es[k].PathValidated? && !es[k].PathTimeout?
    ensures ss[n].challenged && ss[n].prev == Some(ss[0].path)
  {
    assert ss[n - 1 + 1] == After(ss[n - 1], es[n - 1], env);
    if n > 1 {
      Pending(ss, es, env, n - 1);
    }
  }

  /** A migration that fails restores the search as it was, and leaves it stuck if and only if its probe was
      acknowledged or lost meanwhile. */
  lemma FailedMigration(ss: seq<Paths>, es: seq<Move>, env: Env)
    requires Course(ss, es, env) && |es| >= 2 && es[0].Migrate? && es[|es| - 1].PathTimeout?
    requires forall k :: 0 < k < |es| - 1 ==> !es[k].PathValidated? && !es[k].PathTimeout?
    requires !ss[0].challenged && !Stuck(ss[0].path, ss[0].tracked)
    ensures var t := ss[|es|];
            && t.path == ss[0].path && !t.challenged
            && (Stuck(t.path, t.tracked)
                <==> t.path.Probe().Some? && WasDecided(es, t.path.Probe().value, |es|))
  {
    var n := |es| - 1;
    Pending(ss, es, env, n);
    assert ss[n + 1] == After(ss[n], es[n], env);
    var probe := ss[0].path.Probe();
    if probe.Some? {
      TrackedUntilDecided(ss, es, env, probe.value, |es|);
    }
  }

  /** It happens: a probe is sent, the peer's port changes, the probe is acknowledged, and the new path is given
      up. The search never goes on, and the MTU stays at 1200. */
  lemma StuckAfterRebinding() returns (ss: seq<Paths>, es: seq<Move>)
    ensures var env := Env(65527, Config(1452, 20, 600));
            Course(ss, es, env) && ss[0] == Paths(Discovery(1200, Initial), false, None, {}, 0)
    ensures es == [Ask(0, 0), Migrate(true, 1200), Decide(0, true), PathTimeout]
    ensures ss[4].path.mtu == 1200 && Stuck(ss[4].path, ss[4].tracked)
  {
    var env := Env(65527, Config(1452, 20, 600));
    var d := Discovery(1200, Initial);
    var d' := Discovery(1200, Searching(Search(1200, 1452, 20, 1326, Some(0), 0)));
    var d'' := Discovery(1326, Searching(Search(1200, 1452, 20, 1326, None, 0)));
    assert d.Polled(0, 0, env) == (d', Some(1326));
    ss := [Paths(d, false, None, {}, 0), Paths(d', false, None, {0}, 1), Paths(d', true, Some(d'), {0}, 1),
           Paths(d'', true, Some(d'), {}, 1), Paths(d', false, None, {}, 1)];
    es := [Ask(0, 0), Migrate(true, 1200), Decide(0, true), PathTimeout];
    assert {} + {0} == {0} && {0} - {0} == {};
  }
}
