/** Congestion accounting: what each live path counts as in flight against what is still tracked. */
module InFlight {
  import opened Basics

  datatype Load = Load(bytes: nat, ackEliciting: nat)
  {
    function Plus(other: Load): Load {
      Load(bytes + other.bytes, ackEliciting + other.ackEliciting)
    }

    predicate Within(other: Load) {
      bytes <= other.bytes && ackEliciting <= other.ackEliciting
    }

    function Minus(other: Load): Load
      requires other.Within(this)
    {
      Load(bytes - other.bytes, ackEliciting - other.ackEliciting)
    }
  }

  const EMPTY := Load(0, 0)

  /** A tracked packet: the generation of the path it was sent on and what it adds to the counters. */
  datatype Sent = Sent(generation: nat, size: nat, ackEliciting: bool)
  {
    /** What the packet adds to the counters of the path with generation `g`. */
    function On(g: nat): Load {
      if generation == g then Load(size, if ackEliciting then 1 else 0) else EMPTY
    }
  }

  datatype Path = Path(generation: nat, inFlight: Load, challenged: bool)
  {
    predicate Holds(load: Load) {
      load.Within(inFlight)
    }

    /** `InFlight::remove`; the source subtracts without a check. */
    function Less(load: Load): Path
      requires Holds(load)
    {
      this.(inFlight := inFlight.Minus(load))
    }
  }

  type Space = map<nat, Sent>

  /** The load on path `g` of the packets numbered below `n`. */
  function Tally(m: Space, g: nat, n: nat): Load {
    if n == 0 then EMPTY
    else if n - 1 in m then Tally(m, g, n - 1).Plus(m[n - 1].On(g))
    else Tally(m, g, n - 1)
  }

  lemma {:induction false} TallyRemove(m: Space, g: nat, n: nat, k: nat)
    requires k in m && k < n
    ensures Tally(m, g, n) == Tally(m - {k}, g, n).Plus(m[k].On(g))
  {
    if n - 1 == k {
      TallySame(m, m - {k}, g, k);
    } else {
      TallyRemove(m, g, n - 1, k);
    }
  }

  lemma {:induction false} TallySame(m: Space, m': Space, g: nat, n: nat)
    requires forall k :: 0 <= k < n ==> (k in m <==> k in m') && (k in m ==> m[k] == m'[k])
    ensures Tally(m, g, n) == Tally(m', g, n)
  {
    if n > 0 {
      TallySame(m, m', g, n - 1);
    }
  }

  lemma {:induction false} TallyInsert(m: Space, g: nat, n: nat, number: nat, p: Sent)
    requires n <= number && forall k :: k in m ==> k < n
    ensures Tally(m[number := p], g, number + 1) == Tally(m, g, n).Plus(p.On(g))
  {
    TallySame(m[number := p], m, g, number);
    TallyExtend(m, g, n, number);
  }

  lemma {:induction false} TallyExtend(m: Space, g: nat, n: nat, n': nat)
    requires n <= n' && forall k :: k in m ==> k < n
    ensures Tally(m, g, n') == Tally(m, g, n)
    decreases n'
  {
    if n < n' {
      TallyExtend(m, g, n, n' - 1);
    }
  }

  lemma {:induction false} TallyFresh(m: Space, g: nat, n: nat)
    requires forall k :: k in m ==> m[k].generation != g
    ensures Tally(m, g, n) == EMPTY
  {
    if n > 0 {
      TallyFresh(m, g, n - 1);
    }
  }

  lemma TallyNone(m: Space, g: nat, n: nat)
    requires n == 0
    ensures Tally(m, g, n) == EMPTY
  {
  }

  lemma TallySingle(k: nat, p: Sent, g: nat)
    ensures Tally(map[k := p], g, k + 1) == p.On(g)
  {
    TallySame(map[k := p], map[], g, k);
    TallyFresh(map[], g, k);
  }

  lemma {:induction false} TallyGrows(m: Space, g: nat, k: nat, n: nat)
    requires k <= n
    ensures Tally(m, g, k).Within(Tally(m, g, n))
    decreases n
  {
    if k < n {
      TallyGrows(m, g, k, n - 1);
    }
  }

  /** Ack-eliciting packets have a size, so their number is bounded by their bytes. */
  lemma {:induction false} ElicitingNeedsBytes(m: Space, g: nat, n: nat)
    requires forall k :: k in m && m[k].ackEliciting ==> m[k].size > 0
    ensures Tally(m, g, n).ackEliciting <= Tally(m, g, n).bytes
  {
    if n > 0 {
      ElicitingNeedsBytes(m, g, n - 1);
    }
  }

  /** A snapshot: the three packet spaces with their next packet numbers, the current and the previous
      path, and the last generation handed out. */
  datatype State = State(sent: seq<Space>, next: seq<nat>, path: Path, prev: Option<Path>, counter: nat)
  {
    ghost predicate Shape() {
      |sent| == 3 && |next| == 3
    }

    /** The load on path `g` of everything tracked. */
    function Sum(g: nat): Load
      requires |sent| == 3 && |next| == 3
    {
      Tally(sent[0], g, next[0]).Plus(Tally(sent[1], g, next[1])).Plus(Tally(sent[2], g, next[2]))
    }

    /** The number of ack-eliciting packets is exact; the bytes can only be too high. */
    ghost predicate Covers(p: Path)
      requires Shape()
    {
      var due := Sum(p.generation);
      p.inFlight.ackEliciting == due.ackEliciting && p.inFlight.bytes >= due.bytes
    }

    ghost predicate Tracked(m: Space, n: nat) {
      forall k :: k in m ==> k < n && m[k].generation <= counter && (m[k].ackEliciting ==> m[k].size > 0)
    }

    ghost predicate Inv() {
      && Shape()
      && (forall i :: 0 <= i < 3 ==> Tracked(sent[i], next[i]))
      && path.generation <= counter && Covers(path)
      && (prev.Some? ==> prev.value.generation <= counter && prev.value.generation != path.generation && Covers(prev.value))
    }

    /** Both live paths count exactly what is tracked on them. */
    ghost predicate Exact() {
      && Shape() && path.inFlight == Sum(path.generation)
      && (prev.Some? ==> prev.value.inFlight == Sum(prev.value.generation))
    }

    /** Packet `k` of space `i` counts on the previous path. */
    ghost predicate OnPrev(i: nat, k: nat)
      requires Shape() && i < 3 && k in sent[i]
    {
      prev.Some? && sent[i][k].generation == prev.value.generation && sent[i][k].size > 0
    }

    function WithSpace(i: nat, m: Space): State
      requires i < |sent|
    {
      this.(sent := sent[i := m])
    }

    lemma SumWithout(i: nat, k: nat, g: nat)
      requires Shape() && i < 3 && k in sent[i] && k < next[i]
      ensures Sum(g) == WithSpace(i, sent[i] - {k}).Sum(g).Plus(sent[i][k].On(g))
    {
      hide Tally, Sent.On;
      TallyRemove(sent[i], g, next[i], k);
      assert i == 0 || i == 1 || i == 2;
    }

    lemma SumEmptied(i: nat, g: nat)
      requires Shape() && i < 3
      ensures Sum(g) == WithSpace(i, map[]).Sum(g).Plus(Tally(sent[i], g, next[i]))
    {
      hide Tally, Sent.On;
      TallyFresh(map[], g, next[i]);
      assert i == 0 || i == 1 || i == 2;
    }

    lemma SumInsert(i: nat, number: nat, p: Sent, g: nat)
      requires Shape() && i < 3 && next[i] <= number && Tracked(sent[i], next[i])
      ensures Inserted(i, number, p).Sum(g) == Sum(g).Plus(p.On(g))
    {
      hide Tally, Sent.On;
      TallyInsert(sent[i], g, next[i], number, p);
      assert i == 0 || i == 1 || i == 2;
    }

    lemma SumFresh(g: nat)
      requires Inv() && g > counter
      ensures Sum(g) == EMPTY
    {
      hide Tally;
      TallyFresh(sent[0], g, next[0]);
      TallyFresh(sent[1], g, next[1]);
      TallyFresh(sent[2], g, next[2]);
    }

    lemma SumSame(t: State, g: nat)
      requires Shape() && t.sent == sent && t.next == next
      ensures t.Sum(g) == Sum(g)
    {
      hide Tally;
    }

    // The handlers, as changes of the snapshot

    /** `PathData::sent` up to the packet it may forget. */
    function Inserted(i: nat, number: nat, p: Sent): State
      requires |sent| == 3 && |next| == 3 && i < 3
    {
      var m: Space := sent[i][number := p];
      State(sent[i := m], next[i := number + 1],
            path.(inFlight := path.inFlight.Plus(p.On(path.generation))), prev, counter)
    }

    lemma InsertStep(i: nat, number: nat, p: Sent)
      requires Inv() && i < 3 && next[i] <= number && p.generation == path.generation && (p.ackEliciting ==> p.size > 0)
      ensures Inserted(i, number, p).Inv() && (Exact() ==> Inserted(i, number, p).Exact())
    {
      hide Tally, Sum;
      SumInsert(i, number, p, path.generation);
      if prev.Some? {
        SumInsert(i, number, p, prev.value.generation);
      }
    }

    /** A forgotten packet comes off the current path only, and it is never ack-eliciting. */
    function Forgotten(i: nat, k: nat): State
      requires |sent| == 3 && i < 3 && k in sent[i] && path.Holds(sent[i][k].On(path.generation))
    {
      WithSpace(i, sent[i] - {k}).(path := path.Less(sent[i][k].On(path.generation)))
    }

    lemma ForgetStep(i: nat, k: nat)
      requires Inv() && i < 3 && k in sent[i] && !sent[i][k].ackEliciting
      ensures path.Holds(sent[i][k].On(path.generation))
      ensures Forgotten(i, k).Inv() && (Exact() ==> (Forgotten(i, k).Exact() <==> !OnPrev(i, k)))
    {
      hide Tally, Sum;
      var t := WithSpace(i, sent[i] - {k});
      SumWithout(i, k, path.generation);
      t.SumSame(Forgotten(i, k), path.generation);
      if prev.Some? {
        SumWithout(i, k, prev.value.generation);
        t.SumSame(Forgotten(i, k), prev.value.generation);
      }
    }

    /** A packet of the previous path that is forgotten while another path is current stays on its counter:
        the surplus grows by its size. */
    lemma ForgottenStaysCounted(i: nat, k: nat)
      requires Inv() && prev.Some? && i < 3 && k in sent[i] && !sent[i][k].ackEliciting
      requires sent[i][k].generation == prev.value.generation
      ensures path.Holds(sent[i][k].On(path.generation)) && Forgotten(i, k).prev == prev
      ensures var g := prev.value.generation;
              prev.value.inFlight.bytes - Forgotten(i, k).Sum(g).bytes
              == prev.value.inFlight.bytes - Sum(g).bytes + sent[i][k].size
    {
      hide Tally, Sum;
      ForgetStep(i, k);
      var g := prev.value.generation;
      SumWithout(i, k, g);
      WithSpace(i, sent[i] - {k}).SumSame(Forgotten(i, k), g);
    }

    /** The live paths count the packets `gone`. */
    predicate Hold(gone: Space, n: nat) {
      && path.Holds(Tally(gone, path.generation, n))
      && (prev.Some? ==> prev.value.Holds(Tally(gone, prev.value.generation, n)))
    }

    /** The packets `gone` taken off the live paths they were sent on. */
    function Off(gone: Space, n: nat): State
      requires Hold(gone, n)
    {
      this.(path := path.Less(Tally(gone, path.generation, n)),
            prev := if prev.Some? then Some(prev.value.Less(Tally(gone, prev.value.generation, n))) else None)
    }

    /** Packets that leave space `i` can be taken off, and the account stays right. */
    lemma OffStep(i: nat, m: Space, gone: Space, n: nat)
      requires Inv() && i < 3 && Tracked(m, next[i])
      requires Sum(path.generation) == WithSpace(i, m).Sum(path.generation).Plus(Tally(gone, path.generation, n))
      requires prev.Some? ==> var g := prev.value.generation;
                              Sum(g) == WithSpace(i, m).Sum(g).Plus(Tally(gone, g, n))
      ensures WithSpace(i, m).Hold(gone, n)
      ensures WithSpace(i, m).Off(gone, n).Inv() && (Exact() ==> WithSpace(i, m).Off(gone, n).Exact())
    {
      hide Tally, Sum;
      var t := WithSpace(i, m);
      t.SumSame(t.Off(gone, n), path.generation);
      if prev.Some? {
        t.SumSame(t.Off(gone, n), prev.value.generation);
      }
    }

    /** `migrate`: a path with a new generation takes over; the old one is kept if it had been validated. */
    function Migrated(): State {
      this.(counter := counter + 1,
            path := Path(counter + 1, EMPTY, true),
            prev := if path.challenged then prev else Some(path.(challenged := true)))
    }

    lemma CoversSame(t: State, p: Path, p': Path)
      requires Shape() && t.sent == sent && t.next == next
      requires p'.generation == p.generation && p'.inFlight == p.inFlight
      ensures t.Covers(p') <==> Covers(p)
    {
      hide Tally, Sum;
      SumSame(t, p.generation);
    }

    lemma StartsEmpty()
      requires Inv()
      ensures Migrated().Covers(Migrated().path) && Migrated().Sum(counter + 1) == EMPTY
    {
      hide Tally, Sum;
      SumFresh(counter + 1);
      SumSame(Migrated(), counter + 1);
    }

    lemma MigrateStep()
      requires Inv()
      ensures Migrated().Inv() && (Exact() ==> Migrated().Exact())
    {
      var t := Migrated();
      hide Tally, Sum, Covers;
      StartsEmpty();
      CoversSame(t, path, path.(challenged := true));
      SumSame(t, path.generation);
      if prev.Some? {
        CoversSame(t, prev.value, prev.value);
        SumSame(t, prev.value.generation);
      }
    }

    /** Path validation succeeds. */
    function Validated(): State {
      this.(path := path.(challenged := false),
            prev := if prev.Some? then Some(prev.value.(challenged := false)) else None)
    }

    /** Path validation times out: fall back to the previous path. */
    function Reverted(): State {
      this.(path := (if prev.Some? then prev.value else path).(challenged := false), prev := None)
    }

    lemma PathStep()
      requires Inv()
      ensures Validated().Inv() && Reverted().Inv()
      ensures Exact() ==> Validated().Exact() && Reverted().Exact()
    {
      hide Tally, Sum;
      SumSame(Validated(), path.generation);
      SumSame(Reverted(), path.generation);
      if prev.Some? {
        SumSame(Validated(), prev.value.generation);
        SumSame(Reverted(), prev.value.generation);
      }
    }
  }

  // ---------------------------------------------------------------------------------------------
  // Runs

  /** What can happen to the counters: a packet is sent (and an old one may be forgotten), acknowledged or
      lost; a space is dropped (key discard, Retry, 0-RTT rejection); the peer moves to a new path, which
      is validated or given up. */
  datatype Event =
    | Send(space: nat, number: nat, size: nat, ackEliciting: bool, forgotten: Option<nat>)
    | Taken(space: nat, number: nat)
    | Dropped(space: nat)
    | Migrate
    | PathValidated
    | PathTimeout

  ghost predicate Enabled(s: State, e: Event) {
    match e
    case Send(i, number, size, ackEliciting, forgotten) =>
      && s.Shape() && i < 3 && s.next[i] <= number && (ackEliciting ==> size > 0)
      && (forgotten.Some? ==> forgotten.value in s.sent[i] && !s.sent[i][forgotten.value].ackEliciting)
    case Taken(i, number) => s.Shape() && i < 3 && number in s.sent[i]
    case Dropped(i) => s.Shape() && i < 3
    case _ => true
  }

  ghost function Sending(s: State, e: Event): State
    requires e.Send? && Enabled(s, e)
  {
    s.Inserted(e.space, e.number, Sent(s.path.generation, e.size, e.ackEliciting))
  }

  /** What the handler of `e` makes of `s`. */
  ghost function Step(s: State, e: Event): State
    requires s.Inv() && Enabled(s, e)
  {
    match e
    case Send(i, _, _, _, forgotten) =>
      SendStep(s, e);
      if forgotten.Some? then Sending(s, e).Forgotten(i, forgotten.value) else Sending(s, e)
    case Taken(i, number) =>
      TakeStep(s, i, number);
      s.WithSpace(i, s.sent[i] - {number}).Off(map[number := s.sent[i][number]], number + 1)
    case Dropped(i) =>
      DropStep(s, i);
      s.WithSpace(i, map[]).Off(s.sent[i], s.next[i])
    case Migrate => s.Migrated()
    case PathValidated => s.Validated()
    case PathTimeout => s.Reverted()
  }

  lemma SendStep(s: State, e: Event)
    requires s.Inv() && e.Send? && Enabled(s, e)
    ensures var t := Sending(s, e);
            && t.Inv() && (s.Exact() ==> t.Exact())
            && (e.forgotten.Some? ==>
                  var k := e.forgotten.value;
                  && k in t.sent[e.space] && t.path.Holds(t.sent[e.space][k].On(t.path.generation))
                  && t.Forgotten(e.space, k).Inv()
                  && (s.Exact() ==> (t.Forgotten(e.space, k).Exact() <==> !s.OnPrev(e.space, k))))
  {
    s.InsertStep(e.space, e.number, Sent(s.path.generation, e.size, e.ackEliciting));
    var t := Sending(s, e);
    if e.forgotten.Some? {
      assert t.sent[e.space][e.forgotten.value] == s.sent[e.space][e.forgotten.value];
      assert t.OnPrev(e.space, e.forgotten.value) == s.OnPrev(e.space, e.forgotten.value);
      hide Tally, State.Sum, State.Covers, State.Exact, State.OnPrev, Sending;
      t.ForgetStep(e.space, e.forgotten.value);
    }
  }

  lemma TakeStep(s: State, i: nat, k: nat)
    requires s.Inv() && i < 3 && k in s.sent[i]
    ensures var t, gone := s.WithSpace(i, s.sent[i] - {k}), map[k := s.sent[i][k]];
            t.Hold(gone, k + 1) && t.Off(gone, k + 1).Inv() && (s.Exact() ==> t.Off(gone, k + 1).Exact())
  {
    hide Tally, State.Sum, State.Covers, State.Hold, State.Off;
    TakenOne(s, i, k, s.path.generation);
    if s.prev.Some? {
      TakenOne(s, i, k, s.prev.value.generation);
    }
    s.OffStep(i, s.sent[i] - {k}, map[k := s.sent[i][k]], k + 1);
  }

  lemma TakenOne(s: State, i: nat, k: nat, g: nat)
    requires s.Inv() && i < 3 && k in s.sent[i]
    ensures s.Sum(g) == s.WithSpace(i, s.sent[i] - {k}).Sum(g).Plus(Tally(map[k := s.sent[i][k]], g, k + 1))
  {
    hide Tally, State.Sum, State.Covers;
    s.SumWithout(i, k, g);
    TallySingle(k, s.sent[i][k], g);
  }

  lemma DropStep(s: State, i: nat)
    requires s.Inv() && i < 3
    ensures var t, gone := s.WithSpace(i, map[]), s.sent[i];
            t.Hold(gone, s.next[i]) && t.Off(gone, s.next[i]).Inv() && (s.Exact() ==> t.Off(gone, s.next[i]).Exact())
  {
    hide Tally, State.Sum, State.Covers, State.Hold, State.Off;
    s.SumEmptied(i, s.path.generation);
    if s.prev.Some? {
      s.SumEmptied(i, s.prev.value.generation);
    }
    s.OffStep(i, map[], s.sent[i], s.next[i]);
  }

  /** Sending `e` forgets a packet that counts on the previous path, which is not looked at. */
  ghost predicate Loses(s: State, e: Event) {
    e.Send? && e.forgotten.Some? && Enabled(s, e) && s.OnPrev(e.space, e.forgotten.value)
  }

  /** From an exact account every event leads to an exact one, but for a `Send` that forgets a packet of the
      previous path. */
  lemma StepKeepsInv(s: State, e: Event)
    requires s.Inv() && Enabled(s, e)
    ensures Step(s, e).Inv()
    ensures s.Exact() ==> (Step(s, e).Exact() <==> !Loses(s, e))
  {
    hide State.Exact, State.OnPrev;
    match e
    case Send(_, _, _, _, _) => SendStep(s, e);
    case Taken(i, number) => TakeStep(s, i, number);
    case Dropped(i) => DropStep(s, i);
    case Migrate => s.MigrateStep();
    case PathValidated => s.PathStep();
    case PathTimeout => s.PathStep();
  }

  ghost predicate Initial(s: State) {
    && s.Shape() && s.prev.None? && s.path == Path(s.counter, EMPTY, false)
    && forall i :: 0 <= i < 3 ==> s.next[i] == 0 && |s.sent[i]| == 0
  }

  /** A run: every state but the first is what an enabled event made of the one before. */
  ghost predicate Run(ss: seq<State>, es: seq<Event>) {
    && |ss| == |es| + 1 && Initial(ss[0])
    && forall i :: 0 <= i < |es| ==> Next(ss[i], es[i], ss[i + 1])
  }

  /** `Step` is defined on states that keep the account, which all states of a run do. */
  ghost predicate Next(s: State, e: Event, s': State) {
    s.Inv() ==> Enabled(s, e) && s' == Step(s, e)
  }

  /** In every run, each live path counts exactly the ack-eliciting packets tracked on it and at least their
      bytes, so nothing underflows; the bytes are exact all along if and only if no packet that counts on the
      previous path is forgotten. A path with ack-eliciting packets in flight has bytes in flight. */
  lemma {:induction false} Conservation(ss: seq<State>, es: seq<Event>, n: nat)
    requires Run(ss, es) && n < |ss|
    ensures ss[n].Inv()
    ensures ExactUpTo(ss, n) <==> forall i :: 0 <= i < n ==> !Loses(ss[i], es[i])
    ensures ss[n].path.inFlight.ackEliciting <= ss[n].path.inFlight.bytes
    ensures ss[n].prev.Some? ==> ss[n].prev.value.inFlight.ackEliciting <= ss[n].prev.value.inFlight.bytes
  {
    hide State.Inv, State.Exact, Next, Loses;
    if n > 0 {
      Conservation(ss, es, n - 1);
      assert Next(ss[n - 1], es[n - 1], ss[n - 1 + 1]);
      NextKeepsInv(ss[n - 1], es[n - 1], ss[n]);
      ExactNext(ss, n);
    } else {
      InitialHolds(ss[0]);
    }
    ElicitingBounded(ss[n]);
  }

  ghost predicate ExactUpTo(ss: seq<State>, n: nat)
    requires n < |ss|
  {
    forall m :: 0 <= m <= n ==> ss[m].Exact()
  }

  lemma ExactNext(ss: seq<State>, n: nat)
    requires 0 < n < |ss|
    ensures ExactUpTo(ss, n) <==> ExactUpTo(ss, n - 1) && ss[n].Exact()
    ensures ExactUpTo(ss, n - 1) ==> ss[n - 1].Exact()
  {
    hide State.Exact;
  }

  lemma NextKeepsInv(s: State, e: Event, s': State)
    requires s.Inv() && Next(s, e, s')
    ensures s'.Inv() && (s.Exact() ==> (s'.Exact() <==> !Loses(s, e)))
  {
    assert Enabled(s, e) && s' == Step(s, e);
    hide State.Inv, State.Exact, Step, Loses;
    StepKeepsInv(s, e);
  }

  /** A run goes on with any enabled event. */
  lemma RunOn(ss: seq<State>, es: seq<Event>, e: Event)
    requires Run(ss, es) && ss[|es|].Inv() && Enabled(ss[|es|], e)
    ensures Run(ss + [Step(ss[|es|], e)], es + [e])
  {
    hide State.Inv, Step, Enabled;
    var ss', es' := ss + [Step(ss[|es|], e)], es + [e];
    forall i | 0 <= i < |es'|
      ensures Next(ss'[i], es'[i], ss'[i + 1])
    {
      if i < |es| {
        assert Next(ss[i], es[i], ss[i + 1]);
      }
    }
  }

  /** `n` padded packets without an ack-eliciting frame, sent on the first path. */
  lemma {:induction false} PaddedRun(size: nat, n: nat) returns (ss: seq<State>, es: seq<Event>)
    ensures Run(ss, es) && |es| == n && ss[n].Inv()
    ensures ss[n].path.generation == 0 && !ss[n].path.challenged && ss[n].prev.None? && ss[n].next[2] == n
    ensures forall k :: 0 <= k < n ==> k in ss[n].sent[2] && ss[n].sent[2][k] == Sent(0, size, false)
    ensures forall i :: 0 <= i < n ==> es[i] == Send(2, i, size, false, None)
  {
    hide Tally, State.Sum, State.Covers;
    if n == 0 {
      ss, es := [State([map[], map[], map[]], [0, 0, 0], Path(0, EMPTY, false), None, 0)], [];
      InitialHolds(ss[0]);
    } else {
      ss, es := PaddedRun(size, n - 1);
      var e := Send(2, n - 1, size, false, None);
      RunOn(ss, es, e);
      StepKeepsInv(ss[n - 1], e);
      ss, es := ss + [Step(ss[n - 1], e)], es + [e];
    }
  }

  /** A run that loses count: after `n` padded packets the path migrates, and the next packet has the space
      forget one of them. With the limit of 1000 this happens for `n == 1001` and `k == 1`. */
  lemma ForgottenAfterMigration(size: nat, n: nat, k: nat) returns (ss: seq<State>, es: seq<Event>)
    requires size > 0 && k < n
    ensures Run(ss, es) && |es| == n + 2 && es[n] == Migrate && es[n + 1] == Send(2, n, size, false, Some(k))
    ensures forall i :: 0 <= i < n ==> es[i] == Send(2, i, size, false, None)
    ensures ExactUpTo(ss, n + 1) && ss[n + 2].Inv() && !ss[n + 2].Exact()
    ensures var p := ss[n + 2].prev;
            p.Some? && p.value.generation == 0 && p.value.inFlight.bytes == ss[n + 2].Sum(0).bytes + size
  {
    hide Tally, State.Sum, State.Covers, State.Exact;
    ss, es := PaddedRun(size, n);
    var s, e := ss[n].Migrated(), Send(2, n, size, false, Some(k));
    RunOn(ss, es, Migrate);
    ss[n].MigrateStep();
    ss, es := ss + [s], es + [Migrate];
    Conservation(ss, es, n + 1);
    assert ss[n + 1].Exact();
    RunOn(ss, es, e);
    StepKeepsInv(s, e);
    ss, es := ss + [Step(s, e)], es + [e];
    LosesItsSize(s, e);
  }

  lemma LosesItsSize(s: State, e: Event)
    requires s.Inv() && Enabled(s, e) && s.Exact() && Loses(s, e)
    ensures var p, t := s.prev.value, Step(s, e);
            t.prev == s.prev && t.Shape()
            && p.inFlight.bytes == t.Sum(p.generation).bytes + s.sent[e.space][e.forgotten.value].size
  {
    hide Tally, State.Sum;
    SendStep(s, e);
    Sending(s, e).ForgottenStaysCounted(e.space, e.forgotten.value);
  }

  lemma InitialHolds(s: State)
    requires Initial(s)
    ensures s.Inv() && s.Exact()
  {
    hide Tally, State.Sum;
    NothingSent(s, s.path.generation);
  }

  lemma NothingSent(s: State, g: nat)
    requires s.Shape() && s.next[0] == s.next[1] == s.next[2] == 0
    ensures s.Sum(g) == EMPTY
  {
    hide Tally;
    TallyNone(s.sent[0], g, s.next[0]);
    TallyNone(s.sent[1], g, s.next[1]);
    TallyNone(s.sent[2], g, s.next[2]);
  }

  lemma ElicitingBounded(s: State)
    requires s.Inv()
    ensures s.path.inFlight.ackEliciting <= s.path.inFlight.bytes
    ensures s.prev.Some? ==> s.prev.value.inFlight.ackEliciting <= s.prev.value.inFlight.bytes
  {
    hide Tally, State.Sum;
    SumBounded(s, s.path.generation);
    if s.prev.Some? {
      SumBounded(s, s.prev.value.generation);
    }
  }

  lemma SumBounded(s: State, g: nat)
    requires s.Inv()
    ensures s.Sum(g).ackEliciting <= s.Sum(g).bytes
  {
    hide Tally, State.Covers;
    ElicitingNeedsBytes(s.sent[0], g, s.next[0]);
    ElicitingNeedsBytes(s.sent[1], g, s.next[1]);
    ElicitingNeedsBytes(s.sent[2], g, s.next[2]);
  }

  /** The packet spaces and paths of a connection. Each method is the step of its event. */
  class Connection {
    var sent: seq<Space>
    var next: seq<nat>
    var path: Path
    var prev: Option<Path>
    var counter: nat

    function View(): State
      reads this
    {
      State(sent, next, path, prev, counter)
    }

    constructor ()
      ensures Initial(View())
    {
      sent, next, path, prev, counter := [map[], map[], map[]], [0, 0, 0], Path(0, EMPTY, false), None, 0;
    }

    /** Visits the paths from newest to oldest to find the one `packet` was sent on. */
    method RemoveInFlight(packet: Sent)
      requires path.Holds(packet.On(path.generation))
      requires prev.Some? ==> prev.value.Holds(packet.On(prev.value.generation)) && prev.value.generation != path.generation
      modifies this`path, this`prev
      ensures path == old(path).Less(packet.On(old(path).generation))
      ensures prev == if old(prev).Some? then Some(old(prev).value.Less(packet.On(old(prev).value.generation))) else None
    {
      if path.generation == packet.generation {
        path := path.Less(packet.On(path.generation));
      } else if prev.Some? && prev.value.generation == packet.generation {
        prev := Some(prev.value.Less(packet.On(prev.value.generation)));
      }
    }

    /** `PathData::sent`; `forgotten` is the packet the space stops tracking, if any. */
    method SendPacket(i: nat, number: nat, size: nat, ackEliciting: bool, forgotten: Option<nat>)
      requires View().Inv() && Enabled(View(), Send(i, number, size, ackEliciting, forgotten))
      modifies this
      ensures View() == Step(old(View()), Send(i, number, size, ackEliciting, forgotten))
    {
      ghost var s, e := View(), Send(i, number, size, ackEliciting, forgotten);
      SendStep(s, e);
      hide Tally, State.Inv, State.Exact;
      var packet := Sent(path.generation, size, ackEliciting);
      path := path.(inFlight := path.inFlight.Plus(packet.On(path.generation)));
      var m: Space := sent[i][number := packet];
      sent, next := sent[i := m], next[i := number + 1];
      assert View() == Sending(s, e);
      if forgotten.Some? {
        var gone := sent[i][forgotten.value];
        sent := sent[i := sent[i] - {forgotten.value}];
        if path.generation == gone.generation {
          path := path.Less(gone.On(path.generation));
        }
        assert View() == Sending(s, e).Forgotten(i, forgotten.value);
      }
    }

    /** An acknowledged or lost packet stops being tracked. */
    method Take(i: nat, number: nat)
      requires View().Inv() && Enabled(View(), Taken(i, number))
      modifies this
      ensures View() == Step(old(View()), Taken(i, number))
    {
      ghost var s := View();
      TakeStep(s, i, number);
      var packet := sent[i][number];
      TallySingle(number, packet, path.generation);
      if prev.Some? {
        TallySingle(number, packet, prev.value.generation);
      }
      hide Tally, State.Sum, State.Covers, State.Exact;
      sent := sent[i := sent[i] - {number}];
      RemoveInFlight(packet);
    }

    /** All packets of a space are dropped at once and taken off the counters one by one. */
    method DropSpace(i: nat)
      requires View().Inv() && Enabled(View(), Dropped(i))
      modifies this
      ensures View() == Step(old(View()), Dropped(i))
    {
      ghost var s := View();
      DropStep(s, i);
      var packets, n := sent[i], next[i];
      sent := sent[i := map[]];
      ghost var t := View();
      OffNone(t, packets);
      for k := 0 to n
        invariant t.Hold(packets, n) && t.Hold(packets, k)
        invariant View() == t.Off(packets, k)
        invariant prev.Some? ==> prev.value.generation != path.generation
      {
        OffOne(t, packets, k, n);
        hide Tally, State.Hold, State.Off;
        if k in packets {
          RemoveInFlight(packets[k]);
        }
      }
    }

    method MigratePath()
      requires View().Inv()
      modifies this
      ensures View() == Step(old(View()), Event.Migrate)
    {
      counter := counter + 1;
      var old' := path;
      path := Path(counter, EMPTY, true);
      if !old'.challenged {
        prev := Some(old'.(challenged := true));
      }
    }

    method OnPathResponse()
      requires View().Inv()
      modifies this
      ensures View() == Step(old(View()), PathValidated)
    {
      path := path.(challenged := false);
      if prev.Some? {
        prev := Some(prev.value.(challenged := false));
      }
    }

    method OnPathTimeout()
      requires View().Inv()
      modifies this
      ensures View() == Step(old(View()), Event.PathTimeout)
    {
      if prev.Some? {
        path, prev := prev.value, None;
      }
      path := path.(challenged := false);
    }
  }

  lemma OffNone(t: State, m: Space)
    ensures t.Hold(m, 0) && t.Off(m, 0) == t
  {
  }

  /** Taking off the packets below `k` and then packet `k` is taking off the packets below `k + 1`. */
  lemma OffOne(t: State, m: Space, k: nat, n: nat)
    requires k < n && t.Hold(m, n) && t.Hold(m, k)
    ensures t.Hold(m, k + 1)
    ensures k !in m ==> t.Off(m, k + 1) == t.Off(m, k)
    ensures k in m ==>
              var u := t.Off(m, k);
              && u.path.Holds(m[k].On(u.path.generation))
              && (u.prev.Some? ==> u.prev.value.Holds(m[k].On(u.prev.value.generation)))
              && t.Off(m, k + 1) == u.(path := u.path.Less(m[k].On(u.path.generation)),
                                       prev := if u.prev.Some? then Some(u.prev.value.Less(m[k].On(u.prev.value.generation))) else None)
  {
    TallyGrows(m, t.path.generation, k + 1, n);
    TallyNext(m, t.path.generation, k);
    if t.prev.Some? {
      TallyGrows(m, t.prev.value.generation, k + 1, n);
      TallyNext(m, t.prev.value.generation, k);
    }
    hide Tally;
  }

  lemma TallyNext(m: Space, g: nat, k: nat)
    ensures Tally(m, g, k + 1) == if k in m then Tally(m, g, k).Plus(m[k].On(g)) else Tally(m, g, k)
  {
  }
}
