/** What holds in every run of the replication engine. */
module Convergence {
  import opened Bytes
  import opened Clock
  import opened Wire
  import opened Lww
  import opened ReplLog
  import opened Sync
  import opened Recovery
  import opened Events
  import opened Delivery
  import opened Runs
  import opened RunInvariant

  /** World `i` is what step `i - 1` makes of the world before it. */
  ghost predicate StepAt(run: seq<World>, steps: seq<Step>, i: nat)
    requires 0 < i < |run| == |steps| + 1
  {
    && run[i - 1].seen.Keys == run[i - 1].peers.Keys && Enabled(run[i - 1], steps[i - 1])
    && run[i] == Next(run[i - 1], steps[i - 1])
  }

  /** The worlds of a run, one more than its steps. */
  ghost predicate IsRun(run: seq<World>, steps: seq<Step>) {
    && |run| == |steps| + 1 && Start(run[0])
    && forall i: nat :: 0 < i < |run| ==> StepAt(run, steps, i)
  }

  lemma NextHolds(run: seq<World>, steps: seq<Step>, i: nat)
    requires 0 < i < |run| == |steps| + 1 && StepAt(run, steps, i) && Inv(run[i - 1])
    ensures Inv(run[i]) && Extends(run[i - 1], run[i])
  {
    StepHolds(run[i - 1], steps[i - 1]);
  }

  /** The invariant holds in every reachable world. */
  lemma {:induction false} RunHolds(run: seq<World>, steps: seq<Step>, i: nat)
    requires IsRun(run, steps) && i < |run|
    ensures Inv(run[i])
  {
    if i == 0 {
      StartHolds(run[0]);
    } else {
      RunHolds(run, steps, i - 1);
      NextHolds(run, steps, i);
    }
  }

  lemma OneStepExtends(run: seq<World>, steps: seq<Step>, i: nat)
    requires IsRun(run, steps) && 0 < i < |run|
    ensures Extends(run[i - 1], run[i])
  {
    RunHolds(run, steps, i - 1);
    NextHolds(run, steps, i);
  }

  lemma GrowsTransitive(s: State, t: State, u: State)
    requires Grows(s, t) && Grows(t, u)
    ensures Grows(s, u)
  {
    forall o: PeerId ensures Cursor(s.log, o) <= Cursor(u.log, o) {
      assert Cursor(s.log, o) <= Cursor(t.log, o) <= Cursor(u.log, o);
    }
  }

  lemma ExtendsTransitive(u: World, v: World, w: World)
    requires Extends(u, v) && Extends(v, w)
    ensures Extends(u, w)
  {
    forall o: PeerId ensures Of(u.truth, o) <= Of(w.truth, o) {
      assert Of(u.truth, o) <= Of(v.truth, o) <= Of(w.truth, o);
    }
    forall n | n in u.peers ensures Grows(u.peers[n], w.peers[n]) {
      GrowsTransitive(u.peers[n], v.peers[n], w.peers[n]);
    }
  }

  lemma ExtendsReflexive(w: World)
    ensures Extends(w, w)
  {
    forall n | n in w.peers ensures Grows(w.peers[n], w.peers[n]) {
      GrowsReflexive(w.peers[n]);
    }
  }

  /** Cursors never fall, across failed appends and restarts too, and written history never changes. */
  lemma {:induction false} RunExtends(run: seq<World>, steps: seq<Step>, i: nat, j: nat)
    requires IsRun(run, steps) && i <= j < |run|
    ensures Extends(run[i], run[j])
    decreases j
  {
    if i == j {
      ExtendsReflexive(run[i]);
    } else {
      RunExtends(run, steps, i, j - 1);
      OneStepExtends(run, steps, j);
      ExtendsTransitive(run[i], run[j - 1], run[j]);
    }
  }

  /** A peer holds exactly the slice (base, cursor] of each origin's log, and never runs ahead of the origin. */
  lemma HeldIsASlice(run: seq<World>, steps: seq<Step>, i: nat, n: PeerId, o: PeerId)
    requires IsRun(run, steps) && i < |run| && n in run[i].peers
    ensures var log, truth := run[i].peers[n].log, Of(run[i].truth, o);
      && Cursor(log, o) <= |truth| && Held(log, o) == truth[Base(log, o)..Cursor(log, o)]
      && |truth| == if o in run[i].peers then Cursor(run[i].peers[o].log, o) else 0
  {
    RunHolds(run, steps, i);
    assert Sound(run[i].truth, n, run[i].peers[n], run[i].seen[n]);
    assert HoldsSlice(run[i].truth, run[i].peers[n].log, o);
    if o in run[i].peers {
      assert Sound(run[i].truth, o, run[i].peers[o], run[i].seen[o]);
    }
  }

  lemma SentIsTrue(run: seq<World>, steps: seq<Step>, i: nat, j: nat, f: Frame)
    requires IsRun(run, steps) && i <= j < |run| && f in run[i].net
    ensures IsTrue(run[j].truth, f)
  {
    RunHolds(run, steps, i);
    RunExtends(run, steps, i, j);
    StillTrue(run[i], run[j], f);
  }

  lemma SameNumberSameFrame(truth: Truth, f: Frame, g: Frame)
    requires IsTrue(truth, f) && IsTrue(truth, g) && KeyOf(f) == KeyOf(g)
    ensures f == g
  {
  }

  /** In a whole run no origin and sequence number ever goes out on a wire with two different frames. */
  lemma OneFramePerNumber(run: seq<World>, steps: seq<Step>, i: nat, j: nat, f: Frame, g: Frame)
    requires IsRun(run, steps) && i <= j < |run|
    requires f in run[i].net && g in run[j].net && KeyOf(f) == KeyOf(g)
    ensures f == g
  {
    SentIsTrue(run, steps, i, j, f);
    SentIsTrue(run, steps, j, j, g);
    SameNumberSameFrame(run[j].truth, f, g);
  }

  /**
   * Strong convergence, even between different moments of a run: two peers whose cursors are equal for every
   * origin show the same data and the same author for every record.
   */
  lemma StrongConvergence(run: seq<World>, steps: seq<Step>, i: nat, j: nat, n: PeerId, m: PeerId, key: Key)
    requires IsRun(run, steps) && i <= j < |run| && n in run[i].peers && m in run[j].peers
    requires forall o: PeerId :: Cursor(run[i].peers[n].log, o) == Cursor(run[j].peers[m].log, o)
    ensures Visible(run[i].peers[n].cells, key) == Visible(run[j].peers[m].cells, key)
  {
    RunHolds(run, steps, i);
    RunHolds(run, steps, j);
    RunExtends(run, steps, i, j);
    assert Sound(run[i].truth, n, run[i].peers[n], run[i].seen[n]);
    assert Sound(run[j].truth, m, run[j].peers[m], run[j].seen[m]);
    FaithfulLater(run[i].truth, run[j].truth, run[i].peers[n]);
    FaithfulPeersAgree(run[j].truth, run[i].peers[n], run[j].peers[m], key);
  }

  /**
   * A restart loses nothing: cursors are at or past where they were, and while they are where they were,
   * so is every visible record. The clock is past everything on disk.
   */
  lemma RestartLosesNothing(run: seq<World>, steps: seq<Step>, i: nat, n: PeerId, load: seq<Frame>, key: Key)
    requires IsRun(run, steps) && 0 < i < |run| && StepAt(run, steps, i) && steps[i - 1] == Restart(n, load)
    ensures var s, t := run[i - 1].peers[n], run[i].peers[n];
      && Grows(s, t) && t.disk == s.disk
      && ((forall o: PeerId :: Cursor(s.log, o) == Cursor(t.log, o)) ==> Visible(s.cells, key) == Visible(t.cells, key))
      && (forall f :: f in s.disk.value.Values ==> HlcAtMost(f.stamp.hlc, t.clock))
  {
    var s, t := run[i - 1].peers[n], run[i].peers[n];
    assert t.disk == s.disk && run[i].seen[n] == s.disk.value.Values;
    assert Grows(s, t) by {
      RunExtends(run, steps, i - 1, i);
    }
    if forall o: PeerId :: Cursor(s.log, o) == Cursor(t.log, o) {
      StrongConvergence(run, steps, i - 1, i, n, n, key);
    }
    assert forall f :: f in s.disk.value.Values ==> HlcAtMost(f.stamp.hlc, t.clock) by {
      RunHolds(run, steps, i);
      assert Sound(run[i].truth, n, t, run[i].seen[n]);
    }
  }

  lemma CellIsBelow(truth: Truth, s: State, seen: set<Frame>, key: Key)
    requires Faithful(truth, s) && SeenOk(truth, s, seen)
    ensures CellBelow(CellAt(s.cells, key), s.clock)
  {
    var c := CellAt(s.cells, key);
    assert CellOk(truth, s.log, key, c);
    if f :| IsWinner(truth, s.log, key, f) && Reflects(c, f) {
      assert f in seen;
    }
  }

  /** At every moment of a run, restarts included, a peer's clock is at or above everything its cells remember. */
  lemma ClockDominates(run: seq<World>, steps: seq<Step>, i: nat, n: PeerId)
    requires IsRun(run, steps) && i < |run| && n in run[i].peers
    ensures Dominates(run[i].peers[n])
  {
    var s := run[i].peers[n];
    RunHolds(run, steps, i);
    assert Sound(run[i].truth, n, s, run[i].seen[n]);
    forall key | key in s.cells ensures CellBelow(s.cells[key], s.clock) {
      CellIsBelow(run[i].truth, s, run[i].seen[n], key);
    }
  }

  /** So the next local write always takes the next free number and wins. */
  lemma NextWriteWins(run: seq<World>, steps: seq<Step>, i: nat, n: PeerId,
                      wall: nat, op: Op, key: Key, data: seq<byte>, sig: Option<Signature>, io: AppendResult)
    requires IsRun(run, steps) && i < |run| && n in run[i].peers && !TickOverflows(run[i].peers[n].clock, wall)
    ensures var (t, result) := Written(run[i].peers[n], wall, op, key, data, sig, io);
      result.Ok? ==>
        && result.value.seqno == |Of(run[i].truth, n)| + 1
        && Visible(t.cells, key) == if op == Delete then None else Some((data, n))
  {
    RunHolds(run, steps, i);
    assert Sound(run[i].truth, n, run[i].peers[n], run[i].seen[n]);
    ClockDominates(run, steps, i, n);
    LocalWriteWins(run[i].peers[n], wall, op, key, data, sig, io);
  }

  // ---- causality ---------------------------------------------------------

  /** The author of `g` had received `f` when it wrote `g`. */
  ghost predicate Caused(w: World, f: Frame, g: Frame) {
    g in w.causes && f in w.causes[g]
  }

  /** `path` leads from a write to one issued by a peer that had received it, directly or through others. */
  ghost predicate HappenedBefore(w: World, path: seq<Frame>) {
    |path| >= 2 && forall i :: 0 < i < |path| ==> Caused(w, path[i - 1], path[i])
  }

  lemma {:induction false} PathOrdersStamps(w: World, path: seq<Frame>)
    requires CausesOk(w) && HappenedBefore(w, path)
    ensures StampLess(path[0].stamp, path[|path| - 1].stamp)
    decreases |path|
  {
    var last := |path| - 1;
    assert Caused(w, path[last - 1], path[last]);
    if last > 1 {
      var front := path[..last];
      forall i | 0 < i < |front| ensures Caused(w, front[i - 1], front[i]) {
        assert Caused(w, path[i - 1], path[i]);
      }
      PathOrdersStamps(w, front);
      StampChain(path[0].stamp, path[last - 1].stamp, path[last].stamp);
    }
  }

  /** A write that depends on another carries the greater stamp. */
  lemma CausalityOrdersStamps(run: seq<World>, steps: seq<Step>, i: nat, path: seq<Frame>)
    requires IsRun(run, steps) && i < |run| && HappenedBefore(run[i], path)
    ensures StampLess(path[0].stamp, path[|path| - 1].stamp)
  {
    RunHolds(run, steps, i);
    PathOrdersStamps(run[i], path);
  }

  /** The causes of a write include every frame its author had been delivered. */
  lemma CausesCoverDelivery(run: seq<World>, steps: seq<Step>, i: nat, n: PeerId, a: Action, f: Frame)
    requires IsRun(run, steps) && 0 < i < |run| && StepAt(run, steps, i)
    requires steps[i - 1] == Local(n, a) && a.Write? && LengthError(a.key, a.data).None?
    requires Got(run[i - 1].truth, run[i - 1].peers[n].log, f)
    ensures Caused(run[i], f, NewFrame(run[i - 1].peers[n], a.wall, a.op, a.key, a.data, a.sig))
  {
    RunHolds(run, steps, i - 1);
    assert Sound(run[i - 1].truth, n, run[i - 1].peers[n], run[i - 1].seen[n]);
    assert run[i] == AfterWrite(run[i - 1], n, a.wall, a.op, a.key, a.data, a.sig, a.io);
  }

  /** All stamps of a run are distinct. */
  lemma StampsDistinctInRun(run: seq<World>, steps: seq<Step>, i: nat, j: nat, f: Frame, g: Frame)
    requires IsRun(run, steps) && i <= j < |run|
    requires IsTrue(run[i].truth, f) && IsTrue(run[j].truth, g) && f.stamp == g.stamp
    ensures f == g
  {
    RunHolds(run, steps, j);
    RunExtends(run, steps, i, j);
    StillTrue(run[i], run[j], f);
    StampsDistinct(run[j].truth, f, g);
  }

  // ---- reclamation -------------------------------------------------------

  /** The log of `s` still reaches back to the cursors of `t`. */
  ghost predicate Serves(s: State, t: State) {
    forall o: PeerId :: Base(s.log, o) <= Cursor(t.log, o)
  }

  /** No peer has dropped a frame that some peer still needs. */
  ghost predicate NobodyStranded(w: World) {
    forall n, m :: n in w.peers && m in w.peers ==> Serves(w.peers[n], w.peers[m])
  }

  ghost predicate BaseAtMost(t: State, s: State) {
    forall o: PeerId :: Base(t.log, o) <= Base(s.log, o)
  }

  /** If the step is a reclaim of `n`, its list names `m`. */
  predicate Lists(step: Step, n: PeerId, m: PeerId) {
    step.Local? && step.peer == n && step.action.Reclaim? ==> m in step.action.members
  }

  /** Every reclaim of `n` among the first `i` steps lists `m`; a peer need not list itself. */
  predicate AlwaysLists(steps: seq<Step>, i: nat, n: PeerId, m: PeerId) {
    n == m || forall j :: 0 <= j < i && j < |steps| ==> Lists(steps[j], n, m)
  }

  ghost predicate FullLists(w: World, steps: seq<Step>, i: nat) {
    forall n, m :: n in w.peers && m in w.peers ==> AlwaysLists(steps, i, n, m)
  }

  lemma ServesLater(s: State, t: State, s': State, t': State)
    requires Serves(s, t) && Grows(t, t') && BaseAtMost(s', s)
    ensures Serves(s', t')
  {
    forall o: PeerId ensures Base(s'.log, o) <= Cursor(t'.log, o) {
      assert Base(s.log, o) <= Cursor(t.log, o) <= Cursor(t'.log, o);
    }
  }

  lemma RecordKeepsBase(log: Log, f: Frame, o: PeerId)
    ensures Base(Recorded(log, f), o) == Base(log, o)
  {
  }

  /** Only reclamation raises a base. */
  lemma BasesStay(s: State, a: Action, o: PeerId)
    requires !a.Reclaim?
    ensures Base(Act(s, a).log, o) == Base(s.log, o)
  {
    match a {
      case Write(wall, op, key, data, sig, io) => RecordKeepsBase(s.log, NewFrame(s, wall, op, key, data, sig), o);
      case Receive(f, wall, verified, io) => RecordKeepsBase(s.log, f, o);
      case Collect(_) =>
      case Note(_, _) =>
    }
  }

  /** A reclaim leaves `t` served exactly when it was before and no low-water mark passes its cursor. */
  lemma ReclaimServesExactly(s: State, members: seq<PeerId>, order: seq<PeerId>, t: State)
    ensures Serves(Reclaimed(s, members, order), t) <==>
      && Serves(s, t)
      && forall o: PeerId :: o in order && o in s.log.observed ==> LowWater(s, members, o) <= Cursor(t.log, o)
  {
    forall o: PeerId
      ensures Base(CutAll(s, members, order), o) <= Cursor(t.log, o) <==>
        && Base(s.log, o) <= Cursor(t.log, o)
        && (o in order && o in s.log.observed ==> LowWater(s, members, o) <= Cursor(t.log, o))
    {
      ReclaimedAt(s, members, order, o);
    }
  }

  /** Over honest reports that is the case for every listed member, and for the peer itself. */
  lemma ReclaimServes(w: World, n: PeerId, members: seq<PeerId>, order: seq<PeerId>, m: PeerId)
    requires ReportsOk(w) && n in w.peers && w.peers[n].id == n && m in w.peers && (m == n || m in members)
    requires Serves(w.peers[n], w.peers[m])
    ensures Serves(Reclaimed(w.peers[n], members, order), w.peers[m])
  {
    var s := w.peers[n];
    forall o: PeerId ensures LowWater(s, members, o) <= Cursor(w.peers[m].log, o) {
      LowWaterBound(s, members, o);
      if m != n && m in s.reports {
        assert Below(s.reports[m], w.peers[m]);
        assert At(s.reports[m], o) <= Cursor(w.peers[m].log, o);
      }
    }
    ReclaimServesExactly(s, members, order, w.peers[m]);
  }

  lemma WrittenBases(w: World, n: PeerId, wall: nat, op: Op, key: Key, data: seq<byte>, sig: Option<Signature>,
                     io: AppendResult)
    requires n in w.peers && n in w.seen
    ensures BaseAtMost(AfterWrite(w, n, wall, op, key, data, sig, io).peers[n], w.peers[n])
  {
    forall o: PeerId
      ensures Base(AfterWrite(w, n, wall, op, key, data, sig, io).peers[n].log, o) <= Base(w.peers[n].log, o)
    {
      RecordKeepsBase(w.peers[n].log, NewFrame(w.peers[n], wall, op, key, data, sig), o);
    }
  }

  lemma RestartedBases(truth: Truth, s: State, load: seq<Frame>)
    requires PeerOk(truth, s.id, s) && s.disk.Some? && LoadOf(s.disk.value, load)
    ensures BaseAtMost(Reopened(s.id, s.disk.value, load), s)
  {
    DiskIsContiguous(truth, s, s.disk.value);
    ReplayRebuilds(s.id, s.disk.value, load);
  }

  lemma LocalBases(w: World, n: PeerId, a: Action)
    requires Enabled(w, Local(n, a)) && w.seen.Keys == w.peers.Keys && !a.Reclaim?
    ensures BaseAtMost(Next(w, Local(n, a)).peers[n], w.peers[n])
  {
    if a.Write? {
      WrittenBases(w, n, a.wall, a.op, a.key, a.data, a.sig, a.io);
    } else {
      forall o: PeerId ensures Base(Act(w.peers[n], a).log, o) <= Base(w.peers[n].log, o) {
        BasesStay(w.peers[n], a, o);
      }
    }
  }

  lemma RestartBases(w: World, n: PeerId, load: seq<Frame>)
    requires Enabled(w, Restart(n, load)) && w.seen.Keys == w.peers.Keys && PeerOk(w.truth, n, w.peers[n])
    ensures BaseAtMost(Next(w, Restart(n, load)).peers[n], w.peers[n])
  {
    RestartedBases(w.truth, w.peers[n], load);
  }

  lemma OthersUnmoved(w: World, step: Step, n: PeerId)
    requires Enabled(w, step) && w.seen.Keys == w.peers.Keys && n in w.peers
    requires !(step.Local? && step.peer == n) && !(step.Restart? && step.restarted == n)
    ensures n in Next(w, step).peers && Next(w, step).peers[n] == w.peers[n]
  {
  }

  lemma StepBases(w: World, step: Step, n: PeerId)
    requires PeersOk(w) && Enabled(w, step) && n in w.peers && n in Next(w, step).peers
    requires !(step.Local? && step.peer == n && step.action.Reclaim?)
    ensures BaseAtMost(Next(w, step).peers[n], w.peers[n])
  {
    if step.Local? && step.peer == n {
      LocalBases(w, n, step.action);
    } else if step.Restart? && step.restarted == n {
      assert Sound(w.truth, n, w.peers[n], w.seen[n]);
      RestartBases(w, n, step.load);
    } else {
      OthersUnmoved(w, step, n);
    }
  }

  lemma ReclaimCase(w: World, n: PeerId, members: seq<PeerId>, order: seq<PeerId>, m: PeerId)
    requires ReportsOk(w) && n in w.peers && w.peers[n].id == n && w.seen.Keys == w.peers.Keys && m in w.peers
    requires Serves(w.peers[n], w.peers[m]) && (m == n || m in members)
    requires Extends(w, Next(w, Local(n, Reclaim(members, order))))
    ensures var v := Next(w, Local(n, Reclaim(members, order))); Serves(v.peers[n], v.peers[m])
  {
    var v := Next(w, Local(n, Reclaim(members, order)));
    ReclaimServes(w, n, members, order, m);
    ServesLater(v.peers[n], w.peers[m], v.peers[n], v.peers[m]);
  }

  lemma OtherCase(w: World, step: Step, n: PeerId, m: PeerId)
    requires PeersOk(w) && Enabled(w, step) && n in w.peers && m in w.peers && Serves(w.peers[n], w.peers[m])
    requires !(step.Local? && step.peer == n && step.action.Reclaim?) && Extends(w, Next(w, step))
    ensures Serves(Next(w, step).peers[n], Next(w, step).peers[m])
  {
    var v := Next(w, step);
    StepBases(w, step, n);
    ServesLater(w.peers[n], w.peers[m], v.peers[n], v.peers[m]);
  }

  lemma StepServes(w: World, step: Step, n: PeerId, m: PeerId)
    requires Inv(w) && Enabled(w, step) && n in w.peers && m in w.peers && Serves(w.peers[n], w.peers[m])
    requires n == m || Lists(step, n, m)
    requires Extends(w, Next(w, step))
    ensures Serves(Next(w, step).peers[n], Next(w, step).peers[m])
  {
    if step.Local? && step.peer == n && step.action.Reclaim? {
      assert Sound(w.truth, n, w.peers[n], w.seen[n]);
      ReclaimCase(w, n, step.action.members, step.action.order, m);
    } else {
      OtherCase(w, step, n, m);
    }
  }

  lemma NextServes(run: seq<World>, steps: seq<Step>, i: nat, n: PeerId, m: PeerId)
    requires 0 < i < |run| == |steps| + 1 && StepAt(run, steps, i) && Inv(run[i - 1])
    requires n in run[i - 1].peers && m in run[i - 1].peers && Serves(run[i - 1].peers[n], run[i - 1].peers[m])
    requires n == m || Lists(steps[i - 1], n, m)
    ensures n in run[i].peers && m in run[i].peers && Serves(run[i].peers[n], run[i].peers[m])
  {
    StepHolds(run[i - 1], steps[i - 1]);
    StepServes(run[i - 1], steps[i - 1], n, m);
  }

  /** A peer that has always listed another can serve it: it holds every frame after the other's cursors. */
  lemma {:induction false} ListedIsServed(run: seq<World>, steps: seq<Step>, i: nat, n: PeerId, m: PeerId)
    requires IsRun(run, steps) && i < |run| && n in run[0].peers && m in run[0].peers && AlwaysLists(steps, i, n, m)
    ensures n in run[i].peers && m in run[i].peers && Serves(run[i].peers[n], run[i].peers[m])
  {
    if i > 0 {
      ListedIsServed(run, steps, i - 1, n, m);
      RunHolds(run, steps, i - 1);
      NextServes(run, steps, i, n, m);
    }
  }

  /** With full member lists nobody is ever stranded. */
  lemma ReclaimNeverStrands(run: seq<World>, steps: seq<Step>, i: nat)
    requires IsRun(run, steps) && i < |run| && FullLists(run[0], steps, i)
    ensures NobodyStranded(run[i])
  {
    RunExtends(run, steps, 0, i);
    forall n, m | n in run[i].peers && m in run[i].peers ensures Serves(run[i].peers[n], run[i].peers[m]) {
      ListedIsServed(run, steps, i, n, m);
    }
  }

  /** A peer that reclaims its own frames for itself alone does not serve who lacks them. */
  lemma LoneReclaim(s: State, t: State)
    requires s.id in s.log.observed && Cursor(t.log, s.id) < Cursor(s.log, s.id)
    ensures !Serves(Reclaimed(s, [s.id], [s.id]), t)
  {
    assert [s.id][..0] == [] && LowWater(s, [s.id], s.id) == Cursor(s.log, s.id);
    ReclaimServesExactly(s, [s.id], [s.id], t);
  }

  lemma RunOfTwo(w: World, first: Step, v: World, second: Step, u: World)
    requires Start(w) && Enabled(w, first) && v == Next(w, first)
    requires v.seen.Keys == v.peers.Keys && Enabled(v, second) && u == Next(v, second)
    ensures IsRun([w, v, u], [first, second])
  {
    var run, steps := [w, v, u], [first, second];
    forall i: nat | 0 < i < |run| ensures StepAt(run, steps, i) {
      if i == 1 {
        assert run[i - 1] == w && run[i] == v && steps[i - 1] == first;
      } else {
        assert run[i - 1] == v && run[i] == u && steps[i - 1] == second;
      }
    }
  }

  /** Listing is needed: a peer that writes once and then reclaims for itself alone strands the other. */
  lemma UnlistedIsStranded(a: PeerId, b: PeerId) returns (run: seq<World>, steps: seq<Step>)
    requires a != b
    ensures IsRun(run, steps) && |steps| == 2 && steps[1] == Local(a, Reclaim([a], [a]))
    ensures a in run[2].peers && b in run[2].peers && !Serves(run[2].peers[a], run[2].peers[b])
  {
    var w := World(map[a := Fresh(a), b := Fresh(b)], map[], {}, {}, map[a := {}, b := {}], map[]);
    var write := Local(a, Action.Write(1, Insert, Key([], []), [], None, Stored));
    var v := Next(w, write);
    var reclaim := Local(a, Reclaim([a], [a]));
    run, steps := [w, v, Next(v, reclaim)], [write, reclaim];
    RunOfTwo(w, write, v, reclaim, Next(v, reclaim));
    LoneReclaim(v.peers[a], v.peers[b]);
  }

  /** So a delta served to a member always listed starts right after its cursor and has no gap. */
  lemma DeltaHasNoGap(run: seq<World>, steps: seq<Step>, i: nat, n: PeerId, m: PeerId, o: PeerId)
    requires IsRun(run, steps) && i < |run| && n in run[0].peers && m in run[0].peers && AlwaysLists(steps, i, n, m)
    ensures n in run[i].peers && m in run[i].peers
    ensures var mine, theirs := run[i].peers[n].log, run[i].peers[m].log;
      DeltaFor(mine, CursorMap(theirs), o) == Slice(Of(run[i].truth, o), Cursor(theirs, o), Cursor(mine, o))
  {
    RunHolds(run, steps, i);
    ListedIsServed(run, steps, i, n, m);
    assert Sound(run[i].truth, n, run[i].peers[n], run[i].seen[n]);
    CursorMapAt(run[i].peers[m].log, o);
    DeltaStartsAtCursor(run[i].truth, run[i].peers[n].log, CursorMap(run[i].peers[m].log), o);
  }
}
