/** What a refused local write leaves behind, and when a restart brings it back. */
module Refusal {
  import opened Bytes
  import opened Clock
  import opened Wire
  import opened Lww
  import opened ReplLog
  import opened Sync
  import opened Recovery
  import opened Events
  import opened Delivery
  import opened Runs
  import opened RunInvariant
  import opened Convergence

  /** A tick always changes the clock, even when its counter wraps. */
  lemma TickMoves(prev: Hlc, wall: nat)
    ensures Ticked(prev, wall) != prev
  {
  }

  /**
   * A refused write never touches log, cells, events or reports; it changes nothing at all exactly when the
   * length check refused it. After a failed append the clock has ticked.
   */
  lemma RefusedExactly(
      s: State, wall: nat, op: Op, key: Key, data: seq<byte>, sig: Option<Signature>, io: AppendResult)
    requires Written(s, wall, op, key, data, sig, io).1.Err?
    ensures var (t, result) := Written(s, wall, op, key, data, sig, io);
      && t.id == s.id && t.log == s.log && t.cells == s.cells && t.events == s.events && t.reports == s.reports
      && (t == s <==> LengthError(key, data).Some?)
      && (result.error.Persist? <==> LengthError(key, data).None?)
      && (result.error.Persist? ==> t.clock == Ticked(s.clock, wall) && t.clock != s.clock)
  {
    TickMoves(s.clock, wall);
  }

  /** A fresh peer whose persister fails: the write is refused and the clock has moved. */
  lemma FailingPersisterTicks(id: PeerId)
    ensures var s := Fresh(id).(disk := Some(map[]));
      && Written(s, 1, Insert, Key([], []), [], None, Lost) == (s.(clock := Hlc(1, 0)), Err(Persist))
      && s.(clock := Hlc(1, 0)) != s
  {
  }

  predicate OnDisk(disk: Disk, f: Frame) {
    KeyOf(f) in disk && disk[KeyOf(f)] == f
  }

  /** The refused frame reaches the disk exactly when the append was torn. */
  lemma TornExactly(
      s: State, wall: nat, op: Op, key: Key, data: seq<byte>, sig: Option<Signature>, io: AppendResult)
    requires s.disk.Some? && Written(s, wall, op, key, data, sig, io).1 == Err(Persist)
    requires !OnDisk(s.disk.value, NewFrame(s, wall, op, key, data, sig))
    ensures var t := Written(s, wall, op, key, data, sig, io).0;
      t.disk.Some? && (OnDisk(t.disk.value, NewFrame(s, wall, op, key, data, sig)) <==> io == Torn)
  {
  }

  // ---- the clock and the disk over whole runs ----------------------------

  /** Nothing on disk is above the clock. */
  ghost predicate StoredBehind(s: State) {
    s.disk.Some? ==> forall f :: f in s.disk.value.Values ==> HlcAtMost(f.stamp.hlc, s.clock)
  }

  ghost predicate AllBehind(w: World) {
    forall n :: n in w.peers ==> StoredBehind(w.peers[n])
  }

  lemma AppendBehind(s: State, t: State, f: Frame, io: AppendResult)
    requires StoredBehind(s) && HlcAtMost(s.clock, t.clock) && HlcAtMost(f.stamp.hlc, t.clock)
    requires t.disk == s.disk || t.disk == DiskAfter(s.disk, f, io)
    ensures StoredBehind(t)
  {
  }

  lemma ActBehind(s: State, a: Action)
    requires StoredBehind(s) && HasRoom(s, a)
    ensures StoredBehind(Act(s, a))
  {
    match a {
      case Write(wall, op, key, data, sig, io) =>
        TickAdvances(s.clock, wall);
        if LengthError(key, data).None? {
          AppendBehind(s, Act(s, a), NewFrame(s, wall, op, key, data, sig), io);
        }
      case Receive(f, wall, verified, io) =>
        if verified {
          ObserveAdvances(s.clock, f.stamp.hlc, wall);
          AppendBehind(s, Act(s, a), f, io);
        }
      case Collect(_) =>
      case Reclaim(_, _) =>
      case Note(_, _) =>
    }
  }

  lemma ReopenedBehind(n: PeerId, disk: Disk, load: seq<Frame>)
    requires LoadOf(disk, load) && ReplayFits(n, load)
    ensures StoredBehind(Reopened(n, disk, load))
  {
    ReplayAdvancesClock(n, load);
  }

  /** A local action changes its peer as `Act` says. */
  lemma LocalActs(w: World, n: PeerId, a: Action)
    requires Enabled(w, Local(n, a)) && w.seen.Keys == w.peers.Keys
    ensures Next(w, Local(n, a)).peers[n] == Act(w.peers[n], a)
  {
  }

  lemma StepBehind(w: World, step: Step, n: PeerId)
    requires PeersOk(w) && AllBehind(w) && Enabled(w, step) && n in w.peers && n in Next(w, step).peers
    ensures StoredBehind(Next(w, step).peers[n])
  {
    if step.Local? && step.peer == n {
      LocalActs(w, n, step.action);
      ActBehind(w.peers[n], step.action);
    } else if step.Restart? && step.restarted == n {
      RestartShape(w, n, step.load);
      ReopenedBehind(n, w.peers[n].disk.value, step.load);
    } else {
      OthersUnmoved(w, step, n);
    }
  }

  lemma NextBehind(w: World, step: Step, v: World)
    requires Inv(w) && AllBehind(w) && Enabled(w, step) && v == Next(w, step)
    ensures AllBehind(v)
  {
    StepHolds(w, step);
    forall n | n in v.peers ensures StoredBehind(v.peers[n]) {
      StepBehind(w, step, n);
    }
  }

  lemma StepTaken(run: seq<World>, steps: seq<Step>, i: nat)
    requires IsRun(run, steps) && 0 < i < |run|
    ensures run[i - 1].seen.Keys == run[i - 1].peers.Keys
    ensures Enabled(run[i - 1], steps[i - 1]) && run[i] == Next(run[i - 1], steps[i - 1])
  {
    assert StepAt(run, steps, i);
  }

  lemma {:induction false} RunBehind(run: seq<World>, steps: seq<Step>, i: nat)
    requires IsRun(run, steps) && i < |run|
    ensures AllBehind(run[i])
  {
    if i > 0 {
      RunBehind(run, steps, i - 1);
      RunHolds(run, steps, i - 1);
      StepTaken(run, steps, i);
      NextBehind(run[i - 1], steps[i - 1], run[i]);
    }
  }

  // ---- a refused write and the next restart ------------------------------

  /** A freshly built frame is above everything on disk, so it is not there yet. */
  lemma FreshIsNotStored(s: State, wall: nat, f: Frame)
    requires StoredBehind(s) && s.disk.Some? && !TickOverflows(s.clock, wall) && f.stamp.hlc == Ticked(s.clock, wall)
    ensures forall g :: g in s.disk.value.Values ==> HlcLess(g.stamp.hlc, f.stamp.hlc)
    ensures f !in s.disk.value.Values
  {
    TickAdvances(s.clock, wall);
    forall g | g in s.disk.value.Values ensures HlcLess(g.stamp.hlc, f.stamp.hlc) {
      assert HlcAtMost(g.stamp.hlc, s.clock);
    }
  }

  lemma HeldThenStored(n: PeerId, disk: Disk, load: seq<Frame>, f: Frame, o: PeerId)
    requires Contiguous(disk) && LoadOf(disk, load) && f in Held(Reopened(n, disk, load).log, o)
    ensures f in disk.Values && f.stamp.peer == o
  {
    ReplayRebuilds(n, disk, load);
    var held := Held(Reopened(n, disk, load).log, o);
    var j :| 0 <= j < |held| && held[j] == f;
    assert (o, j + 1) in disk && disk[(o, j + 1)] == f;
  }

  lemma StoredThenHeld(n: PeerId, disk: Disk, load: seq<Frame>, f: Frame)
    requires Contiguous(disk) && LoadOf(disk, load) && f in disk.Values
    ensures f in Held(Reopened(n, disk, load).log, f.stamp.peer)
  {
    ReplayRebuilds(n, disk, load);
    var k :| k in disk && disk[k] == f;
    assert KeyOf(disk[k]) == k;
    assert Held(Reopened(n, disk, load).log, k.0)[k.1 - 1] == f;
  }

  /** After a replay, what is held is what is on disk. */
  lemma HeldIsStored(n: PeerId, disk: Disk, load: seq<Frame>, f: Frame, o: PeerId)
    requires Contiguous(disk) && LoadOf(disk, load)
    ensures f in Held(Reopened(n, disk, load).log, o) <==> f in disk.Values && f.stamp.peer == o
  {
    if f in Held(Reopened(n, disk, load).log, o) {
      HeldThenStored(n, disk, load, f, o);
    }
    if f in disk.Values && f.stamp.peer == o {
      StoredThenHeld(n, disk, load, f);
    }
  }

  /** A frame above everything else on disk wins its record in the replay. */
  lemma NewestOnDiskIsShown(truth: Truth, n: PeerId, disk: Disk, load: seq<Frame>, f: Frame)
    requires TruthOk(truth) && Faithful(truth, Reopened(n, disk, load)) && Contiguous(disk) && LoadOf(disk, load)
    requires f in disk.Values && forall g :: g in disk.Values && g != f ==> HlcLess(g.stamp.hlc, f.stamp.hlc)
    ensures Visible(Reopened(n, disk, load).cells, f.key) ==
      if f.op == Delete then None else Some((f.data, f.stamp.peer))
  {
    var t := Reopened(n, disk, load);
    ReplayRebuilds(n, disk, load);
    HeldIsStored(n, disk, load, f, f.stamp.peer);
    GotIsHeld(truth, t.log, f);
    assert CellOk(truth, t.log, f.key, CellAt(t.cells, f.key));
    var w :| IsWinner(truth, t.log, f.key, w) && Reflects(CellAt(t.cells, f.key), w);
    assert StampAtMost(f.stamp, w.stamp);
    GotIsHeld(truth, t.log, w);
    HeldIsStored(n, disk, load, w, w.stamp.peer);
    StampTotal(f.stamp, w.stamp);
    assert w == f;
  }

  /** With nothing reclaimed, delivered means held. */
  lemma GotIsHeld(truth: Truth, log: Log, f: Frame)
    requires TruthOk(truth) && LogOk(truth, log) && log.base == map[]
    ensures Got(truth, log, f) <==> f in Held(log, f.stamp.peer)
  {
    assert HoldsSlice(truth, log, f.stamp.peer);
    if f in Held(log, f.stamp.peer) {
      HeldIsTrue(truth, log, f.stamp.peer, f);
      var j :| 0 <= j < |Held(log, f.stamp.peer)| && Held(log, f.stamp.peer)[j] == f;
    }
  }

  /** Own frames on disk go at most one past the log. */
  lemma OwnDiskBound(truth: Truth, s: State, disk: Disk, k: nat)
    requires PeerOk(truth, s.id, s) && s.disk == Some(disk) && (s.id, k) in disk
    ensures k <= Cursor(s.log, s.id) + 1
  {
    assert Entry(truth, s, disk[(s.id, k)]);
  }

  /**
   * A write refused for a failed append, then a restart: the write is back, under the number the refusal was
   * said not to take and visible to all readers, exactly when the append was torn.
   */
  lemma RefusedWriteReturnsExactlyWhenTorn(run: seq<World>, steps: seq<Step>, i: nat, n: PeerId, a: Action,
                                           load: seq<Frame>)
    requires IsRun(run, steps) && 0 < i && i + 1 < |run| && n in run[i - 1].peers && run[i - 1].peers[n].disk.Some?
    requires steps[i - 1] == Local(n, a) && a.Write? && LengthError(a.key, a.data).None? && a.io != Stored
    requires steps[i] == Restart(n, load)
    ensures ReturnsExactly(run[i - 1], run[i + 1], n, a)
  {
    StepTaken(run, steps, i);
    StepTaken(run, steps, i + 1);
    RestartKnown(run, steps, i, n, a, load);
  }

  lemma RestartKnown(run: seq<World>, steps: seq<Step>, i: nat, n: PeerId, a: Action, load: seq<Frame>)
    requires IsRun(run, steps) && 0 < i && i + 1 < |run|
    requires Enabled(run[i - 1], Local(n, a)) && run[i - 1].seen.Keys == run[i - 1].peers.Keys
    requires run[i] == Next(run[i - 1], Local(n, a)) && Enabled(run[i], Restart(n, load))
    requires run[i].seen.Keys == run[i].peers.Keys && run[i + 1] == Next(run[i], Restart(n, load))
    requires a.Write? && LengthError(a.key, a.data).None? && a.io != Stored && run[i - 1].peers[n].disk.Some?
    ensures ReturnsExactly(run[i - 1], run[i + 1], n, a)
  {
    FactsHold(run, steps, i - 1, n);
    FactsHold(run, steps, i, n);
    FactsHold(run, steps, i + 1, n);
    RefusedThenRestarted(run[i - 1], run[i], run[i + 1], n, a, load);
  }

  /** What `n` refused at `w` is at `u` part of its log, and shown, exactly when the append was torn. */
  ghost predicate ReturnsExactly(w: World, u: World, n: PeerId, a: Action)
    requires n in w.peers && a.Write?
  {
    var s := w.peers[n];
    var f := NewFrame(s, a.wall, a.op, a.key, a.data, a.sig);
    && Written(s, a.wall, a.op, a.key, a.data, a.sig, a.io).1 == Err(Persist)
    && n in u.peers && (f in Held(u.peers[n].log, n) <==> a.io == Torn)
    && (a.io == Torn ==>
          && IsTrue(u.truth, f) && Cursor(u.peers[n].log, n) == f.seqno
          && Visible(u.peers[n].cells, a.key) == if a.op == Delete then None else Some((a.data, n)))
  }

  ghost predicate PeerFacts(w: World, n: PeerId) {
    && n in w.peers && w.seen.Keys == w.peers.Keys && TruthOk(w.truth)
    && PeerOk(w.truth, n, w.peers[n]) && StoredBehind(w.peers[n])
  }

  lemma FactsHold(run: seq<World>, steps: seq<Step>, i: nat, n: PeerId)
    requires IsRun(run, steps) && i < |run| && n in run[i].peers
    ensures PeerFacts(run[i], n)
  {
    RunHolds(run, steps, i);
    RunBehind(run, steps, i);
    assert Sound(run[i].truth, n, run[i].peers[n], run[i].seen[n]);
  }

  lemma RefusedThenRestarted(w: World, v: World, u: World, n: PeerId, a: Action, load: seq<Frame>)
    requires PeerFacts(w, n) && PeerFacts(v, n) && PeerFacts(u, n)
    requires Enabled(w, Local(n, a)) && v == Next(w, Local(n, a))
    requires Enabled(v, Restart(n, load)) && u == Next(v, Restart(n, load))
    requires a.Write? && LengthError(a.key, a.data).None? && a.io != Stored && w.peers[n].disk.Some?
    ensures ReturnsExactly(w, u, n, a)
  {
    LocalActs(w, n, a);
    RestartShape(v, n, load);
    DiskIsContiguous(v.truth, v.peers[n], v.peers[n].disk.value);
    RefusedAct(w.peers[n], a);
    RefusedThenReplayed(w.peers[n], v.peers[n], v.truth, u.truth, a, load);
  }

  /** A torn frame, newest on its own disk and one past the log, is the last of its origin after a replay. */
  lemma TornReplayed(t: State, truth: Truth, later: Truth, disk: Disk, load: seq<Frame>, f: Frame)
    requires PeerOk(truth, t.id, t) && t.disk == Some(disk) && Contiguous(disk) && LoadOf(disk, load)
    requires KeyOf(f) in disk && disk[KeyOf(f)] == f && f.stamp.peer == t.id && f.seqno == Cursor(t.log, t.id) + 1
    requires forall g :: g in disk.Values && g != f ==> HlcLess(g.stamp.hlc, f.stamp.hlc)
    requires TruthOk(later) && Faithful(later, Reopened(t.id, disk, load))
    ensures var u := Reopened(t.id, disk, load);
      && IsTrue(later, f) && Cursor(u.log, t.id) == f.seqno
      && Visible(u.cells, f.key) == if f.op == Delete then None else Some((f.data, t.id))
  {
    var u := Reopened(t.id, disk, load);
    NewestOnDiskIsShown(later, t.id, disk, load, f);
    ReplayRebuilds(t.id, disk, load);
    HeldIsStored(t.id, disk, load, f, t.id);
    GotIsHeld(later, u.log, f);
    assert (t.id, Cursor(u.log, t.id)) in disk;
    OwnDiskBound(truth, t, disk, Cursor(u.log, t.id));
  }

  /** The state a refused append leaves behind. */
  ghost predicate Refused(s: State, t: State, a: Action)
    requires a.Write?
  {
    var f := NewFrame(s, a.wall, a.op, a.key, a.data, a.sig);
    && s.disk.Some? && t.id == s.id && t.log == s.log
    && t.disk == Some(if a.io == Torn then s.disk.value[KeyOf(f) := f] else s.disk.value)
  }

  lemma RefusedAct(s: State, a: Action)
    requires a.Write? && LengthError(a.key, a.data).None? && a.io != Stored && s.disk.Some?
    ensures Refused(s, Act(s, a), a)
  {
  }

  lemma RefusedThenReplayed(s: State, t: State, truth: Truth, later: Truth, a: Action, load: seq<Frame>)
    requires a.Write? && a.io != Stored && Refused(s, t, a) && StoredBehind(s) && !TickOverflows(s.clock, a.wall)
    requires PeerOk(truth, s.id, t) && Contiguous(t.disk.value) && LoadOf(t.disk.value, load)
    requires TruthOk(later) && Faithful(later, Reopened(s.id, t.disk.value, load))
    ensures var f := NewFrame(s, a.wall, a.op, a.key, a.data, a.sig);
      var u := Reopened(s.id, t.disk.value, load);
      && (f in Held(u.log, s.id) <==> a.io == Torn)
      && (a.io == Torn ==>
            && IsTrue(later, f) && Cursor(u.log, s.id) == f.seqno
            && Visible(u.cells, a.key) == if a.op == Delete then None else Some((a.data, s.id)))
  {
    var f, disk := NewFrame(s, a.wall, a.op, a.key, a.data, a.sig), t.disk.value;
    FreshIsNotStored(s, a.wall, f);
    HeldIsStored(s.id, disk, load, f, s.id);
    if a.io == Torn {
      assert KeyOf(f) in disk && disk[KeyOf(f)] == f;
      TornReplayed(t, truth, later, disk, load, f);
    }
  }
}
