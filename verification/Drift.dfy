/** Hybrid clocks never run ahead of the fastest wall clock. */
module Drift {
  import opened Bytes
  import opened Clock
  import opened Wire
  import opened ReplLog
  import opened Sync
  import opened Recovery
  import opened Events
  import opened Delivery
  import opened Runs
  import opened RunInvariant
  import opened Convergence

  predicate StampWithin(f: Frame, limit: nat) {
    f.stamp.hlc.physical <= limit
  }

  ghost predicate PeerWithin(s: State, limit: nat) {
    s.clock.physical <= limit && (s.disk.Some? ==> forall f :: f in s.disk.value.Values ==> StampWithin(f, limit))
  }

  /** Every clock, every frame written, sent or stored has a physical part of at most `limit`. */
  ghost predicate Within(w: World, limit: nat) {
    && (forall n :: n in w.peers ==> PeerWithin(w.peers[n], limit))
    && (forall f: Frame :: IsTrue(w.truth, f) ==> StampWithin(f, limit))
    && (forall f :: f in w.net ==> StampWithin(f, limit))
  }

  /** The wall clock readings a step uses. */
  predicate WallWithin(step: Step, limit: nat) {
    match step
    case Local(_, Write(wall, _, _, _, _, _)) => wall <= limit
    case Local(_, Receive(_, at, _, _)) => at <= limit
    case _ => true
  }

  lemma AppendWithin(s: State, t: State, f: Frame, io: AppendResult, limit: nat)
    requires PeerWithin(s, limit) && StampWithin(f, limit) && t.clock.physical <= limit
    requires t.disk == s.disk || t.disk == DiskAfter(s.disk, f, io)
    ensures PeerWithin(t, limit)
  {
  }

  lemma WriteWithin(w: World, n: PeerId, wall: nat, op: Op, key: Key, data: seq<byte>, sig: Option<Signature>,
                    io: AppendResult, limit: nat)
    requires Within(w, limit) && n in w.peers && n in w.seen && wall <= limit
    ensures Within(AfterWrite(w, n, wall, op, key, data, sig, io), limit)
  {
    var v, f := AfterWrite(w, n, wall, op, key, data, sig, io), NewFrame(w.peers[n], wall, op, key, data, sig);
    assert PeerWithin(w.peers[n], limit);
    if LengthError(key, data).None? {
      AppendWithin(w.peers[n], v.peers[n], f, io, limit);
      forall g: Frame | IsTrue(v.truth, g) ensures StampWithin(g, limit) {
        if v.truth != w.truth {
          LongerAddsOne(w.truth, f, g);
        }
      }
    }
  }

  lemma ActWithin(s: State, a: Action, limit: nat)
    requires PeerWithin(s, limit) && !a.Write?
    requires a.Receive? && a.verified ==> StampWithin(a.frame, limit) && a.at <= limit
    ensures PeerWithin(Act(s, a), limit)
  {
    if a.Receive? && a.verified {
      AppendWithin(s, Act(s, a), a.frame, a.store, limit);
    }
  }

  lemma LocalWithin(w: World, n: PeerId, a: Action, limit: nat)
    requires Within(w, limit) && Enabled(w, Local(n, a)) && w.seen.Keys == w.peers.Keys
    requires !a.Write? && WallWithin(Local(n, a), limit)
    ensures Within(Next(w, Local(n, a)), limit)
  {
    ActWithin(w.peers[n], a, limit);
  }

  lemma {:induction false} ReplayWithin(id: PeerId, load: seq<Frame>, limit: nat)
    requires forall f :: f in load ==> StampWithin(f, limit)
    ensures ReplayedAll(Fresh(id), load).clock.physical <= limit
  {
    if load != [] {
      ReplayWithin(id, load[..|load| - 1], limit);
      assert load[|load| - 1] in load;
    }
  }

  lemma RestartWithin(w: World, n: PeerId, load: seq<Frame>, limit: nat)
    requires Within(w, limit) && Enabled(w, Restart(n, load)) && w.seen.Keys == w.peers.Keys
    ensures Within(Next(w, Restart(n, load)), limit)
  {
    var disk, v := w.peers[n].disk.value, Next(w, Restart(n, load));
    assert PeerWithin(w.peers[n], limit);
    forall f | f in load ensures StampWithin(f, limit) {
      assert disk[KeyOf(f)] in disk.Values;
    }
    RestartShape(w, n, load);
    ReplayWithin(n, load, limit);
    forall g: Frame | IsTrue(v.truth, g) ensures StampWithin(g, limit) {
      RecoveredWithin(w, n, disk, g, limit);
    }
  }

  lemma RecoveredWithin(w: World, n: PeerId, disk: Disk, g: Frame, limit: nat)
    requires Within(w, limit) && n in w.peers && w.peers[n].disk == Some(disk) && IsTrue(Recovered(w.truth, n, disk), g)
    ensures StampWithin(g, limit)
  {
    var key := (n, |Of(w.truth, n)| + 1);
    assert PeerWithin(w.peers[n], limit);
    if key in disk {
      assert disk[key] in disk.Values;
      LongerAddsOne(w.truth, disk[key], g);
    }
  }

  lemma SendWithin(w: World, n: PeerId, their: Cursors, order: seq<PeerId>, limit: nat)
    requires Inv(w) && Within(w, limit) && n in w.peers
    ensures Within(Next(w, Send(n, their, order)), limit)
  {
    assert Sound(w.truth, n, w.peers[n], w.seen[n]);
    forall f | f in DeltaIn(w.peers[n].log, their, order) ensures StampWithin(f, limit) {
      DeltaIsTrue(w.truth, w.peers[n].log, their, order, f);
    }
  }

  lemma StepWithin(w: World, step: Step, limit: nat)
    requires Inv(w) && Within(w, limit) && Enabled(w, step) && WallWithin(step, limit)
    ensures Within(Next(w, step), limit)
  {
    match step {
      case Local(n, Write(wall, op, key, data, sig, io)) => WriteWithin(w, n, wall, op, key, data, sig, io, limit);
      case Local(n, a) => LocalWithin(w, n, a, limit);
      case Send(n, their, order) => SendWithin(w, n, their, order, limit);
      case Greet(n) =>
      case Restart(n, load) => RestartWithin(w, n, load, limit);
    }
  }

  ghost predicate WallsWithin(steps: seq<Step>, limit: nat) {
    forall i :: 0 <= i < |steps| ==> WallWithin(steps[i], limit)
  }

  lemma NextWithin(run: seq<World>, steps: seq<Step>, limit: nat, i: nat)
    requires 0 < i < |run| == |steps| + 1 && StepAt(run, steps, i) && WallWithin(steps[i - 1], limit)
    requires Inv(run[i - 1]) && Within(run[i - 1], limit)
    ensures Within(run[i], limit)
  {
    StepWithin(run[i - 1], steps[i - 1], limit);
  }

  lemma StartWithin(w: World, limit: nat)
    requires Start(w)
    ensures Within(w, limit)
  {
  }

  /** If no peer's wall clock ever read more than `limit`, no hybrid clock and no stamp of the run does. */
  lemma {:induction false} NoClockRunsAhead(run: seq<World>, steps: seq<Step>, limit: nat, i: nat)
    requires IsRun(run, steps) && WallsWithin(steps, limit) && i < |run|
    ensures Within(run[i], limit)
  {
    if i == 0 {
      StartWithin(run[0], limit);
    } else {
      NoClockRunsAhead(run, steps, limit, i - 1);
      RunHolds(run, steps, i - 1);
      assert StepAt(run, steps, i) && WallWithin(steps[i - 1], limit);
      NextWithin(run, steps, limit, i);
    }
  }
}
