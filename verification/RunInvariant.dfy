/** Every step of a run keeps the invariant. */
module RunInvariant {
  import opened Bytes
  import opened Clock
  import opened Wire
  import opened Lww
  import opened ReplLog
  import opened Sync
  import opened Recovery
  import opened Events
  import opened Delivery
  import opened Runs

  lemma StartHolds(w: World)
    requires Start(w)
    ensures Inv(w)
  {
    forall n | n in w.peers ensures Sound(w.truth, n, w.peers[n], w.seen[n]) {
      FreshPeerOk(w.truth, n, w.peers[n]);
    }
  }

  lemma FreshPeerOk(truth: Truth, n: PeerId, s: State)
    requires truth == map[] && (s == Fresh(n) || s == Fresh(n).(disk := Some(map[])))
    ensures PeerOk(truth, n, s) && SeenOk(truth, s, {})
  {
    FreshIsFaithful(truth, n);
    assert s.log == Fresh(n).log && s.cells == Fresh(n).cells;
  }

  // ---- disks -------------------------------------------------------------

  /** The clock may advance, and an entry that is true or in limbo may be stored, without harm. */
  lemma DiskGains(truth: Truth, s: State, t: State, disk: Disk, f: Frame)
    requires DiskOk(truth, s, disk) && t.id == s.id && t.log == s.log && HlcAtMost(s.clock, t.clock)
    requires Entry(truth, t, f)
    ensures DiskOk(truth, t, disk[KeyOf(f) := f])
  {
    forall k | k in disk ensures Entry(truth, t, disk[k]) {
      assert Entry(truth, s, disk[k]);
    }
  }

  lemma DiskKeeps(truth: Truth, s: State, t: State, disk: Disk)
    requires DiskOk(truth, s, disk) && t.id == s.id && t.log == s.log && HlcAtMost(s.clock, t.clock)
    ensures DiskOk(truth, t, disk)
  {
    forall k | k in disk ensures Entry(truth, t, disk[k]) {
      assert Entry(truth, s, disk[k]);
    }
  }

  /** Recording the next frame of an origin, already on disk. */
  lemma DiskDelivers(truth: Truth, s: State, t: State, disk: Disk, f: Frame)
    requires DiskOk(truth, s, disk) && t.id == s.id && HlcAtMost(s.clock, t.clock)
    requires OneMore(s.log, t.log, f) && IsTrue(truth, f) && KeyOf(f) in disk
    requires f.stamp.peer == s.id ==> disk[KeyOf(f)] == f
    ensures DiskOk(truth, t, disk)
  {
    forall k | k in disk ensures Entry(truth, t, disk[k]) {
      assert Entry(truth, s, disk[k]) && KeyOf(disk[k]) == k;
      CursorOneMore(s.log, t.log, f, k.0);
      CursorOneMore(s.log, t.log, f, s.id);
    }
    forall o: PeerId, k: nat | 1 <= k <= Cursor(t.log, o) ensures (o, k) in disk {
      CursorOneMore(s.log, t.log, f, o);
    }
  }

  /** A longer truth, written by somebody else or about to be recorded by its author. */
  lemma DiskUnderLonger(truth: Truth, s: State, disk: Disk, f: Frame)
    requires DiskOk(truth, s, disk) && f.seqno == |Of(truth, f.stamp.peer)| + 1
    requires f.stamp.peer != s.id
    ensures DiskOk(Longer(truth, f), s, disk)
  {
    forall k | k in disk ensures Entry(Longer(truth, f), s, disk[k]) {
      assert Entry(truth, s, disk[k]);
    }
  }

  // ---- writing -----------------------------------------------------------

  /** A new frame takes the next sequence number and a reading above all its author has observed. */
  lemma NewFrameIsNext(truth: Truth, s: State, seen: set<Frame>, wall: nat, f: Frame)
    requires TruthOk(truth) && PeerOk(truth, s.id, s) && SeenOk(truth, s, seen) && !TickOverflows(s.clock, wall)
    requires f.stamp == Stamp(Ticked(s.clock, wall), s.id) && f.seqno == Cursor(s.log, s.id) + 1
    ensures f.seqno == |Of(truth, s.id)| + 1
    ensures forall g :: g in seen ==> HlcLess(g.stamp.hlc, f.stamp.hlc)
    ensures forall g :: g in Of(truth, s.id) ==> HlcLess(g.stamp.hlc, f.stamp.hlc)
  {
    TickAdvances(s.clock, wall);
    forall g | g in Of(truth, s.id) ensures g in seen {
      var i :| 0 <= i < |Of(truth, s.id)| && Of(truth, s.id)[i] == g;
      assert KeyOf(g) == (s.id, i + 1);
      assert Got(truth, s.log, g);
    }
  }

  /** A write that fails leaves the author as it was, with a later clock and perhaps a frame in limbo. */
  lemma FailedWriteKeeps(truth: Truth, s: State, seen: set<Frame>, wall: nat, f: Frame, io: AppendResult)
    requires TruthOk(truth) && PeerOk(truth, s.id, s) && SeenOk(truth, s, seen) && !TickOverflows(s.clock, wall)
    requires f.stamp == Stamp(Ticked(s.clock, wall), s.id) && f.seqno == Cursor(s.log, s.id) + 1
    ensures var t := s.(clock := Ticked(s.clock, wall), disk := DiskAfter(s.disk, f, io));
      PeerOk(truth, s.id, t) && SeenOk(truth, t, seen)
  {
    var t := s.(clock := Ticked(s.clock, wall), disk := DiskAfter(s.disk, f, io));
    NewFrameIsNext(truth, s, seen, wall, f);
    TickAdvances(s.clock, wall);
    if s.disk.Some? {
      assert Limbo(truth, t, f);
      DiskGains(truth, s, t, s.disk.value, f);
      DiskKeeps(truth, s, t, s.disk.value);
    }
  }

  /** The author's disk once the frame is both stored and true. */
  lemma WrittenDisk(truth: Truth, s: State, t: State, disk: Disk, f: Frame)
    requires DiskOk(truth, s, disk) && t.id == s.id && OneMore(s.log, t.log, f)
    requires f.stamp.peer == s.id && f.seqno == |Of(truth, s.id)| + 1 && HlcAtMost(s.clock, t.clock)
    ensures DiskOk(Longer(truth, f), t, disk[KeyOf(f) := f])
  {
    var next, truth' := disk[KeyOf(f) := f], Longer(truth, f);
    forall k | k in next ensures KeyOf(next[k]) == k && Entry(truth', t, next[k]) {
      CursorOneMore(s.log, t.log, f, k.0);
      if k != KeyOf(f) {
        assert Entry(truth, s, disk[k]);
      }
    }
    forall o: PeerId, k: nat | 1 <= k <= Cursor(t.log, o) ensures (o, k) in next {
      CursorOneMore(s.log, t.log, f, o);
    }
  }

  /** A write that succeeds extends the truth and its author together. */
  lemma WriteKeepsAuthor(truth: Truth, s: State, seen: set<Frame>, wall: nat, f: Frame, t: State)
    requires TruthOk(truth) && PeerOk(truth, s.id, s) && SeenOk(truth, s, seen) && !TickOverflows(s.clock, wall)
    requires f.stamp == Stamp(Ticked(s.clock, wall), s.id) && f.seqno == Cursor(s.log, s.id) + 1
    requires t.id == s.id && t.clock == Ticked(s.clock, wall) && t.log == Recorded(s.log, f)
    requires t.cells == Merged(s.cells, Stamped(f))
    requires t.disk == if s.disk.None? then None else Some(s.disk.value[KeyOf(f) := f])
    ensures TruthOk(Longer(truth, f)) && PeerOk(Longer(truth, f), s.id, t)
    ensures SeenOk(Longer(truth, f), t, seen + {f})
  {
    var truth' := Longer(truth, f);
    NewFrameIsNext(truth, s, seen, wall, f);
    TickAdvances(s.clock, wall);
    LongerKeepsTruth(truth, f);
    LongerProlongs(truth, f);
    FaithfulLater(truth, Longer(truth, f), s);
    DeliverKeepsFaith(truth', s, t, f);
    CursorOneMore(s.log, t.log, f, s.id);
    if s.disk.Some? {
      WrittenDisk(truth, s, t, s.disk.value, f);
    }
    forall g: Frame | Got(truth', t.log, g) ensures g in seen + {f} {
      GotOneMore(truth', s.log, t.log, f, g);
      SameDeliveryLater(truth, Longer(truth, f), s.log, g);
    }
  }

  /** Nobody else notices a write until it is delivered. */
  lemma WriteKeepsOthers(truth: Truth, n: PeerId, s: State, seen: set<Frame>, f: Frame)
    requires PeerOk(truth, n, s) && SeenOk(truth, s, seen)
    requires f.seqno == |Of(truth, f.stamp.peer)| + 1 && f.stamp.peer != n
    ensures PeerOk(Longer(truth, f), n, s) && SeenOk(Longer(truth, f), s, seen)
  {
    LongerProlongs(truth, f);
    FaithfulLater(truth, Longer(truth, f), s);
    if s.disk.Some? {
      DiskUnderLonger(truth, s, s.disk.value, f);
    }
    forall g: Frame | Got(Longer(truth, f), s.log, g) ensures g in seen {
      SameDeliveryLater(truth, Longer(truth, f), s.log, g);
    }
  }

  // ---- receiving ---------------------------------------------------------

  /** Only the clock moves, and perhaps the disk gains the next frame of an origin. */
  lemma ObserveKeeps(truth: Truth, s: State, seen: set<Frame>, f: Frame, t: State)
    requires PeerOk(truth, s.id, s) && SeenOk(truth, s, seen) && IsTrue(truth, f)
    requires HlcLess(s.clock, t.clock) && HlcLess(f.stamp.hlc, t.clock)
    requires t.id == s.id && t.log == s.log && t.cells == s.cells
    requires t.disk == s.disk ||
      (s.disk.Some? && t.disk == Some(s.disk.value[KeyOf(f) := f]) && Classify(s.log, f) == Appended)
    ensures PeerOk(truth, s.id, t) && SeenOk(truth, t, seen + {f})
  {
    if s.disk.Some? {
      DiskKeeps(truth, s, t, s.disk.value);
      if t.disk != s.disk {
        DiskGains(truth, s, t, s.disk.value, f);
      }
    }
  }

  /** A true frame that is next in order is recorded, merged and stored. */
  lemma AppendKeeps(truth: Truth, s: State, seen: set<Frame>, f: Frame, t: State)
    requires TruthOk(truth) && PeerOk(truth, s.id, s) && SeenOk(truth, s, seen) && IsTrue(truth, f)
    requires HlcLess(s.clock, t.clock) && HlcLess(f.stamp.hlc, t.clock) && OneMore(s.log, t.log, f)
    requires t.id == s.id && t.cells == Merged(s.cells, Stamped(f))
    requires t.disk == if s.disk.None? then None else Some(s.disk.value[KeyOf(f) := f])
    ensures PeerOk(truth, s.id, t) && SeenOk(truth, t, seen + {f})
  {
    DeliverKeepsFaith(truth, s, t, f);
    assert f.stamp.peer != s.id;
    CursorOneMore(s.log, t.log, f, s.id);
    if s.disk.Some? {
      var u := s.(clock := t.clock);
      DiskGains(truth, s, u, s.disk.value, f);
      DiskDelivers(truth, u, t, t.disk.value, f);
    }
    forall g: Frame | Got(truth, t.log, g) ensures g in seen + {f} {
      GotOneMore(truth, s.log, t.log, f, g);
    }
  }

  lemma ReceiveKeeps(truth: Truth, s: State, seen: set<Frame>, f: Frame, wall: nat, io: AppendResult)
    requires TruthOk(truth) && PeerOk(truth, s.id, s) && SeenOk(truth, s, seen) && IsTrue(truth, f)
    requires !ObserveOverflows(s.clock, f.stamp.hlc, wall)
    ensures var t := Received(s, f, wall, true, io).0;
      PeerOk(truth, s.id, t) && SeenOk(truth, t, seen + {f}) && t.reports == s.reports
  {
    var t := Received(s, f, wall, true, io).0;
    ObserveAdvances(s.clock, f.stamp.hlc, wall);
    if Classify(s.log, f) == Appended && Persists(s.disk, io) {
      AppendKeeps(truth, s, seen, f, t);
    } else {
      ObserveKeeps(truth, s, seen, f, t);
    }
  }

  // ---- restarting --------------------------------------------------------

  lemma DiskIsContiguous(truth: Truth, s: State, disk: Disk)
    requires DiskOk(truth, s, disk)
    ensures Contiguous(disk)
  {
    forall k | k in disk ensures KeyOf(disk[k]) == k && k.1 >= 1 && (k.1 > 1 ==> (k.0, k.1 - 1) in disk) {
      assert Entry(truth, s, disk[k]);
    }
  }

  lemma LimboOnDisk(truth: Truth, s: State, disk: Disk)
    requires PeerOk(truth, s.id, s) && s.disk == Some(disk)
    ensures var key := (s.id, |Of(truth, s.id)| + 1);
      key in disk ==> KeyOf(disk[key]) == key && Limbo(truth, s, disk[key])
  {
    var key := (s.id, |Of(truth, s.id)| + 1);
    if key in disk {
      assert Entry(truth, s, disk[key]);
    }
  }

  /** The frame in limbo, if any, joins the truth. */
  lemma RecoveredTruth(truth: Truth, s: State, disk: Disk)
    requires TruthOk(truth) && PeerOk(truth, s.id, s) && s.disk == Some(disk)
    ensures var truth' := Recovered(truth, s.id, disk);
      TruthOk(truth') && forall g: Frame :: IsTrue(truth, g) ==> IsTrue(truth', g)
  {
    LimboOnDisk(truth, s, disk);
    var key := (s.id, |Of(truth, s.id)| + 1);
    if key in disk {
      LongerKeepsTruth(truth, disk[key]);
    }
  }

  /** Then everything on disk is true. */
  lemma RecoveredEntry(truth: Truth, s: State, disk: Disk, k: (PeerId, nat))
    requires TruthOk(truth) && PeerOk(truth, s.id, s) && s.disk == Some(disk) && k in disk
    ensures IsTrue(Recovered(truth, s.id, disk), disk[k])
  {
    RecoveredTruth(truth, s, disk);
    assert KeyOf(disk[k]) == k && Entry(truth, s, disk[k]);
    if !IsTrue(truth, disk[k]) {
      LimboOnDisk(truth, s, disk);
      LongerKeepsTruth(truth, disk[k]);
    }
  }

  lemma FreshIsFaithful(truth: Truth, id: PeerId)
    ensures Faithful(truth, Fresh(id))
  {
    var s := Fresh(id);
    forall key ensures CellOk(truth, s.log, key, CellAt(s.cells, key)) {
    }
  }

  lemma ReplayStepIsFaithful(truth: Truth, s: State, f: Frame)
    requires TruthOk(truth) && Faithful(truth, s) && IsTrue(truth, f) && f.seqno == Cursor(s.log, f.stamp.peer) + 1
    ensures Faithful(truth, Replayed(s, f))
  {
    DeliverKeepsFaith(truth, s, Replayed(s, f), f);
  }

  lemma NextReplayed(id: PeerId, disk: Disk, load: seq<Frame>, i: nat)
    requires Contiguous(disk) && LoadOf(disk, load) && i < |load|
    ensures load[i].seqno == Cursor(ReplayedAll(Fresh(id), load[..i]).log, load[i].stamp.peer) + 1
  {
    ReplayedLog(id, load[..i]);
    ReplayHolds(disk, load, i);
    NextInOrder(disk, load, i, RecordedAll(load[..i]));
  }

  /** Replaying true frames in order builds a faithful peer. */
  lemma {:induction false} ReplayIsFaithful(truth: Truth, id: PeerId, disk: Disk, load: seq<Frame>, i: nat)
    requires TruthOk(truth) && Contiguous(disk) && LoadOf(disk, load) && i <= |load|
    requires forall f :: f in load ==> IsTrue(truth, f)
    ensures Faithful(truth, ReplayedAll(Fresh(id), load[..i]))
  {
    if i == 0 {
      FreshIsFaithful(truth, id);
    } else {
      ReplayIsFaithful(truth, id, disk, load, i - 1);
      NextReplayed(id, disk, load, i - 1);
      assert IsTrue(truth, load[i - 1]);
      ReplayStepIsFaithful(truth, ReplayedAll(Fresh(id), load[..i - 1]), load[i - 1]);
      PrefixSnoc(load, i - 1);
    }
  }

  lemma RebuiltCursors(truth: Truth, s: State, disk: Disk, load: seq<Frame>)
    requires TruthOk(truth) && PeerOk(truth, s.id, s) && s.disk == Some(disk) && LoadOf(disk, load)
    ensures var t := Reopened(s.id, disk, load);
      && Grows(s, t)
      && Cursor(t.log, s.id) == |Of(Recovered(truth, s.id, disk), s.id)|
      && (forall o: PeerId, k: nat :: (o, k) in disk <==> 1 <= k <= Cursor(t.log, o))
  {
    DiskIsContiguous(truth, s, disk);
    ReplayRebuilds(s.id, disk, load);
    CursorsFromDisk(truth, s, disk, Reopened(s.id, disk, load));
  }

  lemma CursorsFromDisk(truth: Truth, s: State, disk: Disk, t: State)
    requires PeerOk(truth, s.id, s) && s.disk == Some(disk)
    requires forall o: PeerId, k: nat :: (o, k) in disk <==> 1 <= k <= Cursor(t.log, o)
    ensures Grows(s, t)
    ensures Cursor(t.log, s.id) == |Of(Recovered(truth, s.id, disk), s.id)|
  {
    forall o: PeerId ensures Cursor(s.log, o) <= Cursor(t.log, o) {
      assert Cursor(s.log, o) >= 1 ==> (o, Cursor(s.log, o)) in disk;
    }
    forall k: nat | (s.id, k) in disk ensures k <= |Of(truth, s.id)| + 1 {
      assert KeyOf(disk[(s.id, k)]) == (s.id, k) && Entry(truth, s, disk[(s.id, k)]);
    }
    var c: nat := Cursor(t.log, s.id);
    assert c >= 1 ==> (s.id, c) in disk;
    assert (s.id, |Of(truth, s.id)| + 1) in disk <==> |Of(truth, s.id)| + 1 <= c;
  }

  /** A peer reopened from its disk is sound again, at or beyond its old cursors. */
  lemma RestartKeeps(truth: Truth, s: State, disk: Disk, load: seq<Frame>)
    requires TruthOk(truth) && PeerOk(truth, s.id, s) && s.disk == Some(disk)
    requires LoadOf(disk, load) && ReplayFits(s.id, load)
    ensures var t, truth' := Reopened(s.id, disk, load), Recovered(truth, s.id, disk);
      && TruthOk(truth') && PeerOk(truth', s.id, t) && SeenOk(truth', t, disk.Values)
      && Grows(s, t) && t.reports == map[]
  {
    var t, truth' := Reopened(s.id, disk, load), Recovered(truth, s.id, disk);
    RecoveredTruth(truth, s, disk);
    forall k | k in disk ensures IsTrue(truth', disk[k]) && KeyOf(disk[k]) == k {
      RecoveredEntry(truth, s, disk, k);
    }
    RebuiltCursors(truth, s, disk, load);
    RestartIsFaithful(truth', truth, s, disk, load);
    RestartClock(s.id, disk, load);
    SeenFromDisk(truth', t, disk);
    ReplayedReports(s.id, load);
    ReplayedLog(s.id, load);
  }

  lemma RestartIsFaithful(truth': Truth, truth: Truth, s: State, disk: Disk, load: seq<Frame>)
    requires TruthOk(truth') && PeerOk(truth, s.id, s) && s.disk == Some(disk) && LoadOf(disk, load)
    requires forall k :: k in disk ==> IsTrue(truth', disk[k])
    ensures Faithful(truth', Reopened(s.id, disk, load))
  {
    DiskIsContiguous(truth, s, disk);
    forall f | f in load ensures IsTrue(truth', f) {
      assert KeyOf(f) in disk && disk[KeyOf(f)] == f;
    }
    ReplayIsFaithful(truth', s.id, disk, load, |load|);
    assert load[..|load|] == load;
  }

  lemma RestartClock(id: PeerId, disk: Disk, load: seq<Frame>)
    requires LoadOf(disk, load) && ReplayFits(id, load)
    ensures forall f :: f in disk.Values ==> HlcAtMost(f.stamp.hlc, Reopened(id, disk, load).clock)
  {
    ReplayAdvancesClock(id, load);
    forall f | f in disk.Values ensures f in load {
      var k :| k in disk && disk[k] == f;
    }
  }

  lemma SeenFromDisk(truth: Truth, t: State, disk: Disk)
    requires forall f :: f in disk.Values ==> HlcAtMost(f.stamp.hlc, t.clock)
    requires forall k :: k in disk ==> IsTrue(truth, disk[k]) && KeyOf(disk[k]) == k
    requires forall o: PeerId, k: nat :: (o, k) in disk <==> 1 <= k <= Cursor(t.log, o)
    ensures SeenOk(truth, t, disk.Values)
  {
    forall f: Frame | Got(truth, t.log, f) ensures f in disk.Values {
      assert KeyOf(f) in disk && IsTrue(truth, disk[KeyOf(f)]);
    }
  }

  lemma {:induction false} ReplayedReports(id: PeerId, load: seq<Frame>)
    ensures ReplayedAll(Fresh(id), load).reports == map[]
  {
    if load != [] {
      ReplayedReports(id, load[..|load| - 1]);
    }
  }

  // ---- the other actions -------------------------------------------------

  lemma SameCursorsSameDisk(truth: Truth, s: State, t: State, disk: Disk)
    requires DiskOk(truth, s, disk) && t.id == s.id && t.clock == s.clock
    requires forall o: PeerId :: Cursor(t.log, o) == Cursor(s.log, o)
    ensures DiskOk(truth, t, disk)
  {
    forall k | k in disk ensures Entry(truth, t, disk[k]) {
      assert Entry(truth, s, disk[k]);
    }
  }

  lemma RebaseKeeps(truth: Truth, s: State, seen: set<Frame>, log: Log)
    requires PeerOk(truth, s.id, s) && SeenOk(truth, s, seen)
    requires forall o: PeerId :: Rebased(s.log, log, o, Base(log, o))
    ensures var t := s.(log := log); PeerOk(truth, s.id, t) && SeenOk(truth, t, seen) && Grows(s, t)
  {
    RebaseKeepsFaith(truth, s, log);
    RebaseKeepsRest(truth, s, seen, log) by {
      forall o: PeerId ensures Cursor(log, o) == Cursor(s.log, o) {
        assert Rebased(s.log, log, o, Base(log, o));
      }
    }
  }

  lemma RebaseKeepsRest(truth: Truth, s: State, seen: set<Frame>, log: Log)
    requires PeerOk(truth, s.id, s) && SeenOk(truth, s, seen) && Faithful(truth, s.(log := log))
    requires forall o: PeerId :: Cursor(log, o) == Cursor(s.log, o)
    ensures var t := s.(log := log); PeerOk(truth, s.id, t) && SeenOk(truth, t, seen) && Grows(s, t)
  {
    SameCursorsSameDelivery(truth, s.log, log);
    if s.disk.Some? {
      SameCursorsSameDisk(truth, s, s.(log := log), s.disk.value);
    }
  }

  lemma ReclaimKeeps(truth: Truth, s: State, seen: set<Frame>, members: seq<PeerId>, order: seq<PeerId>)
    requires PeerOk(truth, s.id, s) && SeenOk(truth, s, seen)
    ensures var t := Reclaimed(s, members, order);
      PeerOk(truth, s.id, t) && SeenOk(truth, t, seen) && Grows(s, t)
  {
    forall o: PeerId ensures var log := CutAll(s, members, order); Rebased(s.log, log, o, Base(log, o)) {
      ReclaimedAt(s, members, order, o);
    }
    RebaseKeeps(truth, s, seen, CutAll(s, members, order));
  }

  lemma CollectKeeps(truth: Truth, s: State, seen: set<Frame>, key: Key)
    requires PeerOk(truth, s.id, s) && SeenOk(truth, s, seen)
    ensures var t := s.(cells := Collected(s.cells, key)); PeerOk(truth, s.id, t) && SeenOk(truth, t, seen)
  {
    var t := s.(cells := Collected(s.cells, key));
    CollectKeepsFaith(truth, s, key);
    if s.disk.Some? {
      DiskKeeps(truth, s, t, s.disk.value);
    }
  }

  lemma NoteKeeps(truth: Truth, s: State, seen: set<Frame>, reports: map<PeerId, Cursors>)
    requires PeerOk(truth, s.id, s) && SeenOk(truth, s, seen)
    ensures var t := s.(reports := reports); PeerOk(truth, s.id, t) && SeenOk(truth, t, seen)
  {
    if s.disk.Some? {
      DiskKeeps(truth, s, s.(reports := reports), s.disk.value);
    }
  }

  // ---- whole steps -------------------------------------------------------

  lemma GrowsReflexive(s: State)
    ensures Grows(s, s)
  {
  }

  /** One peer moves on and the truth stays. */
  lemma OnePeerMoves(w: World, v: World, n: PeerId, t: State, seen: set<Frame>)
    requires PeersOk(w) && n in w.peers && v.truth == w.truth
    requires v.peers == w.peers[n := t] && v.seen == w.seen[n := seen]
    requires Sound(w.truth, n, t, seen) && Grows(w.peers[n], t)
    ensures PeersOk(v) && Extends(w, v)
  {
    forall m | m in w.peers ensures Grows(w.peers[m], v.peers[m]) {
      GrowsReflexive(w.peers[m]);
    }
  }

  lemma LongerExtends(w: World, v: World, n: PeerId, t: State, f: Frame)
    requires v.truth == Longer(w.truth, f) && n in w.peers && v.peers == w.peers[n := t] && Grows(w.peers[n], t)
    ensures Extends(w, v)
  {
    forall m | m in v.peers ensures Grows(w.peers[m], v.peers[m]) {
      GrowsReflexive(w.peers[m]);
    }
    LongerProlongs(w.truth, f);
  }

  /** One peer moves on and its own log grows by `f`. */
  lemma OnePeerWrites(w: World, v: World, n: PeerId, t: State, seen: set<Frame>, f: Frame)
    requires PeersOk(w) && n in w.peers && v.truth == Longer(w.truth, f) && TruthOk(v.truth)
    requires f.stamp.peer == n && f.seqno == |Of(w.truth, n)| + 1
    requires v.peers == w.peers[n := t] && v.seen == w.seen[n := seen]
    requires Sound(v.truth, n, t, seen) && Grows(w.peers[n], t)
    ensures PeersOk(v) && Extends(w, v)
  {
    forall m | m in w.peers && m != n ensures Sound(v.truth, m, w.peers[m], w.seen[m]) {
      OtherStaysSound(w.truth, m, w.peers[m], w.seen[m], f);
    }
    AllSound(w, v, n, t, seen);
    LongerExtends(w, v, n, t, f);
  }

  lemma AllSound(w: World, v: World, n: PeerId, t: State, seen: set<Frame>)
    requires TruthOk(v.truth) && w.seen.Keys == w.peers.Keys && n in w.peers && v.truth.Keys <= w.peers.Keys
    requires forall m :: m in w.peers && m != n ==> Sound(v.truth, m, w.peers[m], w.seen[m])
    requires v.peers == w.peers[n := t] && v.seen == w.seen[n := seen] && Sound(v.truth, n, t, seen)
    ensures PeersOk(v)
  {
  }

  lemma OtherStaysSound(truth: Truth, m: PeerId, s: State, seen: set<Frame>, f: Frame)
    requires Sound(truth, m, s, seen) && f.seqno == |Of(truth, f.stamp.peer)| + 1 && f.stamp.peer != m
    ensures Sound(Longer(truth, f), m, s, seen)
  {
    WriteKeepsOthers(truth, m, s, seen, f);
  }

  lemma WrittenGrows(s: State, t: State, f: Frame)
    requires f.seqno == Cursor(s.log, f.stamp.peer) + 1 && t.log == Recorded(s.log, f)
    ensures Grows(s, t)
  {
    forall o: PeerId ensures Cursor(s.log, o) <= Cursor(t.log, o) {
      CursorOneMore(s.log, t.log, f, o);
    }
  }

  lemma WriteStep(w: World, n: PeerId, wall: nat, op: Op, key: Key, data: seq<byte>, sig: Option<Signature>,
                  io: AppendResult)
    requires PeersOk(w) && n in w.peers && !TickOverflows(w.peers[n].clock, wall)
    ensures var v := AfterWrite(w, n, wall, op, key, data, sig, io); PeersOk(v) && Extends(w, v)
  {
    var s, seen := w.peers[n], w.seen[n];
    assert Sound(w.truth, n, s, seen);
    var f := NewFrame(s, wall, op, key, data, sig);
    var t := Written(s, wall, op, key, data, sig, io).0;
    var v := AfterWrite(w, n, wall, op, key, data, sig, io);
    if LengthError(key, data).Some? {
      GrowsReflexive(s);
      OnePeerMoves(w, v, n, s, seen);
    } else if !Persists(s.disk, io) {
      FailedWriteKeeps(w.truth, s, seen, wall, f, io);
      GrowsReflexive(s);
      OnePeerMoves(w, v, n, t, seen);
    } else {
      NewFrameIsNext(w.truth, s, seen, wall, f);
      WriteKeepsAuthor(w.truth, s, seen, wall, f, t);
      WrittenGrows(s, t, f);
      OnePeerWrites(w, v, n, t, seen + {f}, f);
    }
  }

  lemma ReceiveGrows(s: State, f: Frame, wall: nat, verified: bool, io: AppendResult)
    ensures Grows(s, Received(s, f, wall, verified, io).0)
  {
    forall o: PeerId ensures Cursor(s.log, o) <= Cursor(Received(s, f, wall, verified, io).0.log, o) {
      if Classify(s.log, f) == Appended {
        CursorOneMore(s.log, Recorded(s.log, f), f, o);
      }
    }
  }

  /** An action other than a write, on a peer that is sound. */
  lemma LocalKeeps(truth: Truth, s: State, seen: set<Frame>, a: Action)
    requires TruthOk(truth) && PeerOk(truth, s.id, s) && SeenOk(truth, s, seen) && HasRoom(s, a) && !a.Write?
    requires a.Receive? && a.verified ==> IsTrue(truth, a.frame)
    ensures var t := Act(s, a);
      && PeerOk(truth, s.id, t) && Grows(s, t)
      && SeenOk(truth, t, if a.Receive? && a.verified then seen + {a.frame} else seen)
      && t.reports == (if a.Note? then s.reports[a.peer := a.cursors] else s.reports)
  {
    match a {
      case Receive(f, wall, verified, io) =>
        ReceiveGrows(s, f, wall, verified, io);
        if verified {
          ReceiveKeeps(truth, s, seen, f, wall, io);
        }
      case Collect(key) => CollectKeeps(truth, s, seen, key);
      case Reclaim(members, order) => ReclaimKeeps(truth, s, seen, members, order);
      case Note(peer, cursors) => NoteKeeps(truth, s, seen, s.reports[peer := cursors]);
    }
  }

  /** The world around a peer that has come back as `t`. */
  lemma PeerReturns(w: World, v: World, n: PeerId, t: State, disk: Disk)
    requires PeersOk(w) && n in w.peers && w.peers[n].disk == Some(disk)
    requires v.truth == Recovered(w.truth, n, disk) && TruthOk(v.truth)
    requires v.peers == w.peers[n := t] && v.seen == w.seen[n := disk.Values]
    requires Sound(v.truth, n, t, disk.Values) && Grows(w.peers[n], t)
    ensures PeersOk(v) && Extends(w, v)
  {
    assert Sound(w.truth, n, w.peers[n], w.seen[n]);
    LimboOnDisk(w.truth, w.peers[n], disk);
    var key := (n, |Of(w.truth, n)| + 1);
    if key in disk {
      OnePeerWrites(w, v, n, t, disk.Values, disk[key]);
    } else {
      OnePeerMoves(w, v, n, t, disk.Values);
    }
  }

  lemma RestartStep(w: World, n: PeerId, load: seq<Frame>)
    requires PeersOk(w) && Enabled(w, Restart(n, load))
    ensures var v := Next(w, Restart(n, load)); PeersOk(v) && Extends(w, v)
    ensures Reopened(n, w.peers[n].disk.value, load).reports == map[]
  {
    var disk := w.peers[n].disk.value;
    assert Sound(w.truth, n, w.peers[n], w.seen[n]);
    RestartKeeps(w.truth, w.peers[n], disk, load);
    PeerReturns(w, Next(w, Restart(n, load)), n, Reopened(n, disk, load), disk);
  }

  lemma LocalStep(w: World, n: PeerId, a: Action)
    requires PeersOk(w) && NetOk(w) && Enabled(w, Local(n, a)) && !a.Write?
    ensures var v := Next(w, Local(n, a)); PeersOk(v) && Extends(w, v)
    ensures Act(w.peers[n], a).reports
         == if a.Note? then w.peers[n].reports[a.peer := a.cursors] else w.peers[n].reports
  {
    var s, seen := w.peers[n], w.seen[n];
    assert Sound(w.truth, n, s, seen);
    LocalKeeps(w.truth, s, seen, a);
    OnePeerMoves(w, Next(w, Local(n, a)), n, Act(s, a), if a.Receive? && a.verified then seen + {a.frame} else seen);
  }

  lemma NobodyMoves(w: World, v: World)
    requires PeersOk(w) && v.peers == w.peers && v.truth == w.truth && v.seen == w.seen
    ensures PeersOk(v) && Extends(w, v)
  {
    forall m | m in w.peers ensures Grows(w.peers[m], v.peers[m]) {
      GrowsReflexive(w.peers[m]);
    }
  }

  lemma HeldIsTrue(truth: Truth, log: Log, o: PeerId, f: Frame)
    requires TruthOk(truth) && HoldsSlice(truth, log, o) && f in Held(log, o)
    ensures IsTrue(truth, f)
  {
    var i :| 0 <= i < |Held(log, o)| && Held(log, o)[i] == f;
    assert Of(truth, o)[Base(log, o) + i] == f;
  }

  lemma {:induction false} DeltaIsHeld(log: Log, their: Cursors, order: seq<PeerId>, f: Frame) returns (o: PeerId)
    requires f in DeltaIn(log, their, order)
    ensures f in Held(log, o)
  {
    o := order[|order| - 1];
    if f !in DeltaFor(log, their, o) {
      o := DeltaIsHeld(log, their, order[..|order| - 1], f);
    }
  }

  /** Whatever a peer sends is true. */
  lemma DeltaIsTrue(truth: Truth, log: Log, their: Cursors, order: seq<PeerId>, f: Frame)
    requires TruthOk(truth) && LogOk(truth, log) && f in DeltaIn(log, their, order)
    ensures IsTrue(truth, f)
  {
    var o := DeltaIsHeld(log, their, order, f);
    HeldIsTrue(truth, log, o, f);
  }

  lemma StillTrue(w: World, v: World, f: Frame)
    requires Extends(w, v) && IsTrue(w.truth, f)
    ensures IsTrue(v.truth, f)
  {
    assert Of(w.truth, f.stamp.peer) <= Of(v.truth, f.stamp.peer);
  }

  lemma SendKeepsNet(w: World, n: PeerId, their: Cursors, order: seq<PeerId>)
    requires PeersOk(w) && NetOk(w) && n in w.peers
    ensures NetOk(Next(w, Send(n, their, order)))
  {
    forall f | f in DeltaIn(w.peers[n].log, their, order) ensures IsTrue(w.truth, f) {
      assert Sound(w.truth, n, w.peers[n], w.seen[n]);
      DeltaIsTrue(w.truth, w.peers[n].log, their, order, f);
    }
  }

  lemma NewFrameIsTrue(truth: Truth, s: State, f: Frame)
    requires PeerOk(truth, s.id, s) && f.stamp.peer == s.id && f.seqno == Cursor(s.log, s.id) + 1
    ensures IsTrue(Longer(truth, f), f)
  {
  }

  lemma WriteKeepsNet(w: World, v: World, f: Frame)
    requires NetOk(w) && Extends(w, v) && v.net <= w.net + {f} && (f in v.net ==> f in w.net || IsTrue(v.truth, f))
    ensures NetOk(v)
  {
    forall g | g in v.net ensures IsTrue(v.truth, g) {
      if g in w.net {
        StillTrue(w, v, g);
      }
    }
  }

  lemma OldNetSurvives(w: World, v: World)
    requires NetOk(w) && Extends(w, v) && v.net == w.net
    ensures NetOk(v)
  {
    forall f | f in v.net ensures IsTrue(v.truth, f) {
      StillTrue(w, v, f);
    }
  }

  lemma StillBelow(cursors: Cursors, s: State, t: State)
    requires Below(cursors, s) && Grows(s, t)
    ensures Below(cursors, t)
  {
    forall o: PeerId ensures At(cursors, o) <= Cursor(t.log, o) {
      assert At(cursors, o) <= Cursor(s.log, o) <= Cursor(t.log, o);
    }
  }

  lemma OldReportsSurvive(w: World, v: World)
    requires ReportsOk(w) && Extends(w, v) && v.hellos == w.hellos
    requires forall n :: n in v.peers ==> v.peers[n].reports == w.peers[n].reports || v.peers[n].reports == map[]
    ensures ReportsOk(v)
  {
    forall h | h in v.hellos && h.0 in v.peers ensures Below(h.1, v.peers[h.0]) {
      StillBelow(h.1, w.peers[h.0], v.peers[h.0]);
    }
    forall n, p | n in v.peers && p in v.peers && p in v.peers[n].reports
      ensures Below(v.peers[n].reports[p], v.peers[p])
    {
      StillBelow(w.peers[n].reports[p], w.peers[p], v.peers[p]);
    }
  }

  lemma NoteStep(w: World, n: PeerId, peer: PeerId, cursors: Cursors)
    requires ReportsOk(w) && n in w.peers && (peer, cursors) in w.hellos
    ensures ReportsOk(w.(peers := w.peers[n := w.peers[n].(reports := w.peers[n].reports[peer := cursors])]))
  {
    var v := w.(peers := w.peers[n := w.peers[n].(reports := w.peers[n].reports[peer := cursors])]);
    forall h | h in v.hellos && h.0 in v.peers ensures Below(h.1, v.peers[h.0]) {
      StillBelow(h.1, w.peers[h.0], v.peers[h.0]);
    }
    forall m, p | m in v.peers && p in v.peers && p in v.peers[m].reports
      ensures Below(v.peers[m].reports[p], v.peers[p])
    {
      if m == n && p == peer {
        var h := (peer, cursors);
        assert h in w.hellos && h.0 == p;
        StillBelow(cursors, w.peers[p], v.peers[p]);
      } else {
        StillBelow(w.peers[m].reports[p], w.peers[p], v.peers[p]);
      }
    }
  }

  lemma OwnCursorsBelow(s: State)
    ensures Below(CursorMap(s.log), s)
  {
  }

  lemma GreetStep(w: World, n: PeerId)
    requires ReportsOk(w) && n in w.peers
    ensures ReportsOk(w.(hellos := w.hellos + {(n, CursorMap(w.peers[n].log))}))
  {
    OwnCursorsBelow(w.peers[n]);
  }

  lemma OnePeerKeepsReports(w: World, v: World, n: PeerId, t: State)
    requires ReportsOk(w) && Extends(w, v) && v.hellos == w.hellos && n in w.peers
    requires v.peers == w.peers[n := t] && (t.reports == w.peers[n].reports || t.reports == map[])
    ensures ReportsOk(v)
  {
    OldReportsSurvive(w, v);
  }

  /** The disk and the causes after an append of `f`, which is true or newly built. */
  lemma AppendStaysWithin(s: State, t: State, f: Frame, io: AppendResult, before: set<Frame>, after: set<Frame>)
    requires StoredWithin(s, before) && before <= after && f in after
    requires t.disk == s.disk || t.disk == DiskAfter(s.disk, f, io)
    ensures StoredWithin(t, after)
  {
  }

  lemma WriteKeepsCauses(w: World, n: PeerId, wall: nat, op: Op, key: Key, data: seq<byte>, sig: Option<Signature>,
                         io: AppendResult)
    requires CausesOk(w) && n in w.peers && n in w.seen && !TickOverflows(w.peers[n].clock, wall)
    requires TruthOk(w.truth) && Sound(w.truth, n, w.peers[n], w.seen[n])
    ensures CausesOk(AfterWrite(w, n, wall, op, key, data, sig, io))
  {
    var s, f := w.peers[n], NewFrame(w.peers[n], wall, op, key, data, sig);
    var v := AfterWrite(w, n, wall, op, key, data, sig, io);
    if LengthError(key, data).None? {
      NewFrameIsNext(w.truth, s, w.seen[n], wall, f);
      AppendStaysWithin(s, v.peers[n], f, io, w.causes.Keys, v.causes.Keys);
      forall g: Frame | IsTrue(v.truth, g) ensures g in v.causes {
        LongerAddsOne(w.truth, f, g);
      }
    }
  }

  lemma LongerAddsOne(truth: Truth, f: Frame, g: Frame)
    requires IsTrue(Longer(truth, f), g)
    ensures g == f || IsTrue(truth, g)
  {
  }

  lemma LocalKeepsCauses(w: World, n: PeerId, a: Action)
    requires CausesOk(w) && NetOk(w) && Enabled(w, Local(n, a)) && w.seen.Keys == w.peers.Keys && !a.Write?
    ensures CausesOk(Next(w, Local(n, a)))
  {
    if a.Receive? {
      if a.verified {
        AppendStaysWithin(w.peers[n], Act(w.peers[n], a), a.frame, a.store, w.causes.Keys, w.causes.Keys);
      }
    }
  }

  lemma RestartShape(w: World, n: PeerId, load: seq<Frame>)
    requires Enabled(w, Restart(n, load)) && w.seen.Keys == w.peers.Keys
    ensures var v, disk := Next(w, Restart(n, load)), w.peers[n].disk.value;
      && v.truth == Recovered(w.truth, n, disk) && v.causes == w.causes && v.net == w.net && v.hellos == w.hellos
      && v.peers == w.peers[n := Reopened(n, disk, load)] && v.peers[n].disk == w.peers[n].disk
  {
    ReopenedDisk(n, w.peers[n].disk.value, load);
  }

  lemma ReopenedDisk(n: PeerId, disk: Disk, load: seq<Frame>)
    ensures Reopened(n, disk, load).disk == Some(disk)
  {
  }

  lemma RecoveredHasCauses(w: World, n: PeerId, disk: Disk, g: Frame)
    requires CausesOk(w) && n in w.peers && w.peers[n].disk == Some(disk) && IsTrue(Recovered(w.truth, n, disk), g)
    ensures g in w.causes
  {
    var key := (n, |Of(w.truth, n)| + 1);
    assert StoredWithin(w.peers[n], w.causes.Keys);
    if key in disk {
      assert disk[key] in disk.Values;
      LongerAddsOne(w.truth, disk[key], g);
    }
  }

  lemma RestartKeepsCauses(w: World, v: World, n: PeerId, disk: Disk)
    requires CausesOk(w) && n in w.peers && w.peers[n].disk == Some(disk)
    requires v.truth == Recovered(w.truth, n, disk) && v.causes == w.causes
    requires forall m :: m in v.peers ==> m in w.peers && v.peers[m].disk == w.peers[m].disk
    ensures CausesOk(v)
  {
    forall g: Frame | IsTrue(v.truth, g) ensures g in v.causes {
      RecoveredHasCauses(w, n, disk, g);
    }
    forall m | m in v.peers ensures StoredWithin(v.peers[m], v.causes.Keys) {
      assert StoredWithin(w.peers[m], w.causes.Keys);
    }
  }

  lemma CausesSurviveRestart(w: World, n: PeerId, load: seq<Frame>)
    requires CausesOk(w) && Enabled(w, Restart(n, load)) && w.seen.Keys == w.peers.Keys
    ensures CausesOk(Next(w, Restart(n, load)))
  {
    RestartShape(w, n, load);
    RestartKeepsCauses(w, Next(w, Restart(n, load)), n, w.peers[n].disk.value);
  }

  lemma RestartKeepsNet(w: World, n: PeerId, load: seq<Frame>)
    requires NetOk(w) && Enabled(w, Restart(n, load)) && w.seen.Keys == w.peers.Keys
    requires Extends(w, Next(w, Restart(n, load)))
    ensures NetOk(Next(w, Restart(n, load)))
  {
    OldNetSurvives(w, Next(w, Restart(n, load)));
  }

  /** What a write does to the wire and the reports. */
  lemma WriteEffects(w: World, n: PeerId, wall: nat, op: Op, key: Key, data: seq<byte>, sig: Option<Signature>,
                     io: AppendResult)
    requires n in w.peers && n in w.seen && PeerOk(w.truth, n, w.peers[n])
    ensures var v, f := AfterWrite(w, n, wall, op, key, data, sig, io), NewFrame(w.peers[n], wall, op, key, data, sig);
      && v.hellos == w.hellos
      && v.peers == w.peers[n := Written(w.peers[n], wall, op, key, data, sig, io).0]
      && Written(w.peers[n], wall, op, key, data, sig, io).0.reports == w.peers[n].reports
      && v.net <= w.net + {f} && (f in v.net ==> f in w.net || IsTrue(v.truth, f))
  {
    NewFrameIsTrue(w.truth, w.peers[n], NewFrame(w.peers[n], wall, op, key, data, sig));
  }

  lemma WriteHolds(w: World, n: PeerId, wall: nat, op: Op, key: Key, data: seq<byte>, sig: Option<Signature>,
                   io: AppendResult)
    requires Inv(w) && n in w.peers && !TickOverflows(w.peers[n].clock, wall)
    ensures var v := AfterWrite(w, n, wall, op, key, data, sig, io); Inv(v) && Extends(w, v)
  {
    var v, f := AfterWrite(w, n, wall, op, key, data, sig, io), NewFrame(w.peers[n], wall, op, key, data, sig);
    assert Sound(w.truth, n, w.peers[n], w.seen[n]);
    WriteStep(w, n, wall, op, key, data, sig, io);
    WriteEffects(w, n, wall, op, key, data, sig, io);
    WriteKeepsNet(w, v, f);
    OnePeerKeepsReports(w, v, n, Written(w.peers[n], wall, op, key, data, sig, io).0);
    WriteKeepsCauses(w, n, wall, op, key, data, sig, io);
  }

  lemma LocalKeepsReports(w: World, n: PeerId, a: Action)
    requires ReportsOk(w) && Enabled(w, Local(n, a)) && !a.Write? && w.seen.Keys == w.peers.Keys
    requires Extends(w, Next(w, Local(n, a))) && (!a.Note? ==> Act(w.peers[n], a).reports == w.peers[n].reports)
    ensures ReportsOk(Next(w, Local(n, a)))
  {
    if a.Note? {
      NoteStep(w, n, a.peer, a.cursors);
    } else {
      OnePeerKeepsReports(w, Next(w, Local(n, a)), n, Act(w.peers[n], a));
    }
  }

  lemma RestartKeepsReports(w: World, n: PeerId, load: seq<Frame>)
    requires ReportsOk(w) && Enabled(w, Restart(n, load)) && w.seen.Keys == w.peers.Keys
    requires Extends(w, Next(w, Restart(n, load))) && Reopened(n, w.peers[n].disk.value, load).reports == map[]
    ensures ReportsOk(Next(w, Restart(n, load)))
  {
    OnePeerKeepsReports(w, Next(w, Restart(n, load)), n, Reopened(n, w.peers[n].disk.value, load));
  }

  lemma LocalHolds(w: World, n: PeerId, a: Action)
    requires Inv(w) && Enabled(w, Local(n, a)) && !a.Write?
    ensures var v := Next(w, Local(n, a)); Inv(v) && Extends(w, v)
  {
    LocalStep(w, n, a);
    LocalKeepsCauses(w, n, a);
    LocalKeepsReports(w, n, a);
  }

  lemma RestartHolds(w: World, n: PeerId, load: seq<Frame>)
    requires Inv(w) && Enabled(w, Restart(n, load))
    ensures var v := Next(w, Restart(n, load)); Inv(v) && Extends(w, v)
  {
    RestartStep(w, n, load);
    RestartKeepsNet(w, n, load);
    RestartKeepsReports(w, n, load);
    CausesSurviveRestart(w, n, load);
  }

  /** Every step keeps the invariant; true logs only grow at the end and cursors never fall. */
  lemma StepHolds(w: World, step: Step)
    requires Inv(w) && Enabled(w, step)
    ensures Inv(Next(w, step)) && Extends(w, Next(w, step))
  {
    match step {
      case Local(n, Write(wall, op, key, data, sig, io)) => WriteHolds(w, n, wall, op, key, data, sig, io);
      case Local(n, a) => LocalHolds(w, n, a);
      case Send(n, their, order) =>
        SendKeepsNet(w, n, their, order);
        NobodyMoves(w, Next(w, step));
      case Greet(n) =>
        GreetStep(w, n);
        NobodyMoves(w, Next(w, step));
      case Restart(n, load) => RestartHolds(w, n, load);
    }
  }
}
