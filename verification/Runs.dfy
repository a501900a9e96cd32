/**
 * Runs of any number of peers: local writes, frames lost, duplicated, reordered or forged, failed and torn
 * appends, cursor reports, reclamation, tombstone collection, and restarts from disk.
 */
module Runs {
  import opened Bytes
  import opened Clock
  import opened Wire
  import opened ReplLog
  import opened Sync
  import opened Recovery
  import opened Events
  import opened Delivery

  datatype World = World(
    peers: map<PeerId, State>,
    truth: Truth,
    net: set<Frame>,                 // frames ever put on a wire
    hellos: set<(PeerId, Cursors)>,  // cursor reports ever sent
    seen: map<PeerId, set<Frame>>,   // frames each clock has observed
    causes: map<Frame, set<Frame>>)  // what the author had observed when it built the frame

  datatype Step =
    | Local(peer: PeerId, action: Action)
    | Send(sender: PeerId, their: Cursors, order: seq<PeerId>)
    | Greet(greeter: PeerId)
    | Restart(restarted: PeerId, load: seq<Frame>)

  /** A frame that passes verification was really sent; a report that is noted was really made. */
  ghost predicate Enabled(w: World, step: Step) {
    match step
    case Local(n, a) =>
      n in w.peers && HasRoom(w.peers[n], a) &&
      (match a
       case Receive(f, _, verified, _) => verified ==> f in w.net
       case Note(peer, cursors) => (peer, cursors) in w.hellos
       case _ => true)
    case Send(n, _, _) => n in w.peers
    case Greet(n) => n in w.peers
    case Restart(n, load) =>
      n in w.peers && w.peers[n].disk.Some? && LoadOf(w.peers[n].disk.value, load) && ReplayFits(n, load)
  }

  /** A frame that reached the disk of its author before a crash becomes part of its log. */
  function Recovered(truth: Truth, n: PeerId, disk: Disk): Truth {
    var key := (n, |Of(truth, n)| + 1);
    if key in disk then Longer(truth, disk[key]) else truth
  }

  function AfterWrite(w: World, n: PeerId, wall: nat, op: Op, key: Key, data: seq<byte>,
                      sig: Option<Signature>, io: AppendResult): World
    requires n in w.peers && n in w.seen
  {
    var s := w.peers[n];
    var f := NewFrame(s, wall, op, key, data, sig);
    var (t, result) := Written(s, wall, op, key, data, sig, io);
    if LengthError(key, data).Some? then w
    else
      var v := w.(peers := w.peers[n := t], causes := w.causes[f := w.seen[n]]);
      if result.Err? then v
      else v.(truth := Longer(w.truth, f), net := w.net + {f}, seen := w.seen[n := w.seen[n] + {f}])
  }

  ghost function Next(w: World, step: Step): World
    requires Enabled(w, step) && w.seen.Keys == w.peers.Keys
  {
    match step
    case Local(n, Write(wall, op, key, data, sig, io)) => AfterWrite(w, n, wall, op, key, data, sig, io)
    case Local(n, a) =>
      var v := w.(peers := w.peers[n := Act(w.peers[n], a)]);
      if a.Receive? && a.verified then v.(seen := w.seen[n := w.seen[n] + {a.frame}]) else v
    case Send(n, their, order) =>
      w.(net := w.net + set f | f in DeltaIn(w.peers[n].log, their, order))
    case Greet(n) => w.(hellos := w.hellos + {(n, CursorMap(w.peers[n].log))})
    case Restart(n, load) =>
      var disk := w.peers[n].disk.value;
      w.(peers := w.peers[n := Reopened(n, disk, load)], truth := Recovered(w.truth, n, disk),
         seen := w.seen[n := disk.Values])
  }

  /** Nothing has happened yet; each peer has an empty disk or no persister. */
  ghost predicate Start(w: World) {
    && w.truth == map[] && w.net == {} && w.hellos == {} && w.causes == map[]
    && w.seen.Keys == w.peers.Keys
    && forall n :: n in w.peers ==>
         (w.peers[n] == Fresh(n) || w.peers[n] == Fresh(n).(disk := Some(map[]))) && w.seen[n] == {}
  }

  /** An own frame on disk that was reported as not persisted. */
  predicate Limbo(truth: Truth, s: State, f: Frame) {
    && f.stamp.peer == s.id && f.seqno == Cursor(s.log, s.id) + 1
    && HlcAtMost(f.stamp.hlc, s.clock)
    && forall g :: g in Of(truth, s.id) ==> HlcLess(g.stamp.hlc, f.stamp.hlc)
  }

  predicate Entry(truth: Truth, s: State, f: Frame) {
    (IsTrue(truth, f) && f.seqno <= Cursor(s.log, f.stamp.peer) + 1) || Limbo(truth, s, f)
  }

  /** The disk holds everything delivered, and at most one frame beyond it per origin. */
  ghost predicate DiskOk(truth: Truth, s: State, disk: Disk) {
    && (forall k :: k in disk ==> KeyOf(disk[k]) == k && Entry(truth, s, disk[k]))
    && (forall o: PeerId, k: nat :: 1 <= k <= Cursor(s.log, o) ==> (o, k) in disk)
  }

  ghost predicate PeerOk(truth: Truth, n: PeerId, s: State) {
    && s.id == n && Faithful(truth, s)
    && Cursor(s.log, n) == |Of(truth, n)|
    && (s.disk.Some? ==> DiskOk(truth, s, s.disk.value))
  }

  ghost predicate SeenOk(truth: Truth, s: State, seen: set<Frame>) {
    && (forall f :: f in seen ==> HlcAtMost(f.stamp.hlc, s.clock))
    && (forall f: Frame :: Got(truth, s.log, f) ==> f in seen)
  }

  ghost predicate Sound(truth: Truth, n: PeerId, s: State, seen: set<Frame>) {
    PeerOk(truth, n, s) && SeenOk(truth, s, seen)
  }

  ghost predicate PeersOk(w: World) {
    && TruthOk(w.truth) && w.seen.Keys == w.peers.Keys && w.truth.Keys <= w.peers.Keys
    && forall n :: n in w.peers ==> Sound(w.truth, n, w.peers[n], w.seen[n])
  }

  /** Everything on the wire is true. */
  ghost predicate NetOk(w: World) {
    forall f :: f in w.net ==> IsTrue(w.truth, f)
  }

  /** These cursors are no higher than the peer's own. */
  ghost predicate Below(cursors: Cursors, s: State) {
    forall o: PeerId :: At(cursors, o) <= Cursor(s.log, o)
  }

  /** A report never exceeds the cursors of the peer that made it. */
  ghost predicate ReportsOk(w: World) {
    && (forall h :: h in w.hellos && h.0 in w.peers ==> Below(h.1, w.peers[h.0]))
    && (forall n, p :: n in w.peers && p in w.peers && p in w.peers[n].reports ==>
          Below(w.peers[n].reports[p], w.peers[p]))
  }

  ghost predicate StoredWithin(s: State, frames: set<Frame>) {
    s.disk.Some? ==> s.disk.value.Values <= frames
  }

  /** Whatever an author had observed carries a smaller clock reading than what it then wrote. */
  ghost predicate CausesOk(w: World) {
    && (forall f, g :: f in w.causes && g in w.causes[f] ==> HlcLess(g.stamp.hlc, f.stamp.hlc))
    && (forall f: Frame :: IsTrue(w.truth, f) ==> f in w.causes)
    && (forall n :: n in w.peers ==> StoredWithin(w.peers[n], w.causes.Keys))
  }

  ghost predicate Inv(w: World) {
    PeersOk(w) && NetOk(w) && ReportsOk(w) && CausesOk(w)
  }

  /** Cursors only grow from `s` to `t`. */
  ghost predicate Grows(s: State, t: State) {
    forall o: PeerId :: Cursor(s.log, o) <= Cursor(t.log, o)
  }

  /** Later worlds keep every true log as a prefix and every cursor as a lower bound. */
  ghost predicate Extends(w: World, v: World) {
    && v.peers.Keys == w.peers.Keys
    && Prolongs(w.truth, v.truth)
    && (forall n :: n in w.peers ==> Grows(w.peers[n], v.peers[n]))
  }
}
