/** Applying a delta: what one pull does to the puller's cursors. */
module Pull {
  import opened Clock
  import opened Wire
  import opened ReplLog
  import opened Collections
  import opened Sync
  import opened Recovery
  import opened Delivery

  function RecordMany(log: Log, frames: seq<Frame>): Log {
    if frames == [] then log else Recorded(RecordMany(log, frames[..|frames| - 1]), frames[|frames| - 1])
  }

  /** `apply`: receive frames in order; each verifies and is stored. */
  function Absorbed(s: State, frames: seq<Frame>, wall: nat): State {
    if frames == [] then s
    else Received(Absorbed(s, frames[..|frames| - 1], wall), frames[|frames| - 1], wall, true, Stored).0
  }

  type Auth = Frame -> bool

  /** Receive frames in order, verified by `auth` and stored as `io` says; also the frames that were appended. */
  function Ingested(s: State, frames: seq<Frame>, wall: nat, auth: Auth, io: nat -> AppendResult): (State, seq<Frame>) {
    if frames == [] then (s, [])
    else
      var n := |frames| - 1;
      var (t, appended) := Ingested(s, frames[..n], wall, auth, io);
      var (u, outcome) := Received(t, frames[n], wall, auth(frames[n]), io(n));
      (u, if outcome == Appended then appended + [frames[n]] else appended)
  }

  /** When every frame verifies and is stored. */
  lemma {:induction false} HonestIngest(s: State, frames: seq<Frame>, wall: nat, auth: Auth, io: nat -> AppendResult)
    requires (forall f :: f in frames ==> auth(f)) && forall i :: 0 <= i < |frames| ==> io(i) == Stored
    ensures Ingested(s, frames, wall, auth, io).0 == Absorbed(s, frames, wall)
  {
    if frames != [] {
      HonestIngest(s, frames[..|frames| - 1], wall, auth, io);
      assert frames[|frames| - 1] in frames;
    }
  }

  /** The log has recorded these frames, each of them presented and verified. */
  ghost predicate Gained(before: Log, after: Log, presented: seq<Frame>, auth: Auth, appended: seq<Frame>) {
    && after == RecordMany(before, appended)
    && forall f :: f in appended ==> f in presented && auth(f)
  }

  /** What is appended is what the log gained, whatever fails to verify or to be stored. */
  lemma {:induction false} IngestedLog(s: State, frames: seq<Frame>, wall: nat, auth: Auth, io: nat -> AppendResult)
    ensures var (t, appended) := Ingested(s, frames, wall, auth, io);
      Gained(s.log, t.log, frames, auth, appended) && t.id == s.id && t.reports == s.reports
  {
    if frames != [] {
      var n := |frames| - 1;
      IngestedLog(s, frames[..n], wall, auth, io);
      var appended := Ingested(s, frames[..n], wall, auth, io).1;
      assert (appended + [frames[n]])[..|appended|] == appended;
      assert frames[n] in frames && forall f :: f in frames[..n] ==> f in frames;
    }
  }

  lemma {:induction false} AbsorbedLog(s: State, frames: seq<Frame>, wall: nat)
    ensures Absorbed(s, frames, wall).log == RecordMany(s.log, frames)
    ensures Absorbed(s, frames, wall).id == s.id && Absorbed(s, frames, wall).reports == s.reports
  {
    if frames != [] {
      AbsorbedLog(s, frames[..|frames| - 1], wall);
    }
  }

  lemma {:induction false} RecordConcat(log: Log, a: seq<Frame>, b: seq<Frame>)
    ensures RecordMany(log, a + b) == RecordMany(RecordMany(log, a), b)
  {
    if b == [] {
      assert a + b == a;
    } else {
      var front := b[..|b| - 1];
      assert (a + b)[..|a + b| - 1] == a + front && (a + b)[|a + b| - 1] == b[|b| - 1];
      RecordConcat(log, a, front);
    }
  }

  /** Recording any true frame keeps a log a slice of the truth. */
  lemma RecordKeepsLog(truth: Truth, log: Log, f: Frame)
    requires LogOk(truth, log) && IsTrue(truth, f)
    ensures LogOk(truth, Recorded(log, f))
    ensures forall o: PeerId :: Base(Recorded(log, f), o) == Base(log, o)
  {
    if Classify(log, f) == Appended {
      forall o: PeerId ensures HoldsSlice(truth, Recorded(log, f), o) {
        SliceOneMore(truth, log, Recorded(log, f), f, o);
      }
    }
  }

  /** Cursors and bases after one origin has been raised to `hi`. */
  ghost predicate Raised(log: Log, next: Log, origin: PeerId, hi: nat) {
    forall o: PeerId ::
      && Cursor(next, o) == (if o == origin then Max(Cursor(log, o), hi) else Cursor(log, o))
      && Base(next, o) == Base(log, o)
  }

  lemma RecordRaises(log: Log, mid: Log, f: Frame, o: PeerId)
    requires f.stamp.peer == o && f.seqno >= 1 && Raised(log, mid, o, f.seqno - 1)
    requires f.seqno - 1 <= Cursor(mid, o)
    ensures Raised(log, Recorded(mid, f), o, f.seqno)
  {
    forall p: PeerId
      ensures Cursor(Recorded(mid, f), p) == (if p == o then Max(Cursor(log, p), f.seqno) else Cursor(log, p))
      ensures Base(Recorded(mid, f), p) == Base(log, p)
    {
      if Classify(mid, f) == Appended {
        CursorOneMore(mid, Recorded(mid, f), f, p);
      }
    }
  }

  lemma SliceLast<T>(s: seq<T>, a: nat, b: nat)
    requires a < b <= |s|
    ensures |s[a..b]| == b - a && s[a..b][..b - a - 1] == s[a..b - 1] && s[a..b][b - a - 1] == s[b - 1]
  {
  }

  /** A contiguous chunk that starts at or below the cursor lifts it to the chunk's end, skipping duplicates. */
  lemma {:induction false} ChunkRaises(truth: Truth, log: Log, o: PeerId, lo: nat, hi: nat)
    requires TruthOk(truth) && LogOk(truth, log) && lo <= Cursor(log, o) && lo <= hi <= |Of(truth, o)|
    ensures LogOk(truth, RecordMany(log, Of(truth, o)[lo..hi]))
    ensures Raised(log, RecordMany(log, Of(truth, o)[lo..hi]), o, hi)
    decreases hi
  {
    if lo < hi {
      ChunkRaises(truth, log, o, lo, hi - 1);
      var f, mid := Of(truth, o)[hi - 1], RecordMany(log, Of(truth, o)[lo..hi - 1]);
      SliceLast(Of(truth, o), lo, hi);
      assert KeyOf(f) == (o, hi);
      RecordKeepsLog(truth, mid, f);
      RecordRaises(log, mid, f, o);
    }
  }

  /** The puller's log lies at or above `their`, and the server still holds everything after `their`. */
  ghost predicate Reaches(server: Log, their: Cursors, puller: Log) {
    forall o: PeerId :: Base(server, o) <= At(their, o) <= Cursor(puller, o)
  }

  /** Cursors after the origins in `order` have been raised to the server's. */
  ghost predicate RaisedTo(puller: Log, next: Log, server: Log, order: seq<PeerId>) {
    forall o: PeerId ::
      && Cursor(next, o) == (if o in order then Max(Cursor(puller, o), Cursor(server, o)) else Cursor(puller, o))
      && Base(next, o) == Base(puller, o)
  }

  lemma RaiseOneMore(puller: Log, mid: Log, next: Log, server: Log, order: seq<PeerId>)
    requires order != [] && RaisedTo(puller, mid, server, order[..|order| - 1])
    requires Raised(mid, next, order[|order| - 1], Cursor(server, order[|order| - 1]))
    ensures RaisedTo(puller, next, server, order)
  {
    forall o: PeerId
      ensures Cursor(next, o) == (if o in order then Max(Cursor(puller, o), Cursor(server, o)) else Cursor(puller, o))
      ensures Base(next, o) == Base(puller, o)
    {
      assert o in order <==> o in order[..|order| - 1] || o == order[|order| - 1];
      assert Cursor(mid, o) >= Cursor(puller, o);
    }
  }

  lemma OriginRaises(truth: Truth, puller: Log, server: Log, their: Cursors, o: PeerId)
    requires TruthOk(truth) && LogOk(truth, puller) && LogOk(truth, server)
    requires Base(server, o) <= At(their, o) <= Cursor(puller, o)
    ensures var next := RecordMany(puller, DeltaFor(server, their, o));
      LogOk(truth, next) && Raised(puller, next, o, Cursor(server, o))
  {
    assert HoldsSlice(truth, server, o);
    DeltaStartsAtCursor(truth, server, their, o);
    if At(their, o) <= Cursor(server, o) {
      ChunkRaises(truth, puller, o, At(their, o), Cursor(server, o));
    }
  }

  /** Whatever order the server visits its origins in, each ends at the higher of the two cursors. */
  lemma {:induction false} DeltaRaises(truth: Truth, puller: Log, server: Log, their: Cursors, order: seq<PeerId>)
    requires TruthOk(truth) && LogOk(truth, puller) && LogOk(truth, server) && Reaches(server, their, puller)
    ensures var next := RecordMany(puller, DeltaIn(server, their, order));
      LogOk(truth, next) && RaisedTo(puller, next, server, order)
  {
    if order != [] {
      var rest, last := order[..|order| - 1], order[|order| - 1];
      var mid := RecordMany(puller, DeltaIn(server, their, rest));
      DeltaRaises(truth, puller, server, their, rest);
      RecordConcat(puller, DeltaIn(server, their, rest), DeltaFor(server, their, last));
      assert Base(server, last) <= At(their, last) <= Cursor(puller, last) <= Cursor(mid, last);
      OriginRaises(truth, mid, server, their, last);
      RaiseOneMore(puller, mid, RecordMany(mid, DeltaFor(server, their, last)), server, order);
    }
  }

  /** `next` has the higher of the two cursors for every origin, and the puller's bases. */
  ghost predicate Joined(puller: Log, server: Log, next: Log) {
    forall o: PeerId ::
      Cursor(next, o) == Max(Cursor(puller, o), Cursor(server, o)) && Base(next, o) == Base(puller, o)
  }

  /** One pull joins the puller's cursors with the server's. */
  lemma PullJoins(truth: Truth, puller: Log, server: Log, their: Cursors, order: seq<PeerId>)
    requires TruthOk(truth) && LogOk(truth, puller) && LogOk(truth, server) && Reaches(server, their, puller)
    requires Enumerates(order, server.observed.Keys)
    ensures var next := RecordMany(puller, DeltaIn(server, their, order));
      LogOk(truth, next) && Joined(puller, server, next)
  {
    var next := RecordMany(puller, DeltaIn(server, their, order));
    DeltaRaises(truth, puller, server, their, order);
    forall o: PeerId
      ensures Cursor(next, o) == Max(Cursor(puller, o), Cursor(server, o)) && Base(next, o) == Base(puller, o)
    {
      assert Base(server, o) <= Cursor(puller, o);
      assert o in order <==> o in server.observed;
    }
  }

  /** Applying true frames keeps a peer faithful, whatever their order. */
  lemma {:induction false} AbsorbedKeepsFaith(truth: Truth, s: State, frames: seq<Frame>, wall: nat)
    requires TruthOk(truth) && Faithful(truth, s) && forall f :: f in frames ==> IsTrue(truth, f)
    ensures Faithful(truth, Absorbed(s, frames, wall))
  {
    if frames != [] {
      AbsorbedKeepsFaith(truth, s, frames[..|frames| - 1], wall);
      ReceiveKeepsFaith(truth, Absorbed(s, frames[..|frames| - 1], wall), frames[|frames| - 1], wall);
    }
  }

  lemma ReceiveKeepsFaith(truth: Truth, s: State, f: Frame, wall: nat)
    requires TruthOk(truth) && Faithful(truth, s) && IsTrue(truth, f)
    ensures Faithful(truth, Received(s, f, wall, true, Stored).0)
  {
    if Classify(s.log, f) == Appended {
      DeliverKeepsFaith(truth, s, Received(s, f, wall, true, Stored).0, f);
    }
  }
}
