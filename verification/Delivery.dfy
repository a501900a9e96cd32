/** What a peer holds, measured against the one true log of every origin. */
module Delivery {
  import opened Bytes
  import opened Clock
  import opened Wire
  import opened Lww
  import opened ReplLog
  import opened Sync
  import opened Recovery

  /** Every origin's log as that origin wrote it. */
  type Truth = map<PeerId, seq<Frame>>

  function Of(truth: Truth, origin: PeerId): seq<Frame> {
    if origin in truth then truth[origin] else []
  }

  predicate IsTrue(truth: Truth, f: Frame) {
    var log := Of(truth, f.stamp.peer);
    1 <= f.seqno <= |log| && log[f.seqno - 1] == f
  }

  /** Sequence numbers run from 1 and stamps rise along each origin's log. */
  ghost predicate TruthOk(truth: Truth) {
    && (forall o: PeerId, i: nat :: i < |Of(truth, o)| ==> KeyOf(Of(truth, o)[i]) == (o, i + 1))
    && (forall o: PeerId, i: nat, j: nat :: i < j < |Of(truth, o)| ==>
          HlcLess(Of(truth, o)[i].stamp.hlc, Of(truth, o)[j].stamp.hlc))
  }

  /** What the log holds of an origin is the slice (base, cursor] of its true log. */
  predicate HoldsSlice(truth: Truth, log: Log, o: PeerId) {
    && Cursor(log, o) <= |Of(truth, o)|
    && Held(log, o) == Of(truth, o)[Base(log, o)..Cursor(log, o)]
  }

  ghost predicate LogOk(truth: Truth, log: Log) {
    forall o: PeerId :: HoldsSlice(truth, log, o)
  }

  /** `f` has been delivered through `log`. */
  predicate Got(truth: Truth, log: Log, f: Frame) {
    IsTrue(truth, f) && f.seqno <= Cursor(log, f.stamp.peer)
  }

  /** `f` is the delivered write with the highest stamp on its record. */
  ghost predicate IsWinner(truth: Truth, log: Log, key: Key, f: Frame) {
    && Got(truth, log, f) && f.key == key
    && forall g :: Got(truth, log, g) && g.key == key ==> StampAtMost(g.stamp, f.stamp)
  }

  /** The cell stands for `f`: it stores it, or it is a collected tombstone of it. */
  predicate Reflects(c: Cell, f: Frame) {
    || (c.current == Some(Stamped(f)) && (c.floor.None? || StampLess(c.floor.value, f.stamp)))
    || (c.current.None? && c.floor == Some(f.stamp) && f.op == Delete)
  }

  ghost predicate CellOk(truth: Truth, log: Log, key: Key, c: Cell) {
    || (c == Lww.EMPTY && forall g :: Got(truth, log, g) ==> g.key != key)
    || exists f :: IsWinner(truth, log, key, f) && Reflects(c, f)
  }

  /** The log is a slice of the truth and every cell reflects the winner of what was delivered. */
  ghost predicate Faithful(truth: Truth, s: State) {
    LogOk(truth, s.log) && forall key :: CellOk(truth, s.log, key, CellAt(s.cells, key))
  }

  /** No two true frames share a stamp. */
  lemma StampsDistinct(truth: Truth, f: Frame, g: Frame)
    requires TruthOk(truth) && IsTrue(truth, f) && IsTrue(truth, g) && f.stamp == g.stamp
    ensures f == g
  {
    var log, i, j := Of(truth, f.stamp.peer), f.seqno - 1, g.seqno - 1;
    assert i < j ==> HlcLess(log[i].stamp.hlc, log[j].stamp.hlc);
    assert j < i ==> HlcLess(log[j].stamp.hlc, log[i].stamp.hlc);
  }

  lemma WinnerUnique(truth: Truth, log: Log, key: Key, f: Frame, g: Frame)
    requires TruthOk(truth) && IsWinner(truth, log, key, f) && IsWinner(truth, log, key, g)
    ensures f == g
  {
    StampTotal(f.stamp, g.stamp);
    StampsDistinct(truth, f, g);
  }

  /** The log after recording the next frame of an origin. */
  predicate OneMore(log: Log, next: Log, f: Frame) {
    f.seqno == Cursor(log, f.stamp.peer) + 1 && next == Recorded(log, f)
  }

  lemma CursorOneMore(log: Log, next: Log, f: Frame, o: PeerId)
    requires OneMore(log, next, f)
    ensures Cursor(next, o) == Cursor(log, o) + if o == f.stamp.peer then 1 else 0
    ensures Base(next, o) == Base(log, o)
    ensures Held(next, o) == Held(log, o) + if o == f.stamp.peer then [f] else []
  {
  }

  lemma GotOneMore(truth: Truth, log: Log, next: Log, f: Frame, g: Frame)
    requires IsTrue(truth, f) && OneMore(log, next, f)
    ensures Got(truth, next, g) <==> Got(truth, log, g) || g == f
  {
    CursorOneMore(log, next, f, g.stamp.peer);
  }

  lemma WinnerOneMore(truth: Truth, log: Log, next: Log, f: Frame, key: Key, w: Frame)
    requires IsTrue(truth, f) && OneMore(log, next, f)
    requires IsWinner(truth, log, key, w) && (f.key == key ==> StampLess(f.stamp, w.stamp))
    ensures IsWinner(truth, next, key, w)
  {
    GotOneMore(truth, log, next, f, w);
    forall g | Got(truth, next, g) && g.key == key ensures StampAtMost(g.stamp, w.stamp) {
      GotOneMore(truth, log, next, f, g);
    }
  }

  lemma NewWinner(truth: Truth, log: Log, next: Log, f: Frame)
    requires IsTrue(truth, f) && OneMore(log, next, f)
    requires forall g :: Got(truth, log, g) && g.key == f.key ==> StampLess(g.stamp, f.stamp)
    ensures IsWinner(truth, next, f.key, f)
  {
    GotOneMore(truth, log, next, f, f);
    forall g | Got(truth, next, g) && g.key == f.key ensures StampAtMost(g.stamp, f.stamp) {
      GotOneMore(truth, log, next, f, g);
    }
  }

  /** A cell of another record is untouched by a delivery. */
  lemma OtherCellOneMore(truth: Truth, log: Log, next: Log, f: Frame, key: Key, c: Cell)
    requires IsTrue(truth, f) && OneMore(log, next, f) && f.key != key
    requires CellOk(truth, log, key, c)
    ensures CellOk(truth, next, key, c)
  {
    if w :| IsWinner(truth, log, key, w) && Reflects(c, w) {
      WinnerOneMore(truth, log, next, f, key, w);
    } else {
      forall g | Got(truth, next, g) ensures g.key != key {
        GotOneMore(truth, log, next, f, g);
      }
    }
  }

  lemma ReflectsMerge(c: Cell, w: Frame, f: Frame)
    requires Reflects(c, w) && f.stamp != w.stamp && f.key == w.key
    ensures if StampLess(w.stamp, f.stamp) then Reflects(MergeCell(c, Stamped(f)), f)
            else StampLess(f.stamp, w.stamp) && Reflects(MergeCell(c, Stamped(f)), w)
  {
    StampTotal(f.stamp, w.stamp);
    if c.floor.Some? {
      StampTotal(f.stamp, c.floor.value);
    }
  }

  lemma StampChain(a: Stamp, b: Stamp, c: Stamp)
    requires StampAtMost(a, b) && StampLess(b, c)
    ensures StampLess(a, c)
  {
  }

  /** Merging the next frame keeps its cell the reflection of the winner. */
  lemma MergedCellOneMore(truth: Truth, log: Log, next: Log, f: Frame, c: Cell)
    requires TruthOk(truth) && IsTrue(truth, f) && OneMore(log, next, f)
    requires CellOk(truth, log, f.key, c)
    ensures CellOk(truth, next, f.key, MergeCell(c, Stamped(f)))
  {
    if w :| IsWinner(truth, log, f.key, w) && Reflects(c, w) {
      assert f.stamp != w.stamp by {
        if f.stamp == w.stamp { StampsDistinct(truth, f, w); }
      }
      ReflectsMerge(c, w, f);
      if StampLess(w.stamp, f.stamp) {
        forall g | Got(truth, log, g) && g.key == f.key ensures StampLess(g.stamp, f.stamp) {
          StampChain(g.stamp, w.stamp, f.stamp);
        }
        NewWinner(truth, log, next, f);
      } else {
        WinnerOneMore(truth, log, next, f, f.key, w);
      }
    } else {
      NewWinner(truth, log, next, f);
      assert Reflects(MergeCell(c, Stamped(f)), f);
    }
  }

  lemma SliceSnoc<T>(s: seq<T>, a: nat, b: nat)
    requires a <= b < |s|
    ensures s[a..b] + [s[b]] == s[a..b + 1]
  {
  }

  lemma SliceOneMore(truth: Truth, log: Log, next: Log, f: Frame, o: PeerId)
    requires HoldsSlice(truth, log, o) && IsTrue(truth, f) && OneMore(log, next, f)
    ensures HoldsSlice(truth, next, o)
  {
    CursorOneMore(log, next, f, o);
    if o == f.stamp.peer {
      SliceSnoc(Of(truth, o), Base(log, o), Cursor(log, o));
    }
  }

  /** Recording and merging the next frame of an origin keeps a peer faithful. */
  lemma DeliverKeepsFaith(truth: Truth, s: State, t: State, f: Frame)
    requires TruthOk(truth) && Faithful(truth, s) && IsTrue(truth, f) && OneMore(s.log, t.log, f)
    requires t.cells == Merged(s.cells, Stamped(f))
    ensures Faithful(truth, t)
  {
    forall o: PeerId ensures HoldsSlice(truth, t.log, o) {
      SliceOneMore(truth, s.log, t.log, f, o);
    }
    forall key ensures CellOk(truth, t.log, key, CellAt(t.cells, key)) {
      assert CellOk(truth, s.log, key, CellAt(s.cells, key));
      if key == f.key {
        MergedCellOneMore(truth, s.log, t.log, f, CellAt(s.cells, key));
      } else {
        OtherCellOneMore(truth, s.log, t.log, f, key, CellAt(s.cells, key));
      }
    }
  }

  /** Collecting a tombstone forgets its content, not its stamp. */
  lemma CollectKeepsFaith(truth: Truth, s: State, key: Key)
    requires Faithful(truth, s)
    ensures Faithful(truth, s.(cells := Collected(s.cells, key)))
  {
    var t := s.(cells := Collected(s.cells, key));
    forall k ensures CellOk(truth, t.log, k, CellAt(t.cells, k)) {
      var c := CellAt(s.cells, k);
      assert CellOk(truth, s.log, k, c);
      if k == key && k in s.cells && IsTombstone(c) {
        var w :| IsWinner(truth, s.log, k, w) && Reflects(c, w);
        StampTotal(w.stamp, if c.floor.Some? then c.floor.value else w.stamp);
        assert Reflects(CollectCell(c), w);
      }
    }
  }

  /** Only the set of delivered frames matters to a cell. */
  lemma SameDeliverySameCell(truth: Truth, log: Log, truth': Truth, log': Log, key: Key, c: Cell)
    requires forall g: Frame :: Got(truth, log, g) <==> Got(truth', log', g)
    requires CellOk(truth, log, key, c)
    ensures CellOk(truth', log', key, c)
  {
    if w :| IsWinner(truth, log, key, w) && Reflects(c, w) {
      assert IsWinner(truth', log', key, w);
    }
  }

  lemma SameCursorsSameDelivery(truth: Truth, log: Log, other: Log)
    requires forall o: PeerId :: Cursor(log, o) == Cursor(other, o)
    ensures forall g: Frame :: Got(truth, log, g) <==> Got(truth, other, g)
  {
  }

  lemma ReflectionShown(c: Cell, w: Frame)
    requires Reflects(c, w)
    ensures Shown(c) == if w.op == Delete then None else Some((w.data, w.stamp.peer))
  {
  }

  /** Cells that reflect the same deliveries show the same record and author. */
  lemma SameDeliverySameView(truth: Truth, log: Log, key: Key, c: Cell, d: Cell)
    requires TruthOk(truth) && CellOk(truth, log, key, c) && CellOk(truth, log, key, d)
    ensures Shown(c) == Shown(d)
  {
    if w :| IsWinner(truth, log, key, w) && Reflects(c, w) {
      var v :| IsWinner(truth, log, key, v) && Reflects(d, v);
      WinnerUnique(truth, log, key, w, v);
      ReflectionShown(c, w);
      ReflectionShown(d, w);
    }
  }

  /** Faithful peers with equal cursors agree on the content and author of every record. */
  lemma FaithfulPeersAgree(truth: Truth, s: State, t: State, key: Key)
    requires TruthOk(truth) && Faithful(truth, s) && Faithful(truth, t)
    requires forall o: PeerId :: Cursor(s.log, o) == Cursor(t.log, o)
    ensures Visible(s.cells, key) == Visible(t.cells, key)
  {
    assert CellOk(truth, s.log, key, CellAt(s.cells, key)) && CellOk(truth, t.log, key, CellAt(t.cells, key));
    SameCursorsSameDelivery(truth, t.log, s.log);
    SameDeliverySameCell(truth, t.log, truth, s.log, key, CellAt(t.cells, key));
    SameDeliverySameView(truth, s.log, key, CellAt(s.cells, key), CellAt(t.cells, key));
  }

  lemma RebasedSlice(truth: Truth, log: Log, t: Log, o: PeerId, base: nat)
    requires HoldsSlice(truth, log, o) && Rebased(log, t, o, base)
    ensures HoldsSlice(truth, t, o)
  {
  }

  /** Moving bases only, as reclamation does, keeps a peer faithful. */
  lemma RebaseKeepsFaith(truth: Truth, s: State, log: Log)
    requires Faithful(truth, s)
    requires forall o: PeerId :: Rebased(s.log, log, o, Base(log, o))
    ensures Faithful(truth, s.(log := log))
  {
    forall o: PeerId ensures HoldsSlice(truth, log, o) {
      RebasedSlice(truth, s.log, log, o, Base(log, o));
    }
    SameCursorsSameDelivery(truth, s.log, log);
    forall key ensures CellOk(truth, log, key, CellAt(s.cells, key)) {
      SameDeliverySameCell(truth, s.log, truth, log, key, CellAt(s.cells, key));
    }
  }

  /** The truth once `f` has been written. */
  function Longer(truth: Truth, f: Frame): Truth {
    truth[f.stamp.peer := Of(truth, f.stamp.peer) + [f]]
  }

  /** Every true log of `truth` is a prefix of the one in `later`. */
  ghost predicate Prolongs(truth: Truth, later: Truth) {
    forall o: PeerId :: Of(truth, o) <= Of(later, o)
  }

  lemma SameDeliveryLater(truth: Truth, later: Truth, log: Log, g: Frame)
    requires Prolongs(truth, later) && LogOk(truth, log)
    ensures Got(truth, log, g) <==> Got(later, log, g)
  {
    assert HoldsSlice(truth, log, g.stamp.peer);
    assert Of(truth, g.stamp.peer) <= Of(later, g.stamp.peer);
  }

  lemma SliceLater(truth: Truth, later: Truth, log: Log, o: PeerId)
    requires Of(truth, o) <= Of(later, o) && HoldsSlice(truth, log, o)
    ensures HoldsSlice(later, log, o)
  {
  }

  /** Writes that have not arrived yet do not matter: a faithful peer stays faithful as origins write on. */
  lemma FaithfulLater(truth: Truth, later: Truth, s: State)
    requires Prolongs(truth, later) && Faithful(truth, s)
    ensures Faithful(later, s)
  {
    forall o: PeerId ensures HoldsSlice(later, s.log, o) {
      SliceLater(truth, later, s.log, o);
    }
    forall g: Frame ensures Got(truth, s.log, g) <==> Got(later, s.log, g) {
      SameDeliveryLater(truth, later, s.log, g);
    }
    forall key ensures CellOk(later, s.log, key, CellAt(s.cells, key)) {
      SameDeliverySameCell(truth, s.log, later, s.log, key, CellAt(s.cells, key));
    }
  }

  lemma LongerProlongs(truth: Truth, f: Frame)
    ensures Prolongs(truth, Longer(truth, f))
  {
  }

  lemma LongerKeepsTruth(truth: Truth, f: Frame)
    requires TruthOk(truth) && f.seqno == |Of(truth, f.stamp.peer)| + 1
    requires forall g :: g in Of(truth, f.stamp.peer) ==> HlcLess(g.stamp.hlc, f.stamp.hlc)
    ensures TruthOk(Longer(truth, f)) && IsTrue(Longer(truth, f), f)
    ensures forall g: Frame :: IsTrue(truth, g) ==> IsTrue(Longer(truth, f), g)
  {
    var next := Longer(truth, f);
    forall o: PeerId, i: nat | i < |Of(next, o)| ensures KeyOf(Of(next, o)[i]) == (o, i + 1) {
      LongerAt(truth, f, o, i);
    }
    forall o: PeerId, i: nat, j: nat | i < j < |Of(next, o)|
      ensures HlcLess(Of(next, o)[i].stamp.hlc, Of(next, o)[j].stamp.hlc)
    {
      LongerAt(truth, f, o, i);
      LongerAt(truth, f, o, j);
    }
    LongerAt(truth, f, f.stamp.peer, f.seqno - 1);
  }

  lemma LongerAt(truth: Truth, f: Frame, o: PeerId, i: nat)
    requires i < |Of(Longer(truth, f), o)|
    ensures if i < |Of(truth, o)| then Of(Longer(truth, f), o)[i] == Of(truth, o)[i]
            else o == f.stamp.peer && i == |Of(truth, o)| && Of(Longer(truth, f), o)[i] == f
  {
  }

  /** The elements numbered `from + 1` to `to`, if there are any. */
  function Slice<T>(s: seq<T>, from: nat, to: nat): seq<T> {
    if from <= to <= |s| then s[from..to] else []
  }

  /** What a faithful log serves to a peer it still reaches: exactly the frames after that peer's cursor. */
  lemma DeltaStartsAtCursor(truth: Truth, log: Log, their: Cursors, o: PeerId)
    requires HoldsSlice(truth, log, o) && Base(log, o) <= At(their, o)
    ensures DeltaFor(log, their, o)
         == Slice(Of(truth, o), At(their, o), Cursor(log, o))
  {
  }

  lemma CursorMapAt(log: Log, o: PeerId)
    ensures At(CursorMap(log), o) == Cursor(log, o)
  {
  }
}
