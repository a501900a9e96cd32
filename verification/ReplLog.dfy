/** The per-origin replication log: held suffixes, truncation bases and cursors. */
module ReplLog {
  import opened Bytes
  import opened Text
  import opened Clock
  import opened Wire
  import opened Collections

  type Cursors = map<PeerId, nat>

  datatype RecordOutcome =
    | Appended
    | Duplicate
    | Gap(expected: nat, got: nat)
    | Rejected
    | Unpersisted

  datatype Log = Log(observed: map<PeerId, seq<Frame>>, base: map<PeerId, nat>)

  const EMPTY := Log(map[], map[])

  function At(c: Cursors, origin: PeerId): nat {
    if origin in c then c[origin] else 0
  }

  function Base(log: Log, origin: PeerId): nat {
    if origin in log.base then log.base[origin] else 0
  }

  function Held(log: Log, origin: PeerId): seq<Frame> {
    if origin in log.observed then log.observed[origin] else []
  }

  /** Highest sequence number applied for `origin`, reclaimed frames included. */
  function Cursor(log: Log, origin: PeerId): nat {
    Base(log, origin) + |Held(log, origin)|
  }

  function CursorMap(log: Log): Cursors {
    map origin | origin in log.observed.Keys + log.base.Keys :: Cursor(log, origin)
  }

  function Classify(log: Log, f: Frame): RecordOutcome {
    var have := Cursor(log, f.stamp.peer);
    if f.seqno <= have then Duplicate
    else if f.seqno == have + 1 then Appended
    else Gap(have + 1, f.seqno)
  }

  function Recorded(log: Log, f: Frame): Log {
    if Classify(log, f) == Appended then
      log.(observed := log.observed[f.stamp.peer := Held(log, f.stamp.peer) + [f]])
    else log
  }

  /** The frames of `origin` that a peer with these cursors is missing. */
  function DeltaFor(log: Log, their: Cursors, origin: PeerId): seq<Frame> {
    var from := At(their, origin);
    var skip := if from <= Base(log, origin) then 0 else from - Base(log, origin);
    var held := Held(log, origin);
    held[if skip <= |held| then skip else |held|..]
  }

  /** The delta when the origins are visited in `order`. */
  function DeltaIn(log: Log, their: Cursors, order: seq<PeerId>): seq<Frame> {
    if order == [] then []
    else DeltaIn(log, their, order[..|order| - 1]) + DeltaFor(log, their, order[|order| - 1])
  }

  lemma DeltaOneMore(log: Log, their: Cursors, order: seq<PeerId>, origin: PeerId)
    ensures DeltaIn(log, their, order + [origin]) == DeltaIn(log, their, order) + DeltaFor(log, their, origin)
  {
    assert (order + [origin])[..|order|] == order;
  }

  function Dropped(log: Log, origin: PeerId, upTo: nat): (n: nat)
    ensures n <= |Held(log, origin)|
  {
    if upTo <= Base(log, origin) || origin !in log.observed then 0
    else if upTo - Base(log, origin) <= |log.observed[origin]| then upTo - Base(log, origin)
    else |log.observed[origin]|
  }

  function Cut(log: Log, origin: PeerId, upTo: nat): Log {
    if upTo <= Base(log, origin) || origin !in log.observed then log
    else
      var n := Dropped(log, origin, upTo);
      Log(log.observed[origin := log.observed[origin][n..]], log.base[origin := Base(log, origin) + n])
  }

  lemma CutAt(log: Log, origin: PeerId, upTo: nat, other: PeerId)
    ensures var t := Cut(log, origin, upTo);
      && Cursor(t, other) == Cursor(log, other)
      && Base(log, other) <= Base(t, other)
      && Base(t, other) == Base(log, other) + (if other == origin then Dropped(log, origin, upTo) else 0)
      && (other in t.observed <==> other in log.observed)
      && Held(t, other) == Held(log, other)[Base(t, other) - Base(log, other)..]
  {
  }

  /** `t` is `log` with the base of `origin` moved up to `base`. */
  predicate Rebased(log: Log, t: Log, origin: PeerId, base: nat) {
    && Cursor(t, origin) == Cursor(log, origin)
    && Base(log, origin) <= Base(t, origin) == base
    && (origin in t.observed <==> origin in log.observed)
    && Held(t, origin) == Held(log, origin)[base - Base(log, origin)..]
  }

  function RaisedBase(log: Log, origin: PeerId, mark: nat): nat {
    if origin in log.observed then Max(Base(log, origin), mark) else Base(log, origin)
  }

  lemma CutRebases(log: Log, t: Log, origin: PeerId, base: nat, last: PeerId, mark: nat)
    requires Rebased(log, t, origin, base)
    requires base == Base(log, origin) || base == RaisedBase(log, origin, mark)
    requires last == origin ==> mark <= Cursor(log, origin)
    ensures Rebased(log, Cut(t, last, mark), origin, if last == origin then RaisedBase(log, origin, mark) else base)
  {
    CutAt(t, last, mark, origin);
  }

  /** Truncation is invisible to the classification of incoming frames. */
  lemma TruncationKeepsClassification(log: Log, origin: PeerId, upTo: nat, f: Frame)
    ensures Classify(Cut(log, origin, upTo), f) == Classify(log, f)
  {
    CutAt(log, origin, upTo, f.stamp.peer);
  }

  function EntityFrames(frames: seq<Frame>, entity: Text): seq<Frame> {
    if frames == [] then []
    else
      var last := frames[|frames| - 1];
      EntityFrames(frames[..|frames| - 1], entity) + if last.key.entity == entity then [last] else []
  }

  /** An entity's held frames, origin by origin in `order`, each origin's in sequence. */
  function EntityFramesIn(log: Log, entity: Text, order: seq<PeerId>): seq<Frame> {
    if order == [] then []
    else
      EntityFramesIn(log, entity, order[..|order| - 1]) + EntityFrames(Held(log, order[|order| - 1]), entity)
  }

  lemma {:induction false} EntityFramesHas(frames: seq<Frame>, entity: Text, f: Frame)
    ensures f in EntityFrames(frames, entity) <==> f in frames && f.key.entity == entity
  {
    if frames != [] {
      EntityFramesHas(frames[..|frames| - 1], entity, f);
      assert frames == frames[..|frames| - 1] + [frames[|frames| - 1]];
    }
  }

  predicate InSequence(frames: seq<Frame>) {
    forall i, j :: 0 <= i < j < |frames| ==> frames[i].seqno < frames[j].seqno
  }

  /** They keep the order of their sequence numbers, and none is listed twice. */
  lemma {:induction false} EntityFramesAscend(frames: seq<Frame>, entity: Text)
    requires InSequence(frames)
    ensures InSequence(EntityFrames(frames, entity))
  {
    if frames != [] {
      var front, last := frames[..|frames| - 1], frames[|frames| - 1];
      EntityFramesAscend(front, entity);
      var found := EntityFrames(front, entity);
      forall i | 0 <= i < |found| ensures found[i].seqno < last.seqno {
        EntityFramesHas(front, entity, found[i]);
        var j :| 0 <= j < |front| && front[j] == found[i];
      }
    }
  }

  lemma {:induction false} EntityFramesInHas(log: Log, entity: Text, order: seq<PeerId>, f: Frame)
    ensures f in EntityFramesIn(log, entity, order) <==>
      f.key.entity == entity && exists i :: 0 <= i < |order| && f in Held(log, order[i])
  {
    if order != [] {
      var front, last := order[..|order| - 1], order[|order| - 1];
      EntityFramesInHas(log, entity, front, f);
      EntityFramesHas(Held(log, last), entity, f);
      if i :| 0 <= i < |order| && f in Held(log, order[i]) {
        assert i < |front| ==> front[i] == order[i];
      }
      if i :| 0 <= i < |front| && f in Held(log, front[i]) {
        assert order[i] == front[i];
      }
    }
  }

  class ReplicationLog {
    var observed: map<PeerId, seq<Frame>>
    var base: map<PeerId, nat>

    function View(): Log
      reads this
    {
      Log(observed, base)
    }

    constructor ()
      ensures View() == EMPTY
    {
      observed, base := map[], map[];
    }

    method Record(f: Frame) returns (outcome: RecordOutcome)
      modifies this
      ensures View() == Recorded(old(View()), f)
      ensures outcome == Classify(old(View()), f)
    {
      outcome := Classify(View(), f);
      if outcome == Appended {
        observed := observed[f.stamp.peer := Held(View(), f.stamp.peer) + [f]];
      }
    }

    method DeltaSince(their: Cursors) returns (out: seq<Frame>, order: seq<PeerId>)
      ensures Enumerates(order, observed.Keys)
      ensures out == DeltaIn(View(), their, order)
    {
      order := Listed(observed.Keys);
      out := [];
      for i := 0 to |order|
        invariant out == DeltaIn(View(), their, order[..i])
      {
        var origin := order[i];
        var held := observed[origin];
        var from := At(their, origin);
        var floor := Base(View(), origin);
        var skip := if from <= floor then 0 else from - floor;
        var start := if skip <= |held| then skip else |held|;
        out := out + held[start..];
        PrefixSnoc(order, i);
        DeltaOneMore(View(), their, order[..i], origin);
      }
      assert order[..|order|] == order;
    }

    method Truncate(origin: PeerId, upTo: nat) returns (dropped: nat)
      modifies this
      ensures View() == Cut(old(View()), origin, upTo)
      ensures dropped == Dropped(old(View()), origin, upTo)
      ensures dropped == Total(old(observed)) - Total(observed)
    {
      var floor := Base(View(), origin);
      if upTo <= floor || origin !in observed {
        return 0;
      }
      var held := observed[origin];
      dropped := if upTo - floor <= |held| then upTo - floor else |held|;
      TotalUpdate(observed, origin, held[dropped..]);
      observed := observed[origin := held[dropped..]];
      base := base[origin := floor + dropped];
    }

    method FramesForEntity(entity: Text) returns (out: seq<Frame>, order: seq<PeerId>)
      ensures Enumerates(order, observed.Keys)
      ensures out == EntityFramesIn(View(), entity, order)
    {
      out := [];
      order := Listed(observed.Keys);
      for i := 0 to |order|
        invariant out == EntityFramesIn(View(), entity, order[..i])
      {
        ghost var before := out;
        var held := observed[order[i]];
        for k := 0 to |held|
          invariant out == before + EntityFrames(held[..k], entity)
        {
          PrefixSnoc(held, k);
          if held[k].key.entity == entity {
            out := out + [held[k]];
          }
        }
        assert held[..|held|] == held;
        PrefixSnoc(order, i);
      }
      assert order[..|order|] == order;
    }
  }
}
