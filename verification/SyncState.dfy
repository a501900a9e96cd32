/** One peer's sync state: clock, replication log, conflict resolution, persistence and events. */
module Sync {
  import opened Bytes
  import opened Clock
  import opened Wire
  import opened Lww
  import opened ReplLog
  import opened Collections

  /** Durable frames by origin and sequence number. */
  type Disk = map<(PeerId, nat), Frame>

  /** What an append did: it can also fail after the frame reached the keyspace. */
  datatype AppendResult = Stored | Lost | Torn

  datatype WriteError = Refused(error: WireError) | Persist

  datatype Event = Event(op: Op, key: Key, data: Option<seq<byte>>, local: bool)

  datatype State = State(
    id: PeerId,
    clock: Hlc,
    log: Log,
    cells: Cells,
    reports: map<PeerId, Cursors>,
    disk: Option<Disk>,
    events: seq<Event>)

  function Fresh(id: PeerId): State {
    State(id, Hlc(0, 0), ReplLog.EMPTY, map[], map[], None, [])
  }

  function DiskAfter(disk: Option<Disk>, f: Frame, io: AppendResult): Option<Disk> {
    if disk.None? || io == Lost then disk else Some(disk.value[(f.stamp.peer, f.seqno) := f])
  }

  /** Without a persister every frame counts as persisted. */
  predicate Persists(disk: Option<Disk>, io: AppendResult) {
    disk.None? || io == Stored
  }

  function EventFor(f: Frame, local: bool): Event {
    Event(f.op, f.key, if f.op == Delete then None else Some(f.data), local)
  }

  /** The frame a local write builds. */
  function NewFrame(s: State, wall: nat, op: Op, key: Key, data: seq<byte>, sig: Option<Signature>): Frame {
    Frame(Stamp(Ticked(s.clock, wall), s.id), Cursor(s.log, s.id) + 1, op, key, data, sig)
  }

  function Written(s: State, wall: nat, op: Op, key: Key, data: seq<byte>, sig: Option<Signature>, io: AppendResult)
    : (State, Result<Frame, WriteError>)
  {
    match LengthError(key, data)
    case Some(error) => (s, Err(Refused(error)))
    case None =>
      var f := NewFrame(s, wall, op, key, data, sig);
      var t := s.(clock := Ticked(s.clock, wall), disk := DiskAfter(s.disk, f, io));
      if !Persists(s.disk, io) then (t, Err(Persist))
      else
        (t.(log := Recorded(s.log, f), cells := Merged(s.cells, Stamped(f)), events := s.events + [EventFor(f, true)]),
         Ok(f))
  }

  /** Record a frame that is in order and merge it, telling subscribers if it won. */
  function Accepted(s: State, f: Frame): State {
    var won := Outcome(CellAt(s.cells, f.key), Stamped(f)) == Applied;
    s.(log := Recorded(s.log, f), cells := Merged(s.cells, Stamped(f)),
       events := if won then s.events + [EventFor(f, false)] else s.events)
  }

  function Received(s: State, f: Frame, wall: nat, verified: bool, io: AppendResult): (State, RecordOutcome) {
    if !verified then (s, Rejected)
    else
      var t := s.(clock := Observed(s.clock, f.stamp.hlc, wall));
      if Classify(s.log, f) != Appended then (t, Classify(s.log, f))
      else
        var u := t.(disk := DiskAfter(s.disk, f, io));
        if !Persists(s.disk, io) then (u, Unpersisted) else (Accepted(u, f), Appended)
  }

  function Replayed(s: State, f: Frame): State {
    var t := s.(clock := Observed(s.clock, f.stamp.hlc, f.stamp.hlc.physical));
    if Classify(s.log, f) == Appended then
      t.(log := Recorded(s.log, f), cells := Merged(s.cells, Stamped(f)))
    else t
  }

  function ReplayedAll(s: State, frames: seq<Frame>): State {
    if frames == [] then s
    else Replayed(ReplayedAll(s, frames[..|frames| - 1]), frames[|frames| - 1])
  }

  /** `with_persister`: rebuild from the persisted frames, then keep persisting. */
  function Reopened(id: PeerId, disk: Disk, load: seq<Frame>): State {
    ReplayedAll(Fresh(id), load).(disk := Some(disk))
  }

  function Report(reports: map<PeerId, Cursors>, member: PeerId, origin: PeerId): nat {
    if member in reports then At(reports[member], origin) else 0
  }

  /** Lowest cursor for `origin` among this peer and the listed members. */
  function LowWater(s: State, members: seq<PeerId>, origin: PeerId): nat {
    if members == [] then Cursor(s.log, origin)
    else
      var rest := LowWater(s, members[..|members| - 1], origin);
      var m := members[|members| - 1];
      if m == s.id || rest <= Report(s.reports, m, origin) then rest else Report(s.reports, m, origin)
  }

  lemma {:induction false} LowWaterBound(s: State, members: seq<PeerId>, origin: PeerId)
    ensures LowWater(s, members, origin) <= Cursor(s.log, origin)
    ensures forall m :: m in members && m != s.id ==> LowWater(s, members, origin) <= Report(s.reports, m, origin)
  {
    if members != [] {
      LowWaterBound(s, members[..|members| - 1], origin);
      assert members == members[..|members| - 1] + [members[|members| - 1]];
    }
  }

  /** This peer has applied frame `k` of the origin, and every other listed member has reported that it has. */
  predicate AllHave(s: State, members: seq<PeerId>, origin: PeerId, k: nat) {
    && k <= Cursor(s.log, origin)
    && forall m :: m in members && m != s.id ==> m in s.reports && k <= At(s.reports[m], origin)
  }

  /** The mark is as high as it can be: it covers exactly the frames that all have. */
  lemma {:induction false} LowWaterExactly(s: State, members: seq<PeerId>, origin: PeerId, k: nat)
    requires k > 0
    ensures k <= LowWater(s, members, origin) <==> AllHave(s, members, origin, k)
  {
    if members != [] {
      LowWaterExactly(s, members[..|members| - 1], origin, k);
      assert members == members[..|members| - 1] + [members[|members| - 1]];
    }
  }

  /** The log once the origins in `order` have been cut at their low-water marks. */
  function CutAll(s: State, members: seq<PeerId>, order: seq<PeerId>): Log {
    if order == [] then s.log
    else
      var origin := order[|order| - 1];
      Cut(CutAll(s, members, order[..|order| - 1]), origin, LowWater(s, members, origin))
  }

  function Reclaimed(s: State, members: seq<PeerId>, order: seq<PeerId>): State {
    s.(log := CutAll(s, members, order))
  }

  /** Reclaiming moves each visited base up to the low-water mark; cursors stay. */
  lemma {:induction false} ReclaimedAt(s: State, members: seq<PeerId>, order: seq<PeerId>, origin: PeerId)
    ensures Rebased(s.log, CutAll(s, members, order), origin,
              if origin in order then RaisedBase(s.log, origin, LowWater(s, members, origin)) else Base(s.log, origin))
  {
    if order != [] {
      var rest, last := order[..|order| - 1], order[|order| - 1];
      ReclaimedAt(s, members, rest, origin);
      assert origin in order <==> origin in rest || origin == last;
      var base :=
        if origin in rest then RaisedBase(s.log, origin, LowWater(s, members, origin)) else Base(s.log, origin);
      LowWaterBound(s, members, origin);
      if last == origin {
        CutRebases(s.log, CutAll(s, members, rest), origin, base, last, LowWater(s, members, last));
      } else {
        CutAt(CutAll(s, members, rest), last, LowWater(s, members, last), origin);
      }
    }
  }

  /** Of a visited origin's held frames, a reclaim drops exactly those that all have. */
  lemma ReclaimFreesExactly(s: State, members: seq<PeerId>, order: seq<PeerId>, origin: PeerId, k: nat)
    requires origin in order && origin in s.log.observed && Base(s.log, origin) < k <= Cursor(s.log, origin)
    ensures k <= Base(Reclaimed(s, members, order).log, origin) <==> AllHave(s, members, origin, k)
  {
    ReclaimedAt(s, members, order, origin);
    LowWaterExactly(s, members, origin, k);
  }

  /** If all have the whole of an origin, none of it is held any more. */
  lemma AllOfItIsFreed(s: State, members: seq<PeerId>, order: seq<PeerId>, origin: PeerId)
    requires origin in order && origin in s.log.observed && AllHave(s, members, origin, Cursor(s.log, origin))
    ensures var t := Reclaimed(s, members, order).log;
      Held(t, origin) == [] && Cursor(t, origin) == Cursor(s.log, origin)
  {
    ReclaimedAt(s, members, order, origin);
    if Base(s.log, origin) < Cursor(s.log, origin) {
      ReclaimFreesExactly(s, members, order, origin, Cursor(s.log, origin));
    }
  }

  class SyncState {
    const id: PeerId
    const clock: HybridClock
    const log: ReplicationLog
    const applier: Applier
    var peerCursors: map<PeerId, Cursors>
    var disk: Option<Disk>
    var events: seq<Event>

    function View(): State
      reads this, clock, log, applier
    {
      State(id, clock.Now(), log.View(), applier.cells, peerCursors, disk, events)
    }

    constructor (self: PeerId)
      ensures View() == Fresh(self)
      ensures fresh(clock) && fresh(log) && fresh(applier)
    {
      id := self;
      clock := new HybridClock();
      log := new ReplicationLog();
      applier := new Applier();
      peerCursors, disk, events := map[], None, [];
    }

    method NotePeerCursors(peer: PeerId, cursors: Cursors)
      modifies this`peerCursors
      ensures View() == old(View()).(reports := old(peerCursors)[peer := cursors])
    {
      peerCursors := peerCursors[peer := cursors];
    }

    method LocalWrite(wall: nat, op: Op, key: Key, data: seq<byte>, sig: Option<Signature>, io: AppendResult)
      returns (result: Result<Frame, WriteError>)
      modifies this, clock, log, applier
      ensures (View(), result) == Written(old(View()), wall, op, key, data, sig, io)
    {
      if LengthError(key, data).Some? {
        return Err(Refused(LengthError(key, data).value));
      }
      var hlc := clock.Tick(wall);
      var f := Frame(Stamp(hlc, id), Cursor(log.View(), id) + 1, op, key, data, sig);
      var persisted := PersistFrame(f, io);
      if !persisted {
        return Err(Persist);
      }
      var _ := log.Record(f);
      var _ := applier.Merge(Stamped(f));
      Emit(f, true);
      return Ok(f);
    }

    method Receive(f: Frame, wall: nat, verified: bool, io: AppendResult) returns (outcome: RecordOutcome)
      modifies this, clock, log, applier
      ensures (View(), outcome) == Received(old(View()), f, wall, verified, io)
    {
      if !verified {
        return Rejected;
      }
      var _ := clock.Observe(f.stamp.hlc, wall);
      outcome := Classify(log.View(), f);
      if outcome != Appended {
        return;
      }
      var persisted := PersistFrame(f, io);
      if !persisted {
        return Unpersisted;
      }
      var _ := log.Record(f);
      var merge := applier.Merge(Stamped(f));
      if merge == Applied {
        Emit(f, false);
      }
    }

    method Replay(f: Frame)
      modifies clock, log, applier
      ensures View() == Replayed(old(View()), f)
    {
      var _ := clock.Observe(f.stamp.hlc, f.stamp.hlc.physical);
      var outcome := log.Record(f);
      if outcome == Appended {
        var _ := applier.Merge(Stamped(f));
      }
    }

    method ReplayLoad(load: seq<Frame>)
      modifies clock, log, applier
      ensures View() == ReplayedAll(old(View()), load)
    {
      ghost var start := View();
      for i := 0 to |load|
        invariant View() == ReplayedAll(start, load[..i])
      {
        PrefixSnoc(load, i);
        Replay(load[i]);
      }
      assert load[..|load|] == load;
    }

    method PersistFrame(f: Frame, io: AppendResult) returns (ok: bool)
      modifies this`disk
      ensures disk == DiskAfter(old(disk), f, io)
      ensures ok == Persists(old(disk), io)
    {
      if disk.None? {
        return true;
      }
      if io != Lost {
        disk := Some(disk.value[(f.stamp.peer, f.seqno) := f]);
      }
      return io == Stored;
    }

    method Emit(f: Frame, local: bool)
      modifies this`events
      ensures events == old(events) + [EventFor(f, local)]
    {
      var data := if f.op == Delete then None else Some(f.data);
      events := events + [Event(f.op, f.key, data, local)];
    }

    method Reclaim(members: seq<PeerId>) returns (dropped: nat, order: seq<PeerId>)
      modifies log
      ensures Enumerates(order, CursorMap(old(log.View())).Keys)
      ensures View() == Reclaimed(old(View()), members, order)
      ensures dropped == Total(old(log.observed)) - Total(log.observed)
    {
      ghost var start := View();
      dropped := 0;
      order := Listed(CursorMap(log.View()).Keys);
      for i := 0 to |order|
        invariant log.View() == CutAll(start, members, order[..i])
        invariant dropped == Total(start.log.observed) - Total(log.observed)
      {
        var origin := order[i];
        assert Cursor(log.View(), origin) == Cursor(start.log, origin) by {
          ReclaimedAt(start, members, order[..i], origin);
        }
        var lwm := LowWaterMark(start, members, origin);
        assert CutAll(start, members, order[..i + 1]) == Cut(log.View(), origin, lwm) by {
          PrefixSnoc(order, i);
        }
        if lwm > 0 {
          var n := log.Truncate(origin, lwm);
          dropped := dropped + n;
        }
      }
      assert order[..|order|] == order;
    }

    method LowWaterMark(ghost start: State, members: seq<PeerId>, origin: PeerId) returns (lwm: nat)
      requires start.id == id && start.reports == peerCursors
      requires Cursor(start.log, origin) == Cursor(log.View(), origin)
      ensures lwm == LowWater(start, members, origin)
    {
      lwm := Cursor(log.View(), origin);
      for i := 0 to |members|
        invariant lwm == LowWater(start, members[..i], origin)
      {
        PrefixSnoc(members, i);
        var member := members[i];
        if member == id {
          continue;
        }
        var cursor := Report(peerCursors, member, origin);
        lwm := if lwm <= cursor then lwm else cursor;
      }
      assert members[..|members|] == members;
    }

    method CollectTombstone(key: Key) returns (collected: bool)
      modifies applier
      ensures View() == old(View()).(cells := Collected(old(applier.cells), key))
      ensures collected <==> key in old(applier.cells) && IsTombstone(old(applier.cells)[key])
    {
      collected := applier.CollectTombstone(key);
    }
  }
}
