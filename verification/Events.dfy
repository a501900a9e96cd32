/** The event stream of one peer replays to its visible records. */
module Events {
  import opened Bytes
  import opened Clock
  import opened Wire
  import opened Lww
  import opened ReplLog
  import opened Sync

  /** The clock is at or above every stamp and collection floor in the cells. */
  ghost predicate Dominates(s: State) {
    forall key :: key in s.cells ==> CellBelow(s.cells[key], s.clock)
  }

  function VisibleMap(cells: Cells): map<Key, seq<byte>> {
    map key | key in cells && Shown(cells[key]).Some? :: Shown(cells[key]).value.0
  }

  /** What a subscriber does with one event. */
  function ApplyEvent(m: map<Key, seq<byte>>, e: Event): map<Key, seq<byte>> {
    match e.data
    case None => m - {e.key}
    case Some(data) => m[e.key := data]
  }

  function Fold(m: map<Key, seq<byte>>, events: seq<Event>): map<Key, seq<byte>> {
    if events == [] then m else ApplyEvent(Fold(m, events[..|events| - 1]), events[|events| - 1])
  }

  datatype Action =
    | Write(wall: nat, op: Op, key: Key, data: seq<byte>, sig: Option<Signature>, io: AppendResult)
    | Receive(frame: Frame, at: nat, verified: bool, store: AppendResult)
    | Collect(tombstone: Key)
    | Reclaim(members: seq<PeerId>, order: seq<PeerId>)
    | Note(peer: PeerId, cursors: Cursors)

  function Act(s: State, a: Action): State {
    match a
    case Write(wall, op, key, data, sig, io) => Written(s, wall, op, key, data, sig, io).0
    case Receive(f, wall, verified, io) => Received(s, f, wall, verified, io).0
    case Collect(key) => s.(cells := Collected(s.cells, key))
    case Reclaim(members, order) => Reclaimed(s, members, order)
    case Note(peer, cursors) => s.(reports := s.reports[peer := cursors])
  }

  /** The action does not wrap the clock's 32-bit counter. */
  predicate HasRoom(s: State, a: Action) {
    match a
    case Write(wall, _, _, _, _, _) => !TickOverflows(s.clock, wall)
    case Receive(f, wall, verified, _) => verified ==> !ObserveOverflows(s.clock, f.stamp.hlc, wall)
    case _ => true
  }

  function Run(s: State, actions: seq<Action>): State {
    if actions == [] then s else Act(Run(s, actions[..|actions| - 1]), actions[|actions| - 1])
  }

  predicate HasRoomThroughout(s: State, actions: seq<Action>) {
    forall i :: 0 <= i < |actions| ==> HasRoom(Run(s, actions[..i]), actions[i])
  }

  /** A merge either leaves the visible records alone or does what its event says. */
  lemma MergeIsItsEvent(cells: Cells, f: Frame, local: bool)
    ensures var won := Outcome(CellAt(cells, f.key), Stamped(f)) == Applied;
      VisibleMap(Merged(cells, Stamped(f)))
      == if won then ApplyEvent(VisibleMap(cells), EventFor(f, local)) else VisibleMap(cells)
  {
  }

  lemma MergeKeepsDomination(s: State, f: Frame, clock: Hlc)
    requires Dominates(s) && HlcAtMost(s.clock, clock) && HlcAtMost(f.stamp.hlc, clock)
    ensures Dominates(s.(cells := Merged(s.cells, Stamped(f)), clock := clock))
  {
  }

  /** A stamp above the whole cell always wins. */
  lemma FreshStampWins(c: Cell, clock: Hlc, w: Lww.Write)
    requires CellBelow(c, clock) && HlcLess(clock, w.stamp.hlc)
    ensures Outcome(c, w) == Applied
  {
  }

  lemma CollectIsSilent(cells: Cells, key: Key)
    ensures VisibleMap(Collected(cells, key)) == VisibleMap(cells)
  {
  }

  /** A local write that is accepted is visible at once, under its author's name. */
  lemma LocalWriteWins(s: State, wall: nat, op: Op, key: Key, data: seq<byte>, sig: Option<Signature>, io: AppendResult)
    requires Dominates(s) && !TickOverflows(s.clock, wall)
    ensures var (t, result) := Written(s, wall, op, key, data, sig, io);
      result.Ok? ==> Visible(t.cells, key) == if op == Delete then None else Some((data, s.id))
  {
    var f := NewFrame(s, wall, op, key, data, sig);
    TickAdvances(s.clock, wall);
    FreshStampWins(CellAt(s.cells, key), s.clock, Stamped(f));
  }

  /** The new events of `t` are exactly the visible change since `s`, marked with where it came from. */
  ghost predicate Tells(s: State, t: State, local: bool) {
    || (t.events == s.events && VisibleMap(t.cells) == VisibleMap(s.cells))
    || exists e ::
         t.events == s.events + [e] && e.local == local && VisibleMap(t.cells) == ApplyEvent(VisibleMap(s.cells), e)
  }

  lemma WriteTells(s: State, wall: nat, op: Op, key: Key, data: seq<byte>, sig: Option<Signature>, io: AppendResult)
    requires Dominates(s) && !TickOverflows(s.clock, wall)
    ensures var t := Written(s, wall, op, key, data, sig, io).0; Dominates(t) && Tells(s, t, true)
  {
    var f := NewFrame(s, wall, op, key, data, sig);
    TickAdvances(s.clock, wall);
    FreshStampWins(CellAt(s.cells, key), s.clock, Stamped(f));
    MergeIsItsEvent(s.cells, f, true);
    MergeKeepsDomination(s, f, Ticked(s.clock, wall));
  }

  lemma ReceiveTells(s: State, f: Frame, wall: nat, io: AppendResult)
    requires Dominates(s) && !ObserveOverflows(s.clock, f.stamp.hlc, wall)
    ensures var t := Received(s, f, wall, true, io).0; Dominates(t) && Tells(s, t, false)
  {
    ObserveAdvances(s.clock, f.stamp.hlc, wall);
    MergeIsItsEvent(s.cells, f, false);
    MergeKeepsDomination(s, f, Observed(s.clock, f.stamp.hlc, wall));
  }

  /** One action: the clock still dominates, and the new events are exactly the visible change. */
  lemma ActTells(s: State, a: Action)
    requires Dominates(s) && HasRoom(s, a)
    ensures Dominates(Act(s, a)) && Tells(s, Act(s, a), a.Write?)
  {
    match a {
      case Write(wall, op, key, data, sig, io) => WriteTells(s, wall, op, key, data, sig, io);
      case Receive(f, wall, verified, io) =>
        if verified {
          ReceiveTells(s, f, wall, io);
        }
      case Collect(key) => CollectIsSilent(s.cells, key);
      case Reclaim(_, _) =>
      case Note(_, _) =>
    }
  }

  lemma FoldOneMore(m: map<Key, seq<byte>>, events: seq<Event>, e: Event)
    ensures Fold(m, events + [e]) == ApplyEvent(Fold(m, events), e)
  {
    assert (events + [e])[..|events|] == events;
  }

  /** Folding every event emitted since `s` into its visible records gives the visible records now. */
  lemma {:induction false} EventsReproduceState(s: State, actions: seq<Action>)
    requires Dominates(s) && HasRoomThroughout(s, actions)
    ensures var t := Run(s, actions);
      && Dominates(t) && s.events <= t.events
      && Fold(VisibleMap(s.cells), t.events[|s.events|..]) == VisibleMap(t.cells)
  {
    if actions == [] {
    } else {
      var before, last := actions[..|actions| - 1], actions[|actions| - 1];
      forall i | 0 <= i < |before| ensures HasRoom(Run(s, before[..i]), before[i]) {
        assert before[..i] == actions[..i];
      }
      EventsReproduceState(s, before);
      var u, t := Run(s, before), Run(s, actions);
      ActTells(u, last);
      if t.events != u.events || VisibleMap(t.cells) != VisibleMap(u.cells) {
        var e :| t.events == u.events + [e] && VisibleMap(t.cells) == ApplyEvent(VisibleMap(u.cells), e);
        assert t.events[|s.events|..] == u.events[|s.events|..] + [e];
        FoldOneMore(VisibleMap(s.cells), u.events[|s.events|..], e);
      }
    }
  }

  // ---- what an action leaves alone -----------------------------------------

  /** A frame that fails verification changes nothing. */
  lemma ForgedChangesNothing(s: State, f: Frame, wall: nat, io: AppendResult)
    ensures Received(s, f, wall, false, io) == (s, Rejected)
  {
  }

  /**
   * What a verified frame comes to. Any frame moves the clock past its stamp; one out of order does no more, and is
   * reported with the number that would be in order; one that cannot be stored is still in order when it is offered
   * again; one that is stored counts as delivered, and is a duplicate from then on.
   */
  lemma ReceivedExactly(s: State, f: Frame, wall: nat, io: AppendResult)
    ensures var (t, outcome) := Received(s, f, wall, true, io);
      var have := Cursor(s.log, f.stamp.peer);
      && t.clock == Observed(s.clock, f.stamp.hlc, wall) && t.id == s.id && t.reports == s.reports
      && (outcome == Duplicate <==> f.seqno <= have)
      && (outcome == Gap(have + 1, f.seqno) <==> f.seqno > have + 1)
      && (outcome == Unpersisted <==> f.seqno == have + 1 && s.disk.Some? && io != Stored)
      && (outcome == Appended <==> f.seqno == have + 1 && (s.disk.None? || io == Stored))
      && (outcome != Appended ==> t.log == s.log && t.cells == s.cells && t.events == s.events)
      && (outcome == Unpersisted ==> Classify(t.log, f) == Appended)
      && (outcome == Appended ==> Cursor(t.log, f.stamp.peer) == f.seqno && Classify(t.log, f) == Duplicate)
      && (outcome.Gap? || outcome.Duplicate? ==> t.disk == s.disk)
  {
  }

  /** Collecting, reclaiming and noting cursors are silent; the report noted is the last one made. */
  lemma QuietActions(s: State, a: Action)
    requires a.Collect? || a.Reclaim? || a.Note?
    ensures var t := Act(s, a);
      && t.clock == s.clock && t.events == s.events && t.disk == s.disk && t.id == s.id
      && (!a.Reclaim? ==> t.log == s.log) && (!a.Collect? ==> t.cells == s.cells)
      && (!a.Note? ==> t.reports == s.reports)
      && (a.Note? ==> forall p :: p in t.reports <==> p in s.reports || p == a.peer)
      && (a.Note? ==> forall p :: p in t.reports ==> t.reports[p] == if p == a.peer then a.cursors else s.reports[p])
  {
  }

  /** Replaying a load rebuilds state and tells nobody. */
  lemma {:induction false} ReplayIsSilent(s: State, frames: seq<Frame>)
    ensures var t := ReplayedAll(s, frames);
      t.events == s.events && t.reports == s.reports && t.disk == s.disk && t.id == s.id
  {
    if frames != [] {
      ReplayIsSilent(s, frames[..|frames| - 1]);
    }
  }

  /** One frame of its own and one of `b`, which has reported both: a reclaim that lists `b` drops both. */
  lemma ReportedFramesAreFreed(s: State, b: PeerId)
    requires s.id != b && s.id in s.log.observed && b in s.log.observed
    requires s.log.base == map[] && |Held(s.log, s.id)| == 1 && |Held(s.log, b)| == 1
    ensures var t := Act(Act(s, Note(b, map[s.id := 1, b := 1])), Reclaim([b], [s.id, b]));
      Held(t.log, s.id) == [] && Held(t.log, b) == [] && Cursor(t.log, s.id) == 1 && Cursor(t.log, b) == 1
  {
    var u := Act(s, Note(b, map[s.id := 1, b := 1]));
    AllOfItIsFreed(u, [b], [s.id, b], s.id);
    AllOfItIsFreed(u, [b], [s.id, b], b);
  }
}
