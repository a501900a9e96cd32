/** The messages of the sync protocol. */
module Messages {
  import opened Clock
  import opened Wire
  import opened ReplLog

  datatype Message =
    | Hello(sender: PeerId, cursors: Cursors)
    | Delta(frames: seq<Frame>)
}

/** One session: how a peer answers the messages it reads. */
module Session {
  import opened Bytes
  import opened Clock
  import opened Wire
  import opened ReplLog
  import opened Collections
  import opened Sync
  import opened Delivery
  import opened Pull
  import opened Messages

  predicate ShouldInitiate(self: PeerId, remote: Option<PeerId>) {
    remote.None? || Rank(self) < Rank(remote.value)
  }

  predicate PeerAhead(theirs: Cursors, ours: Cursors) {
    exists o :: o in theirs && theirs[o] > At(ours, o)
  }

  function HelloFrom(s: State): Message {
    Hello(s.id, CursorMap(s.log))
  }

  /** The delta a Hello draws; nothing is sent when there is nothing to send. */
  function CatchUp(s: State, cursors: Cursors, order: seq<PeerId>): seq<Message> {
    var delta := DeltaIn(s.log, cursors, order);
    if delta == [] then [] else [Delta(delta)]
  }

  function Replies(s: State, sender: PeerId, cursors: Cursors, order: seq<PeerId>): seq<Message> {
    CatchUp(s, cursors, order)
    + if PeerAhead(cursors, CursorMap(s.log)) || !ShouldInitiate(s.id, Some(sender)) then [HelloFrom(s)] else []
  }

  /** Until it knows the other side either may start; then exactly the one whose id has the smaller bytes. */
  lemma InitiatesExactly(self: PeerId, remote: PeerId)
    ensures ShouldInitiate(self, None)
    ensures ShouldInitiate(self, Some(remote)) <==> LexLess(self, remote)
  {
    PeerOrder(self, remote);
  }

  /** The log holds a frame of the origin that a peer with these cursors has not applied. */
  predicate NewsOf(log: Log, their: Cursors, o: PeerId) {
    Max(At(their, o), Base(log, o)) < Cursor(log, o)
  }

  ghost predicate HasNews(s: State, cursors: Cursors) {
    exists o: PeerId :: NewsOf(s.log, cursors, o)
  }

  ghost predicate IsBehind(s: State, cursors: Cursors) {
    exists o: PeerId :: Cursor(s.log, o) < At(cursors, o)
  }

  lemma NewsFrom(log: Log, their: Cursors, o: PeerId)
    ensures DeltaFor(log, their, o) != [] <==> NewsOf(log, their, o)
  {
  }

  lemma {:induction false} NewsIn(log: Log, their: Cursors, order: seq<PeerId>) returns (o: PeerId)
    requires DeltaIn(log, their, order) != []
    ensures o in order && NewsOf(log, their, o)
  {
    o := order[|order| - 1];
    NewsFrom(log, their, o);
    if !NewsOf(log, their, o) {
      o := NewsIn(log, their, order[..|order| - 1]);
    }
  }

  lemma {:induction false} NewsGoesIn(log: Log, their: Cursors, order: seq<PeerId>, i: nat)
    requires i < |order| && NewsOf(log, their, order[i])
    ensures DeltaIn(log, their, order) != []
  {
    if i < |order| - 1 {
      NewsGoesIn(log, their, order[..|order| - 1], i);
    } else {
      NewsFrom(log, their, order[i]);
    }
  }

  lemma NewsIsSent(s: State, cursors: Cursors, order: seq<PeerId>)
    requires Enumerates(order, s.log.observed.Keys)
    ensures DeltaIn(s.log, cursors, order) != [] <==> HasNews(s, cursors)
  {
    if DeltaIn(s.log, cursors, order) != [] {
      var o := NewsIn(s.log, cursors, order);
    }
    if o: PeerId :| NewsOf(s.log, cursors, o) {
      assert o in s.log.observed.Keys;
      var i :| 0 <= i < |order| && order[i] == o;
      NewsGoesIn(s.log, cursors, order, i);
    }
  }

  lemma AheadExactly(s: State, cursors: Cursors)
    ensures PeerAhead(cursors, CursorMap(s.log)) <==> IsBehind(s, cursors)
  {
    forall o: PeerId ensures At(CursorMap(s.log), o) == Cursor(s.log, o) {
      CursorMapAt(s.log, o);
    }
    if o: PeerId :| Cursor(s.log, o) < At(cursors, o) {
      assert o in cursors && cursors[o] > At(CursorMap(s.log), o);
    }
  }

  /**
   * What a Hello draws: a delta exactly when there is news, and never an empty one; behind it a Hello exactly when the
   * reader is behind on some origin, or its id does not have the smaller bytes.
   */
  lemma RepliesExactly(s: State, sender: PeerId, cursors: Cursors, order: seq<PeerId>)
    requires Enumerates(order, s.log.observed.Keys)
    ensures var delta := if HasNews(s, cursors) then [Delta(DeltaIn(s.log, cursors, order))] else [];
      var hello := if IsBehind(s, cursors) || !LexLess(s.id, sender) then [HelloFrom(s)] else [];
      Replies(s, sender, cursors, order) == delta + hello
  {
    NewsIsSent(s, cursors, order);
    AheadExactly(s, cursors);
    InitiatesExactly(s.id, sender);
  }

  /** State and replies once one message has been read. */
  function Handled(s: State, m: Message, order: seq<PeerId>, wall: nat): (State, seq<Message>) {
    match m
    case Hello(sender, cursors) =>
      (s.(reports := s.reports[sender := cursors]), Replies(s, sender, cursors, order))
    case Delta(frames) => (Absorbed(s, frames, wall), [])
  }

  /** The same with frames that may fail verification or storage. */
  function HandledBy(s: State, m: Message, order: seq<PeerId>, wall: nat, auth: Auth, io: nat -> AppendResult)
    : (State, seq<Message>)
  {
    match m
    case Hello(_, _) => Handled(s, m, order, wall)
    case Delta(frames) => (Ingested(s, frames, wall, auth, io).0, [])
  }

  /** Between peers whose frames verify and are stored nothing else happens. */
  lemma HonestHandling(s: State, m: Message, order: seq<PeerId>, wall: nat, auth: Auth, io: nat -> AppendResult)
    requires m.Delta? ==> (forall f :: f in m.frames ==> auth(f)) && forall i :: 0 <= i < |m.frames| ==> io(i) == Stored
    ensures HandledBy(s, m, order, wall, auth, io) == Handled(s, m, order, wall)
  {
    if m.Delta? {
      HonestIngest(s, m.frames, wall, auth, io);
    }
  }

  class Endpoint {
    const state: SyncState
    var remote: Option<PeerId>

    constructor (state: SyncState)
      ensures this.state == state && remote == None
    {
      this.state := state;
      remote := None;
    }

    /** Answer one message; each frame of a delta may fail verification or storage. */
    method Handle(m: Message, wall: nat, auth: Auth, io: nat -> AppendResult)
      returns (out: seq<Message>, order: seq<PeerId>)
      modifies this, state, state.clock, state.log, state.applier
      ensures m.Hello? ==> Enumerates(order, old(state.log.observed).Keys)
      ensures (state.View(), out) == HandledBy(old(state.View()), m, order, wall, auth, io)
      ensures remote == if m.Hello? then Some(m.sender) else old(remote)
      ensures m.Hello? ==> state.log.View() == old(state.log.View())
      ensures m.Delta? ==> exists appended :: Gained(old(state.log.View()), state.log.View(), m.frames, auth, appended)
    {
      match m {
        case Hello(sender, cursors) =>
          remote := Some(sender);
          state.NotePeerCursors(sender, cursors);
          var catchUp;
          catchUp, order := state.log.DeltaSince(cursors);
          out := if catchUp == [] then [] else [Delta(catchUp)];
          if PeerAhead(cursors, CursorMap(state.log.View())) || !ShouldInitiate(state.id, remote) {
            out := out + [HelloFrom(state.View())];
          }
          assert out == Replies(old(state.View()), sender, cursors, order);
        case Delta(frames) =>
          out, order := [], [];
          Apply(frames, wall, auth, io);
      }
    }

    method Apply(frames: seq<Frame>, wall: nat, auth: Auth, io: nat -> AppendResult)
      modifies state, state.clock, state.log, state.applier
      ensures state.View() == Ingested(old(state.View()), frames, wall, auth, io).0
      ensures exists appended :: Gained(old(state.log.View()), state.log.View(), frames, auth, appended)
    {
      ghost var start := state.View();
      for i := 0 to |frames|
        invariant state.View() == Ingested(start, frames[..i], wall, auth, io).0
      {
        PrefixSnoc(frames, i);
        var _ := state.Receive(frames[i], wall, auth(frames[i]), io(i));
      }
      assert frames[..|frames|] == frames;
      IngestedLog(start, frames, wall, auth, io);
    }

    /** The periodic timer: only the side that should initiate sends a Hello. */
    method Tick() returns (out: seq<Message>)
      ensures out == if ShouldInitiate(state.id, remote) then [HelloFrom(state.View())] else []
    {
      out := [];
      if ShouldInitiate(state.id, remote) {
        out := [HelloFrom(state.View())];
      }
    }
  }
}

/** Two peers and the two streams between them, while neither writes. */
module SessionRound {
  import opened Clock
  import opened Wire
  import opened Lww
  import opened ReplLog
  import opened Collections
  import opened Sync
  import opened Delivery
  import opened Pull
  import opened Runs
  import opened RunInvariant
  import opened Convergence
  import opened Messages
  import opened Session

  /** `low` has the smaller id; `toHigh` and `toLow` are the undelivered messages, oldest first. */
  datatype Pair = Pair(low: State, high: State, toHigh: seq<Message>, toLow: seq<Message>)

  /** One side reads its next message. */
  datatype Turn = Turn(lowReads: bool, order: seq<PeerId>, wall: nat)

  ghost predicate CanTurn(p: Pair, turn: Turn) {
    var (reader, channel) := if turn.lowReads then (p.low, p.toLow) else (p.high, p.toHigh);
    channel != [] && (channel[0].Hello? ==> Enumerates(turn.order, reader.log.observed.Keys))
  }

  function AfterTurn(p: Pair, turn: Turn): Pair
    requires if turn.lowReads then p.toLow != [] else p.toHigh != []
  {
    if turn.lowReads then
      var (s, out) := Handled(p.low, p.toLow[0], turn.order, turn.wall);
      p.(low := s, toHigh := p.toHigh + out, toLow := p.toLow[1..])
    else
      var (s, out) := Handled(p.high, p.toHigh[0], turn.order, turn.wall);
      p.(high := s, toLow := p.toLow + out, toHigh := p.toHigh[1..])
  }

  // ---- what is still to arrive -------------------------------------------

  /** The log once every delta in the channel has been applied. */
  function Drained(log: Log, channel: seq<Message>): Log
    decreases |channel|
  {
    if channel == [] then log
    else Drained(if channel[0].Delta? then RecordMany(log, channel[0].frames) else log, channel[1..])
  }

  /** Every Hello will find its reader at or past the cursors it reports. */
  ghost predicate Covered(log: Log, channel: seq<Message>)
    decreases |channel|
  {
    channel == [] ||
    match channel[0]
    case Delta(frames) => Covered(RecordMany(log, frames), channel[1..])
    case Hello(_, c) => AtMost(c, log) && Covered(log, channel[1..])
  }

  ghost predicate AtMost(c: Cursors, log: Log) {
    forall o: PeerId :: At(c, o) <= Cursor(log, o)
  }

  ghost predicate AtLeast(c: Cursors, log: Log) {
    forall o: PeerId :: Cursor(log, o) <= At(c, o)
  }

  /** Each Hello in the channel reports cursors of `sender` between `first` and `now`. */
  ghost predicate Honest(channel: seq<Message>, sender: PeerId, first: Log, now: Log) {
    forall m :: m in channel && m.Hello? ==> m.sender == sender && AtLeast(m.cursors, first) && AtMost(m.cursors, now)
  }

  predicate HasHello(channel: seq<Message>) {
    exists m :: m in channel && m.Hello?
  }

  /** Work left in a channel, a Hello counting `hello`. */
  function Weight(channel: seq<Message>, hello: nat): nat
    decreases |channel|
  {
    if channel == [] then 0 else (if channel[0].Hello? then hello else 1) + Weight(channel[1..], hello)
  }

  lemma {:induction false} WeightConcat(a: seq<Message>, b: seq<Message>, hello: nat)
    ensures Weight(a + b, hello) == Weight(a, hello) + Weight(b, hello)
    decreases |a|
  {
    if a == [] {
      assert a + b == b;
    } else {
      assert (a + b)[1..] == a[1..] + b;
      WeightConcat(a[1..], b, hello);
    }
  }

  lemma {:induction false} DrainedConcat(log: Log, a: seq<Message>, b: seq<Message>)
    ensures Drained(log, a + b) == Drained(Drained(log, a), b)
    decreases |a|
  {
    if a == [] {
      assert a + b == b;
    } else {
      assert (a + b)[1..] == a[1..] + b;
      DrainedConcat(if a[0].Delta? then RecordMany(log, a[0].frames) else log, a[1..], b);
    }
  }

  lemma {:induction false} CoveredConcat(log: Log, a: seq<Message>, b: seq<Message>)
    requires Covered(log, a) && Covered(Drained(log, a), b)
    ensures Covered(log, a + b)
    decreases |a|
  {
    if a == [] {
      assert a + b == b;
    } else {
      assert (a + b)[1..] == a[1..] + b;
      CoveredConcat(if a[0].Delta? then RecordMany(log, a[0].frames) else log, a[1..], b);
    }
  }

  // ---- the invariant -----------------------------------------------------

  ghost predicate AllAtMost(a: Log, b: Log) {
    forall o: PeerId :: Cursor(a, o) <= Cursor(b, o)
  }

  /** No cursor is above the higher of the two starting cursors. */
  ghost predicate WithinGoal(log: Log, low: Log, high: Log) {
    forall o: PeerId :: Cursor(log, o) <= Max(Cursor(low, o), Cursor(high, o))
  }

  /** Every frame on the way is true. */
  ghost predicate Carries(truth: Truth, channel: seq<Message>) {
    forall m, f :: m in channel && m.Delta? && f in m.frames ==> IsTrue(truth, f)
  }

  /** One side: its log, what is on the way to it, and how far both have come from `mine` and `other`. */
  ghost predicate SideOk(truth: Truth, log: Log, incoming: seq<Message>, mine: Log, other: Log) {
    && LogOk(truth, log) && LogOk(truth, Drained(log, incoming)) && Carries(truth, incoming)
    && AllAtMost(mine, log) && AllAtMost(log, Drained(log, incoming))
    && WithinGoal(Drained(log, incoming), mine, other)
    && forall o: PeerId :: Base(log, o) <= Cursor(other, o)
  }

  /**
   * The round, started at logs `a` (low) and `b` (high). `opening` marks the high side's first Hello, the
   * only one that may surprise the low side.
   */
  ghost predicate RoundOk(truth: Truth, a: Log, b: Log, p: Pair, opening: bool) {
    && TruthOk(truth) && Rank(p.low.id) < Rank(p.high.id)
    && SideOk(truth, p.low.log, p.toLow, a, b) && SideOk(truth, p.high.log, p.toHigh, b, a)
    && Honest(p.toHigh, p.low.id, a, p.low.log) && Honest(p.toLow, p.high.id, b, p.high.log)
    && (opening ==> p.toLow != [] && p.toLow[0].Hello?)
    && Covered(p.low.log, if opening then p.toLow[1..] else p.toLow)
    && (AllAtMost(b, Drained(p.low.log, p.toLow)) || HasHello(p.toHigh) || opening)
    && (AllAtMost(a, Drained(p.high.log, p.toHigh)) || HasHello(p.toHigh) || HasHello(p.toLow))
  }

  function Measure(p: Pair, opening: bool): nat {
    Weight(p.toHigh, 4) + Weight(p.toLow, 2) + if opening then 4 else 0
  }

  lemma AllAtMostTransitive(a: Log, b: Log, c: Log)
    requires AllAtMost(a, b) && AllAtMost(b, c)
    ensures AllAtMost(a, c)
  {
    forall o: PeerId ensures Cursor(a, o) <= Cursor(c, o) {
      assert Cursor(a, o) <= Cursor(b, o) <= Cursor(c, o);
    }
  }

  /** Sending a delta: what it does to the log it will reach. */
  lemma CatchUpJoins(truth: Truth, server: State, cursors: Cursors, order: seq<PeerId>, reader: Log,
                     incoming: seq<Message>)
    requires TruthOk(truth) && LogOk(truth, server.log) && LogOk(truth, Drained(reader, incoming))
    requires Reaches(server.log, cursors, Drained(reader, incoming))
    requires Enumerates(order, server.log.observed.Keys)
    ensures var next := Drained(reader, incoming + CatchUp(server, cursors, order));
      LogOk(truth, next) && Joined(Drained(reader, incoming), server.log, next)
    ensures Carries(truth, CatchUp(server, cursors, order))
  {
    forall f | f in DeltaIn(server.log, cursors, order) ensures IsTrue(truth, f) {
      DeltaIsTrue(truth, server.log, cursors, order, f);
    }
    var goal, delta := Drained(reader, incoming), DeltaIn(server.log, cursors, order);
    DrainedConcat(reader, incoming, CatchUp(server, cursors, order));
    PullJoins(truth, goal, server.log, cursors, order);
    if delta == [] {
      assert Drained(goal, CatchUp(server, cursors, order)) == goal;
    } else {
      assert [Delta(delta)][1..] == [];
      assert Drained(goal, [Delta(delta)]) == RecordMany(goal, delta);
    }
  }

  lemma ReachesReader(log: Log, server: Log, cursors: Cursors, first: Log, now: Log, goal: Log)
    requires (forall o: PeerId :: Base(server, o) <= Cursor(first, o))
    requires AtLeast(cursors, first) && AtMost(cursors, now) && AllAtMost(now, goal)
    ensures Reaches(server, cursors, goal)
  {
    forall o: PeerId ensures Base(server, o) <= At(cursors, o) <= Cursor(goal, o) {
      assert Base(server, o) <= Cursor(first, o) <= At(cursors, o);
      assert At(cursors, o) <= Cursor(now, o) <= Cursor(goal, o);
    }
  }

  lemma JoinStaysWithin(puller: Log, server: Log, next: Log, mine: Log, other: Log)
    requires Joined(puller, server, next) && WithinGoal(puller, mine, other) && WithinGoal(server, other, mine)
    ensures WithinGoal(next, mine, other) && AllAtMost(puller, next) && AllAtMost(server, next)
  {
    forall o: PeerId
      ensures Cursor(next, o) <= Max(Cursor(mine, o), Cursor(other, o))
      ensures Cursor(puller, o) <= Cursor(next, o) && Cursor(server, o) <= Cursor(next, o)
    {
      assert Cursor(next, o) == Max(Cursor(puller, o), Cursor(server, o));
    }
  }

  lemma WithinBelow(log: Log, above: Log, mine: Log, other: Log)
    requires AllAtMost(log, above) && WithinGoal(above, mine, other)
    ensures WithinGoal(log, mine, other)
  {
    forall o: PeerId ensures Cursor(log, o) <= Max(Cursor(mine, o), Cursor(other, o)) {
      assert Cursor(log, o) <= Cursor(above, o);
    }
  }

  /** The reader's side after the other side has answered one of its Hellos. */
  lemma AnsweredSide(truth: Truth, reader: Log, incoming: seq<Message>, server: State, serverIn: seq<Message>,
                     mine: Log, other: Log, cursors: Cursors, order: seq<PeerId>)
    requires TruthOk(truth)
    requires SideOk(truth, reader, incoming, mine, other) && SideOk(truth, server.log, serverIn, other, mine)
    requires AtLeast(cursors, mine) && AtMost(cursors, reader) && Enumerates(order, server.log.observed.Keys)
    ensures var channel := incoming + CatchUp(server, cursors, order);
      && SideOk(truth, reader, channel, mine, other)
      && AllAtMost(server.log, Drained(reader, channel)) && AllAtMost(other, Drained(reader, channel))
  {
    var goal, channel := Drained(reader, incoming), incoming + CatchUp(server, cursors, order);
    ReachesReader(reader, server.log, cursors, mine, reader, goal);
    CatchUpJoins(truth, server, cursors, order, reader, incoming);
    WithinBelow(server.log, Drained(server.log, serverIn), other, mine);
    JoinStaysWithin(goal, server.log, Drained(reader, channel), mine, other);
    AllAtMostTransitive(reader, goal, Drained(reader, channel));
    AllAtMostTransitive(other, server.log, Drained(reader, channel));
  }

  lemma RecordGrows(log: Log, f: Frame)
    ensures AllAtMost(log, Recorded(log, f)) && forall o: PeerId :: Base(Recorded(log, f), o) == Base(log, o)
  {
    forall o: PeerId
      ensures Cursor(log, o) <= Cursor(Recorded(log, f), o) && Base(Recorded(log, f), o) == Base(log, o)
    {
      if Classify(log, f) == Appended {
        CursorOneMore(log, Recorded(log, f), f, o);
      }
    }
  }

  lemma {:induction false} RecordManyGrows(log: Log, frames: seq<Frame>)
    ensures AllAtMost(log, RecordMany(log, frames))
    ensures forall o: PeerId :: Base(RecordMany(log, frames), o) == Base(log, o)
  {
    if frames != [] {
      var mid := RecordMany(log, frames[..|frames| - 1]);
      RecordManyGrows(log, frames[..|frames| - 1]);
      RecordGrows(mid, frames[|frames| - 1]);
      AllAtMostTransitive(log, mid, RecordMany(log, frames));
    }
  }

  lemma {:induction false} RecordManyKeepsLog(truth: Truth, log: Log, frames: seq<Frame>)
    requires LogOk(truth, log) && forall f :: f in frames ==> IsTrue(truth, f)
    ensures LogOk(truth, RecordMany(log, frames))
  {
    if frames != [] {
      RecordManyKeepsLog(truth, log, frames[..|frames| - 1]);
      RecordKeepsLog(truth, RecordMany(log, frames[..|frames| - 1]), frames[|frames| - 1]);
    }
  }

  lemma {:induction false} DrainGrows(log: Log, channel: seq<Message>)
    ensures AllAtMost(log, Drained(log, channel))
    decreases |channel|
  {
    if channel != [] {
      var next := if channel[0].Delta? then RecordMany(log, channel[0].frames) else log;
      if channel[0].Delta? {
        RecordManyGrows(log, channel[0].frames);
      }
      DrainGrows(next, channel[1..]);
      AllAtMostTransitive(log, next, Drained(log, channel));
    }
  }

  /** Reading a delta moves it from the channel into the log. */
  lemma ReadDeltaSide(truth: Truth, s: State, incoming: seq<Message>, mine: Log, other: Log, wall: nat)
    requires SideOk(truth, s.log, incoming, mine, other) && incoming != [] && incoming[0].Delta?
    ensures var t := Absorbed(s, incoming[0].frames, wall);
      && t.id == s.id && SideOk(truth, t.log, incoming[1..], mine, other)
      && AllAtMost(s.log, t.log) && Drained(t.log, incoming[1..]) == Drained(s.log, incoming)
  {
    var frames, rest := incoming[0].frames, incoming[1..];
    AbsorbedLog(s, frames, wall);
    var log := RecordMany(s.log, frames);
    assert incoming[0] in incoming;
    RecordManyKeepsLog(truth, s.log, frames);
    RecordManyGrows(s.log, frames);
    DrainGrows(log, rest);
    AllAtMostTransitive(mine, s.log, log);
  }

  /** Reading a Hello takes it out of the channel and changes nothing else. */
  lemma ReadHelloSide(truth: Truth, log: Log, incoming: seq<Message>, mine: Log, other: Log)
    requires SideOk(truth, log, incoming, mine, other) && incoming != [] && incoming[0].Hello?
    ensures SideOk(truth, log, incoming[1..], mine, other) && Drained(log, incoming[1..]) == Drained(log, incoming)
  {
  }

  lemma HonestRest(channel: seq<Message>, sender: PeerId, first: Log, now: Log, later: Log)
    requires Honest(channel, sender, first, now) && AllAtMost(now, later)
    ensures Honest(channel, sender, first, later) && (channel != [] ==> Honest(channel[1..], sender, first, later))
  {
    forall m | m in channel && m.Hello? ensures AtMost(m.cursors, later) {
      forall o: PeerId ensures At(m.cursors, o) <= Cursor(later, o) {
        assert At(m.cursors, o) <= Cursor(now, o) <= Cursor(later, o);
      }
    }
  }

  lemma LowReadsDelta(truth: Truth, a: Log, b: Log, p: Pair, opening: bool, turn: Turn)
    requires RoundOk(truth, a, b, p, opening) && turn.lowReads && p.toLow != [] && p.toLow[0].Delta?
    ensures RoundOk(truth, a, b, AfterTurn(p, turn), false) && Measure(AfterTurn(p, turn), false) < Measure(p, opening)
  {
    ReadDeltaSide(truth, p.low, p.toLow, a, b, turn.wall);
    AbsorbedLog(p.low, p.toLow[0].frames, turn.wall);
    HonestRest(p.toHigh, p.low.id, a, p.low.log, AfterTurn(p, turn).low.log);
    assert p.toHigh + [] == p.toHigh;
    assert HasHello(p.toLow) ==> HasHello(p.toLow[1..]);
  }

  lemma HighReadsDelta(truth: Truth, a: Log, b: Log, p: Pair, opening: bool, turn: Turn)
    requires RoundOk(truth, a, b, p, opening) && !turn.lowReads && p.toHigh != [] && p.toHigh[0].Delta?
    ensures RoundOk(truth, a, b, AfterTurn(p, turn), opening)
    ensures Measure(AfterTurn(p, turn), opening) < Measure(p, opening)
  {
    ReadDeltaSide(truth, p.high, p.toHigh, b, a, turn.wall);
    HonestRest(p.toLow, p.high.id, b, p.high.log, AfterTurn(p, turn).high.log);
    assert p.toLow + [] == p.toLow;
    assert HasHello(p.toHigh) ==> HasHello(p.toHigh[1..]);
  }

  lemma OneHello(log: Log, hello: Message)
    requires hello.Hello?
    ensures Drained(log, [hello]) == log && Drained(log, []) == log
    ensures AtMost(hello.cursors, log) ==> Covered(log, [hello])
  {
    assert [hello][1..] == [];
  }

  /** A Hello put behind a catch-up that lifts the reader past it is covered. */
  lemma CoveredHello(goal: Log, server: State, cursors: Cursors, order: seq<PeerId>)
    requires AllAtMost(server.log, Drained(goal, CatchUp(server, cursors, order)))
    ensures Covered(goal, CatchUp(server, cursors, order) + [HelloFrom(server)])
  {
    var catchUp := CatchUp(server, cursors, order);
    forall o: PeerId ensures At(CursorMap(server.log), o) <= Cursor(Drained(goal, catchUp), o) {
      CursorMapAt(server.log, o);
      assert Cursor(server.log, o) <= Cursor(Drained(goal, catchUp), o);
    }
    OneHello(Drained(goal, catchUp), HelloFrom(server));
    assert Covered(goal, catchUp) by {
      assert catchUp == [] || catchUp[1..] == [];
    }
    CoveredConcat(goal, catchUp, [HelloFrom(server)]);
  }

  lemma HonestHello(s: State, first: Log)
    requires AllAtMost(first, s.log)
    ensures Honest([HelloFrom(s)], s.id, first, s.log)
  {
    forall o: PeerId ensures At(CursorMap(s.log), o) == Cursor(s.log, o) && Cursor(first, o) <= Cursor(s.log, o) {
      CursorMapAt(s.log, o);
    }
  }

  lemma HonestAnswer(s: State, first: Log, channel: seq<Message>, cursors: Cursors, order: seq<PeerId>)
    requires AllAtMost(first, s.log) && Honest(channel, s.id, first, s.log)
    ensures Honest(channel + CatchUp(s, cursors, order), s.id, first, s.log)
    ensures Honest(channel + CatchUp(s, cursors, order) + [HelloFrom(s)], s.id, first, s.log)
  {
    HonestHello(s, first);
    forall m | m in channel + CatchUp(s, cursors, order) + [HelloFrom(s)] && m.Hello?
      ensures m.sender == s.id && AtLeast(m.cursors, first) && AtMost(m.cursors, s.log)
    {
      assert m in channel || m in [HelloFrom(s)];
    }
  }

  /** A Hello at the end of a channel leaves the reader's side as it is. */
  lemma SideWithHello(truth: Truth, log: Log, incoming: seq<Message>, mine: Log, other: Log, hello: Message)
    requires SideOk(truth, log, incoming, mine, other) && hello.Hello?
    ensures SideOk(truth, log, incoming + [hello], mine, other)
    ensures Drained(log, incoming + [hello]) == Drained(log, incoming)
  {
    DrainedConcat(log, incoming, [hello]);
    OneHello(Drained(log, incoming), hello);
  }

  lemma CatchUpWeight(s: State, cursors: Cursors, order: seq<PeerId>, hello: nat)
    ensures Weight(CatchUp(s, cursors, order), hello) <= 1
    ensures Weight(CatchUp(s, cursors, order) + [HelloFrom(s)], hello) <= 1 + hello
  {
    WeightConcat(CatchUp(s, cursors, order), [HelloFrom(s)], hello);
    assert [HelloFrom(s)][1..] == [];
    var c := CatchUp(s, cursors, order);
    assert c == [] || c[1..] == [];
  }

  /** The high side always answers with its own Hello. */
  lemma HighAnswers(p: Pair, turn: Turn)
    requires !turn.lowReads && p.toHigh != [] && p.toHigh[0].Hello? && p.toHigh[0].sender == p.low.id
    requires Rank(p.low.id) < Rank(p.high.id)
    ensures var catchUp, hello := CatchUp(p.high, p.toHigh[0].cursors, turn.order), HelloFrom(p.high);
      && AfterTurn(p, turn).toLow == p.toLow + catchUp + [hello]
      && AfterTurn(p, turn).toLow == p.toLow + (catchUp + [hello])
  {
  }

  lemma HighHelloMeasure(p: Pair, opening: bool, turn: Turn)
    requires !turn.lowReads && p.toHigh != [] && p.toHigh[0].Hello? && p.toHigh[0].sender == p.low.id
    requires Rank(p.low.id) < Rank(p.high.id)
    ensures Measure(AfterTurn(p, turn), opening) < Measure(p, opening)
  {
    HighAnswers(p, turn);
    var c := p.toHigh[0].cursors;
    WeightConcat(p.toLow, CatchUp(p.high, c, turn.order) + [HelloFrom(p.high)], 2);
    CatchUpWeight(p.high, c, turn.order, 2);
  }

  /** The high side's answer is covered when it is read. */
  lemma HighHelloCovered(log: Log, toLow: seq<Message>, server: State, c: Cursors, order: seq<PeerId>, opening: bool)
    requires opening ==> toLow != [] && toLow[0].Hello?
    requires Covered(log, if opening then toLow[1..] else toLow)
    requires AllAtMost(server.log, Drained(log, toLow + CatchUp(server, c, order)))
    ensures var next := toLow + (CatchUp(server, c, order) + [HelloFrom(server)]);
      Covered(log, if opening then next[1..] else next)
  {
    var answer := CatchUp(server, c, order) + [HelloFrom(server)];
    var seen := if opening then toLow[1..] else toLow;
    assert Drained(log, seen) == Drained(log, toLow);
    DrainedConcat(log, toLow, CatchUp(server, c, order));
    CoveredHello(Drained(log, toLow), server, c, order);
    CoveredConcat(log, seen, answer);
    assert (if opening then (toLow + answer)[1..] else toLow + answer) == seen + answer;
  }

  lemma HighReadsHello(truth: Truth, a: Log, b: Log, p: Pair, opening: bool, turn: Turn)
    requires RoundOk(truth, a, b, p, opening) && !turn.lowReads && p.toHigh != [] && p.toHigh[0].Hello?
    requires CanTurn(p, turn)
    ensures RoundOk(truth, a, b, AfterTurn(p, turn), opening)
    ensures Measure(AfterTurn(p, turn), opening) < Measure(p, opening)
  {
    var c := p.toHigh[0].cursors;
    assert p.toHigh[0] in p.toHigh;
    HighAnswers(p, turn);
    AnsweredSide(truth, p.low.log, p.toLow, p.high, p.toHigh, a, b, c, turn.order);
    SideWithHello(truth, p.low.log, p.toLow + CatchUp(p.high, c, turn.order), a, b, HelloFrom(p.high));
    ReadHelloSide(truth, p.high.log, p.toHigh, b, a);
    HighHelloCovered(p.low.log, p.toLow, p.high, c, turn.order, opening);
    HonestAnswer(p.high, b, p.toLow, c, turn.order);
    HonestRest(p.toHigh, p.low.id, a, p.low.log, p.low.log);
    assert HelloFrom(p.high) in AfterTurn(p, turn).toLow;
    HighHelloMeasure(p, opening, turn);
  }

  lemma NotAhead(theirs: Cursors, s: State)
    requires AtMost(theirs, s.log)
    ensures !PeerAhead(theirs, CursorMap(s.log))
  {
    forall o | o in theirs ensures theirs[o] <= At(CursorMap(s.log), o) {
      CursorMapAt(s.log, o);
      assert At(theirs, o) <= Cursor(s.log, o);
    }
  }

  lemma NotBehind(theirs: Cursors, s: State, first: Log)
    requires !PeerAhead(theirs, CursorMap(s.log)) && AtLeast(theirs, first)
    ensures AllAtMost(first, s.log)
  {
    forall o: PeerId ensures Cursor(first, o) <= Cursor(s.log, o) {
      CursorMapAt(s.log, o);
      assert Cursor(first, o) <= At(theirs, o);
    }
  }

  /** The low side answers with a Hello only when the reader is ahead of it. */
  lemma LowAnswers(p: Pair, turn: Turn)
    requires turn.lowReads && p.toLow != [] && p.toLow[0].Hello? && p.toLow[0].sender == p.high.id
    requires Rank(p.low.id) < Rank(p.high.id)
    ensures var c := p.toLow[0].cursors;
      var catchUp := CatchUp(p.low, c, turn.order);
      var tail := if PeerAhead(c, CursorMap(p.low.log)) then [HelloFrom(p.low)] else [];
      && AfterTurn(p, turn).toHigh == p.toHigh + catchUp + tail
      && AfterTurn(p, turn).toHigh == p.toHigh + (catchUp + tail)
  {
  }

  lemma LowHelloMeasure(p: Pair, opening: bool, turn: Turn)
    requires turn.lowReads && p.toLow != [] && p.toLow[0].Hello? && p.toLow[0].sender == p.high.id
    requires Rank(p.low.id) < Rank(p.high.id)
    requires !opening ==> !PeerAhead(p.toLow[0].cursors, CursorMap(p.low.log))
    ensures Measure(AfterTurn(p, turn), false) < Measure(p, opening)
  {
    LowAnswers(p, turn);
    var c := p.toLow[0].cursors;
    var catchUp := CatchUp(p.low, c, turn.order);
    CatchUpWeight(p.low, c, turn.order, 4);
    WeightConcat(p.toHigh, catchUp + [HelloFrom(p.low)], 4);
    WeightConcat(p.toHigh, catchUp, 4);
    assert catchUp + [] == catchUp;
  }

  lemma LowReadsHello(truth: Truth, a: Log, b: Log, p: Pair, opening: bool, turn: Turn)
    requires RoundOk(truth, a, b, p, opening) && turn.lowReads && p.toLow != [] && p.toLow[0].Hello?
    requires CanTurn(p, turn)
    ensures RoundOk(truth, a, b, AfterTurn(p, turn), false) && Measure(AfterTurn(p, turn), false) < Measure(p, opening)
  {
    var c := p.toLow[0].cursors;
    assert p.toLow[0] in p.toLow;
    LowAnswers(p, turn);
    var channel := p.toHigh + CatchUp(p.low, c, turn.order);
    AnsweredSide(truth, p.high.log, p.toHigh, p.low, p.toLow, b, a, c, turn.order);
    SideWithHello(truth, p.high.log, channel, b, a, HelloFrom(p.low));
    assert channel + [] == channel;
    ReadHelloSide(truth, p.low.log, p.toLow, a, b);
    HonestAnswer(p.low, a, p.toHigh, c, turn.order);
    HonestRest(p.toLow, p.high.id, b, p.high.log, p.high.log);
    if !opening {
      NotAhead(c, p.low);
    }
    LowHelloMeasure(p, opening, turn);
    if PeerAhead(c, CursorMap(p.low.log)) {
      assert HelloFrom(p.low) in AfterTurn(p, turn).toHigh;
    } else {
      NotBehind(c, p.low, b);
      AllAtMostTransitive(b, p.low.log, Drained(p.low.log, p.toLow));
    }
  }

  // ---- whole rounds ------------------------------------------------------

  ghost predicate TurnAt(pairs: seq<Pair>, turns: seq<Turn>, i: nat)
    requires 0 < i < |pairs| == |turns| + 1
  {
    CanTurn(pairs[i - 1], turns[i - 1]) && pairs[i] == AfterTurn(pairs[i - 1], turns[i - 1])
  }

  /** Any interleaving of the two sides' reads. */
  ghost predicate Plays(pairs: seq<Pair>, turns: seq<Turn>) {
    |pairs| == |turns| + 1 && forall i: nat :: 0 < i < |pairs| ==> TurnAt(pairs, turns, i)
  }

  /** Both sides have just connected, or only one side has spoken: the low one on its timer, or the high one. */
  predicate Opened(p: Pair, opening: bool) {
    && p.toLow == (if opening then [HelloFrom(p.high)] else [])
    && (p.toHigh == [HelloFrom(p.low)] || (opening && p.toHigh == []))
  }

  /** Distinct ids, logs that are slices of the truth, and neither has reclaimed what the other lacks. */
  ghost predicate CanMeet(truth: Truth, low: State, high: State) {
    && TruthOk(truth) && Faithful(truth, low) && Faithful(truth, high) && Rank(low.id) < Rank(high.id)
    && forall o: PeerId :: Base(low.log, o) <= Cursor(high.log, o) && Base(high.log, o) <= Cursor(low.log, o)
  }

  lemma OpeningSide(truth: Truth, s: State, other: Log, incoming: seq<Message>)
    requires LogOk(truth, s.log) && (forall o: PeerId :: Base(s.log, o) <= Cursor(other, o))
    requires incoming == [] || (|incoming| == 1 && incoming[0].Hello?)
    ensures SideOk(truth, s.log, incoming, s.log, other)
  {
    assert incoming != [] ==> incoming[1..] == [];
  }

  lemma OpeningHolds(truth: Truth, p: Pair, opening: bool)
    requires CanMeet(truth, p.low, p.high) && Opened(p, opening)
    ensures RoundOk(truth, p.low.log, p.high.log, p, opening) && Measure(p, opening) <= if opening then 10 else 4
  {
    assert Weight([HelloFrom(p.low)], 4) == 4;
    assert Weight([HelloFrom(p.high)], 2) == 2;
    OpeningSide(truth, p.low, p.high.log, p.toLow);
    OpeningSide(truth, p.high, p.low.log, p.toHigh);
    HonestHello(p.low, p.low.log);
    HonestHello(p.high, p.high.log);
    if p.toHigh != [] {
      assert HelloFrom(p.low) in p.toHigh && p.toHigh[1..] == [];
    }
    if opening {
      assert HelloFrom(p.high) in p.toLow && p.toLow[1..] == [];
    }
  }

  lemma TurnHolds(truth: Truth, a: Log, b: Log, p: Pair, opening: bool, turn: Turn, next: Pair) returns (still: bool)
    requires RoundOk(truth, a, b, p, opening) && CanTurn(p, turn) && next == AfterTurn(p, turn)
    ensures RoundOk(truth, a, b, next, still) && Measure(next, still) < Measure(p, opening)
  {
    still := opening && !turn.lowReads;
    if turn.lowReads {
      if p.toLow[0].Hello? {
        LowReadsHello(truth, a, b, p, opening, turn);
      } else {
        LowReadsDelta(truth, a, b, p, opening, turn);
      }
    } else if p.toHigh[0].Hello? {
      HighReadsHello(truth, a, b, p, opening, turn);
    } else {
      HighReadsDelta(truth, a, b, p, opening, turn);
    }
  }

  lemma {:induction false} RoundHolds(truth: Truth, a: Log, b: Log, pairs: seq<Pair>, turns: seq<Turn>, opening: bool,
                                      i: nat)
    returns (still: bool)
    requires Plays(pairs, turns) && RoundOk(truth, a, b, pairs[0], opening) && i < |pairs|
    ensures RoundOk(truth, a, b, pairs[i], still) && Measure(pairs[i], still) + i <= Measure(pairs[0], opening)
  {
    if i == 0 {
      still := opening;
    } else {
      var before := RoundHolds(truth, a, b, pairs, turns, opening, i - 1);
      assert TurnAt(pairs, turns, i);
      still := TurnHolds(truth, a, b, pairs[i - 1], before, turns[i - 1], pairs[i]);
    }
  }

  lemma TurnKeepsFaith(truth: Truth, a: Log, b: Log, p: Pair, opening: bool, turn: Turn)
    requires RoundOk(truth, a, b, p, opening) && CanTurn(p, turn)
    requires Faithful(truth, p.low) && Faithful(truth, p.high)
    ensures Faithful(truth, AfterTurn(p, turn).low) && Faithful(truth, AfterTurn(p, turn).high)
  {
    var m := if turn.lowReads then p.toLow[0] else p.toHigh[0];
    assert m in p.toLow || m in p.toHigh;
    if m.Delta? {
      AbsorbedKeepsFaith(truth, if turn.lowReads then p.low else p.high, m.frames, turn.wall);
    }
  }

  lemma {:induction false} RoundKeepsFaith(truth: Truth, a: Log, b: Log, pairs: seq<Pair>, turns: seq<Turn>,
                                           opening: bool, i: nat)
    requires Plays(pairs, turns) && RoundOk(truth, a, b, pairs[0], opening) && i < |pairs|
    requires Faithful(truth, pairs[0].low) && Faithful(truth, pairs[0].high)
    ensures Faithful(truth, pairs[i].low) && Faithful(truth, pairs[i].high)
  {
    if i > 0 {
      RoundKeepsFaith(truth, a, b, pairs, turns, opening, i - 1);
      var before := RoundHolds(truth, a, b, pairs, turns, opening, i - 1);
      assert TurnAt(pairs, turns, i);
      TurnKeepsFaith(truth, a, b, pairs[i - 1], before, turns[i - 1]);
    }
  }

  lemma {:induction false} EnumerationExists<T(!new)>(items: set<T>) returns (order: seq<T>)
    ensures Enumerates(order, items)
  {
    order := [];
    if items != {} {
      var x :| x in items;
      var rest := EnumerationExists(items - {x});
      order := rest + [x];
    }
  }

  /** While a message is undelivered, somebody can read it. */
  lemma NeverStuck(p: Pair) returns (turn: Turn)
    requires p.toHigh != [] || p.toLow != []
    ensures CanTurn(p, turn)
  {
    var lowReads := p.toLow != [];
    var order := EnumerationExists((if lowReads then p.low else p.high).log.observed.Keys);
    turn := Turn(lowReads, order, 0);
  }

  /**
   * A round always ends: at most ten messages after both opening Hellos, at most four after one tick. When
   * the streams are empty both peers stand at the higher cursor for every origin and show the same records.
   */
  lemma SessionConverges(truth: Truth, pairs: seq<Pair>, turns: seq<Turn>, opening: bool, key: Key)
    requires Plays(pairs, turns) && CanMeet(truth, pairs[0].low, pairs[0].high) && Opened(pairs[0], opening)
    ensures |turns| <= if opening then 10 else 4
    ensures var p := pairs[|turns|];
      p.toHigh == [] && p.toLow == [] ==>
        && (forall o: PeerId ::
              && Cursor(p.low.log, o) == Max(Cursor(pairs[0].low.log, o), Cursor(pairs[0].high.log, o))
              && Cursor(p.high.log, o) == Max(Cursor(pairs[0].low.log, o), Cursor(pairs[0].high.log, o)))
        && Visible(p.low.cells, key) == Visible(p.high.cells, key)
  {
    var p := pairs[|turns|];
    var a, b := pairs[0].low.log, pairs[0].high.log;
    OpeningHolds(truth, pairs[0], opening);
    var still := RoundHolds(truth, a, b, pairs, turns, opening, |turns|);
    if p.toHigh == [] && p.toLow == [] {
      QuietMeansJoined(truth, a, b, p, still);
      RoundKeepsFaith(truth, a, b, pairs, turns, opening, |turns|);
      FaithfulPeersAgree(truth, p.low, p.high, key);
    }
  }

  // ---- what each side learns of the other ----------------------------------

  /** `s` has a report of `peer` that is not behind `first`. */
  ghost predicate Knows(s: State, peer: PeerId, first: Log) {
    peer in s.reports && AtLeast(s.reports[peer], first)
  }

  /** A report is there or a Hello that brings it, or draws it, is on its way. */
  ghost predicate Informed(a: Log, b: Log, p: Pair) {
    && (Knows(p.high, p.low.id, a) || HasHello(p.toHigh))
    && (Knows(p.low, p.high.id, b) || HasHello(p.toLow) || HasHello(p.toHigh))
  }

  lemma LowReadInforms(truth: Truth, a: Log, b: Log, p: Pair, opening: bool, turn: Turn)
    requires RoundOk(truth, a, b, p, opening) && CanTurn(p, turn) && Informed(a, b, p) && turn.lowReads
    ensures Informed(a, b, AfterTurn(p, turn))
  {
    var m := p.toLow[0];
    assert m in p.toLow;
    if m.Delta? {
      AbsorbedLog(p.low, m.frames, turn.wall);
      assert HasHello(p.toLow) ==> HasHello(p.toLow[1..]);
    }
    GrowsHello(p.toHigh, Handled(p.low, m, turn.order, turn.wall).1);
  }

  lemma HighReadInforms(truth: Truth, a: Log, b: Log, p: Pair, opening: bool, turn: Turn)
    requires RoundOk(truth, a, b, p, opening) && CanTurn(p, turn) && Informed(a, b, p) && !turn.lowReads
    ensures Informed(a, b, AfterTurn(p, turn))
  {
    var m := p.toHigh[0];
    assert m in p.toHigh;
    if m.Delta? {
      AbsorbedLog(p.high, m.frames, turn.wall);
      assert HasHello(p.toHigh) ==> HasHello(p.toHigh[1..]);
    } else {
      HighAnswers(p, turn);
      assert HelloFrom(p.high) in AfterTurn(p, turn).toLow;
    }
    GrowsHello(p.toLow, Handled(p.high, m, turn.order, turn.wall).1);
  }

  lemma TurnInforms(truth: Truth, a: Log, b: Log, p: Pair, opening: bool, turn: Turn, next: Pair)
    requires RoundOk(truth, a, b, p, opening) && CanTurn(p, turn) && Informed(a, b, p) && next == AfterTurn(p, turn)
    ensures Informed(a, b, next)
  {
    if turn.lowReads {
      LowReadInforms(truth, a, b, p, opening, turn);
    } else {
      HighReadInforms(truth, a, b, p, opening, turn);
    }
  }

  lemma GrowsHello(channel: seq<Message>, more: seq<Message>)
    ensures HasHello(channel) ==> HasHello(channel + more)
  {
    if HasHello(channel) {
      var m :| m in channel && m.Hello?;
      assert m in channel + more;
    }
  }

  lemma {:induction false} RoundInforms(truth: Truth, a: Log, b: Log, pairs: seq<Pair>, turns: seq<Turn>, opening: bool,
                                        i: nat)
    requires Plays(pairs, turns) && RoundOk(truth, a, b, pairs[0], opening) && i < |pairs|
    requires Informed(a, b, pairs[0])
    ensures Informed(a, b, pairs[i])
  {
    if i > 0 {
      RoundInforms(truth, a, b, pairs, turns, opening, i - 1);
      var before := RoundHolds(truth, a, b, pairs, turns, opening, i - 1);
      assert TurnAt(pairs, turns, i);
      TurnInforms(truth, a, b, pairs[i - 1], before, turns[i - 1], pairs[i]);
    }
  }

  /**
   * A round that the low side's Hello started leaves each side with a report of the other, no older than the round,
   * whether or not there was anything to send: that is what keeps reclamation going.
   */
  lemma ReportsAreExchanged(truth: Truth, pairs: seq<Pair>, turns: seq<Turn>, opening: bool)
    requires Plays(pairs, turns) && CanMeet(truth, pairs[0].low, pairs[0].high) && Opened(pairs[0], opening)
    requires pairs[0].toHigh != []
    ensures var p := pairs[|turns|];
      p.toHigh == [] && p.toLow == [] ==>
        Knows(p.low, pairs[0].high.id, pairs[0].high.log) && Knows(p.high, pairs[0].low.id, pairs[0].low.log)
  {
    var a, b := pairs[0].low.log, pairs[0].high.log;
    OpeningHolds(truth, pairs[0], opening);
    assert HelloFrom(pairs[0].low) in pairs[0].toHigh;
    RoundInforms(truth, a, b, pairs, turns, opening, |turns|);
    SameNames(pairs, turns, |turns|);
  }

  lemma {:induction false} SameNames(pairs: seq<Pair>, turns: seq<Turn>, i: nat)
    requires Plays(pairs, turns) && i < |pairs|
    ensures pairs[i].low.id == pairs[0].low.id && pairs[i].high.id == pairs[0].high.id
  {
    if i > 0 {
      SameNames(pairs, turns, i - 1);
      assert TurnAt(pairs, turns, i);
      var p, turn := pairs[i - 1], turns[i - 1];
      var (s, m) := if turn.lowReads then (p.low, p.toLow[0]) else (p.high, p.toHigh[0]);
      if m.Delta? {
        AbsorbedLog(s, m.frames, turn.wall);
      }
    }
  }

  lemma QuietMeansJoined(truth: Truth, a: Log, b: Log, p: Pair, opening: bool)
    requires RoundOk(truth, a, b, p, opening) && p.toHigh == [] && p.toLow == []
    ensures forall o: PeerId ::
      && Cursor(p.low.log, o) == Max(Cursor(a, o), Cursor(b, o))
      && Cursor(p.high.log, o) == Max(Cursor(a, o), Cursor(b, o))
  {
    forall o: PeerId
      ensures Cursor(p.low.log, o) == Max(Cursor(a, o), Cursor(b, o))
      ensures Cursor(p.high.log, o) == Max(Cursor(a, o), Cursor(b, o))
    {
      assert Cursor(a, o) <= Cursor(p.low.log, o) && Cursor(b, o) <= Cursor(p.low.log, o);
      assert Cursor(b, o) <= Cursor(p.high.log, o) && Cursor(a, o) <= Cursor(p.high.log, o);
    }
  }

  /** Any two peers of a run that have always listed each other can meet. */
  lemma PeersCanMeet(run: seq<World>, steps: seq<Step>, i: nat, n: PeerId, m: PeerId)
    requires IsRun(run, steps) && i < |run| && n in run[0].peers && m in run[0].peers && Rank(n) < Rank(m)
    requires AlwaysLists(steps, i, n, m) && AlwaysLists(steps, i, m, n)
    ensures n in run[i].peers && m in run[i].peers && CanMeet(run[i].truth, run[i].peers[n], run[i].peers[m])
  {
    RunHolds(run, steps, i);
    ListedIsServed(run, steps, i, n, m);
    ListedIsServed(run, steps, i, m, n);
    assert Sound(run[i].truth, n, run[i].peers[n], run[i].seen[n]);
    assert Sound(run[i].truth, m, run[i].peers[m], run[i].seen[m]);
  }
}
