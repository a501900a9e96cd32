/** Sending consolidated mutations and deciding which queued rows may go. */
module Flush {
  import opened Bytes
  import opened Consolidation
  import Sorting

  datatype SendError =
    | Timeout | ConnectionClosed | Mqtt
    | PublishRejected(terminal: bool)
    | Ownership | NotFound | Conflict | PreconditionFailed
    | Permanent | Other

  predicate Transient(e: SendError) {
    e.Timeout? || e.ConnectionClosed? || e.Mqtt? || (e.PublishRejected? && !e.terminal)
  }

  datatype Reply = Done | Failed(error: SendError)

  datatype ReadReply = Present(row: Fields) | Absent | ReadFailed(error: SendError)

  /** What the sender answers while one mutation is handled: the send, a read of the row, a second send. */
  datatype Answers = Answers(first: Reply, read: ReadReply, second: Reply)

  /** One mutation per target, so the sender's answers are a function of the target. */
  type Asked = Target -> Answers

  datatype Outcome = Drop | DropRejected | Keep

  function Settled(r: Reply): Outcome {
    if r.Failed? && Transient(r.error) then Keep else Drop
  }

  /** `replay_or_reject_insert`: a conflicting insert that did land is sent again as an update. */
  function ReplayOrReject(m: Mutation, a: Answers): Outcome {
    match a.read
    case Present(_) => if m.data.None? then Drop else Settled(a.second)
    case Absent => DropRejected
    case ReadFailed(e) => if Transient(e) then Keep else DropRejected
  }

  function Attempt(m: Mutation, a: Answers): Reply {
    if m.op != Delete && m.data.None? then Done else a.first
  }

  function OutcomeOf(m: Mutation, root: string, a: Answers): Outcome {
    match Attempt(m, a)
    case Done => Drop
    case Failed(e) =>
      if Transient(e) then Keep
      else if e.Conflict? && m.op == Insert then ReplayOrReject(m, a)
      else if e.Ownership? then (if m.op == Insert then DropRejected else Drop)
      else if e.NotFound? then
        match m.op
        case Delete => Drop
        case Insert => Keep
        case Update =>
          if m.target.entity == root then Drop
          else
            match a.read
            case Present(_) => Settled(a.second)
            case Absent => Drop
            case ReadFailed(e) => if Transient(e) then Keep else Drop
      else if e.PublishRejected? && m.op == Insert then DropRejected
      else Drop
  }

  /** The errors among the answers actually awaited, in order; `None` is an answer without error. */
  function Heard(m: Mutation, root: string, a: Answers): seq<Option<SendError>> {
    if m.op != Delete && m.data.None? then []
    else
      var first := if a.first.Done? then None else Some(a.first.error);
      var looks := (first == Some(Conflict) && m.op == Insert)
                   || (first == Some(NotFound) && m.op == Update && m.target.entity != root);
      if !looks then [first]
      else
        var read := if a.read.ReadFailed? then Some(a.read.error) else None;
        if a.read.Present? then [first, read, if a.second.Done? then None else Some(a.second.error)] else [first, read]
  }

  /** A mutation stays queued exactly when the last answer was transient, or an insert's scope is not there yet. */
  lemma KeptExactlyWhenRetryable(m: Mutation, root: string, a: Answers)
    ensures var heard := Heard(m, root, a);
      OutcomeOf(m, root, a) == Keep <==>
      && heard != [] && heard[|heard| - 1].Some?
      && (Transient(heard[|heard| - 1].value) || (m.op == Insert && heard == [Some(NotFound)]))
  {
  }

  /** The errors that a later attempt may not meet again. */
  predicate MayPass(e: SendError) {
    e == Timeout || e == ConnectionClosed || e == Mqtt || e == PublishRejected(false)
  }

  /** A send that found a conflict or nothing to update is followed by a look at the row. */
  predicate Looks(m: Mutation, root: string, a: Answers) {
    && m.data.Some?
    && (|| (m.op == Insert && a.first == Failed(Conflict))
        || (m.op == Update && a.first == Failed(NotFound) && m.target.entity != root))
  }

  /** Which answers keep a mutation queued, by the names of the errors. */
  lemma KeptByName(m: Mutation, root: string, a: Answers)
    ensures OutcomeOf(m, root, a) == Keep <==>
      && (m.op == Delete || m.data.Some?) && a.first.Failed?
      && (|| MayPass(a.first.error)
          || (m.op == Insert && a.first.error == NotFound)
          || (Looks(m, root, a) && a.read.Present? && a.second.Failed? && MayPass(a.second.error))
          || (Looks(m, root, a) && a.read.ReadFailed? && MayPass(a.read.error)))
  {
  }

  /**
   * An insert is reported as rejected exactly when it was refused for good: by ownership, by the broker, or by a
   * conflict with a row that is not to be found.
   */
  lemma RejectedExactly(m: Mutation, root: string, a: Answers)
    ensures OutcomeOf(m, root, a) == DropRejected <==>
      && m.op == Insert && m.data.Some? && a.first.Failed?
      && (|| a.first.error == Ownership
          || a.first.error == PublishRejected(true)
          || (a.first.error == Conflict && (a.read.Absent? || (a.read.ReadFailed? && !MayPass(a.read.error)))))
  {
  }

  /** What is asked of the sender; `Forget` deletes a row locally and its answer is ignored. */
  datatype Call =
    | Create(target: Target, scope: string, data: Fields)
    | Change(target: Target, scope: string, data: Fields)
    | Remove(target: Target, scope: string)
    | Look(target: Target)
    | Forget(target: Target)

  function FirstCall(m: Mutation): seq<Call> {
    match m.op
    case Delete => [Remove(m.target, m.scope)]
    case Insert => if m.data.None? then [] else [Create(m.target, m.scope, m.data.value)]
    case Update => if m.data.None? then [] else [Change(m.target, m.scope, m.data.value)]
  }

  /** The calls for one mutation, in order. */
  function CallsFor(m: Mutation, root: string, a: Answers): seq<Call> {
    FirstCall(m) +
    if m.op == Delete || m.data.None? || a.first.Done? then []
    else if a.first.error.Conflict? && m.op == Insert then
      [Look(m.target)] + if a.read.Present? then [Change(m.target, m.scope, m.data.value)] else []
    else if a.first.error.NotFound? && m.op == Update then
      if m.target.entity == root then [Forget(m.target)]
      else [Look(m.target)] + if a.read.Present? then [Create(m.target, m.scope, a.read.row)] else []
    else []
  }

  /** The one local deletion: an update of a root row that the server does not have. */
  predicate Orphaned(m: Mutation, root: string, a: Answers) {
    m.op == Update && m.target.entity == root && m.data.Some? && a.first == Failed(NotFound)
  }

  /** Every call but a local deletion is awaited. */
  lemma CallsAreHeard(m: Mutation, root: string, a: Answers)
    ensures |CallsFor(m, root, a)| == |Heard(m, root, a)| + if Orphaned(m, root, a) then 1 else 0
    ensures forall t :: Forget(t) in CallsFor(m, root, a) <==> Orphaned(m, root, a) && t == m.target
  {
  }

  // ---- the pass over all mutations ---------------------------------------

  function Retained(ms: seq<Mutation>, root: string, ask: Asked): nat
  {
    if ms == [] then 0
    else
      var n := |ms| - 1;
      Retained(ms[..n], root, ask) + if OutcomeOf(ms[n], root, ask(ms[n].target)) == Keep then 1 else 0
  }

  function Removed(ms: seq<Mutation>, root: string, ask: Asked): seq<string>
  {
    if ms == [] then []
    else
      var n := |ms| - 1;
      Removed(ms[..n], root, ask) + if OutcomeOf(ms[n], root, ask(ms[n].target)) == Keep then [] else ms[n].recordIds
  }

  function Rejected(ms: seq<Mutation>, root: string, ask: Asked): seq<(Target, string)>
  {
    if ms == [] then []
    else
      var n := |ms| - 1;
      Rejected(ms[..n], root, ask)
      + if OutcomeOf(ms[n], root, ask(ms[n].target)) == DropRejected then [(ms[n].target, ms[n].scope)] else []
  }

  function Called(ms: seq<Mutation>, root: string, ask: Asked): seq<Call> {
    if ms == [] then []
    else
      var n := |ms| - 1;
      Called(ms[..n], root, ask) + CallsFor(ms[n], root, ask(ms[n].target))
  }

  /** A flush deletes a row locally exactly when an update of that root row was not found. */
  lemma {:induction false} ForgottenExactly(ms: seq<Mutation>, root: string, ask: Asked, t: Target)
    ensures Forget(t) in Called(ms, root, ask) <==>
      exists m :: m in ms && m.target == t && Orphaned(m, root, ask(t))
  {
    if ms != [] {
      var front, last := ms[..|ms| - 1], ms[|ms| - 1];
      ForgottenExactly(front, root, ask, t);
      CallsAreHeard(last, root, ask(last.target));
      assert ms == front + [last];
    }
  }

  method FlushConsolidated(ms: seq<Mutation>, root: string, ask: Asked)
    returns (retained: nat, rejected: seq<(Target, string)>, removed: seq<string>, calls: seq<Call>)
    ensures retained == Retained(ms, root, ask)
    ensures rejected == Rejected(ms, root, ask)
    ensures removed == Removed(ms, root, ask)
    ensures calls == Called(ms, root, ask)
  {
    retained, rejected, removed, calls := 0, [], [], [];
    for i := 0 to |ms|
      invariant retained == Retained(ms[..i], root, ask)
      invariant rejected == Rejected(ms[..i], root, ask)
      invariant removed == Removed(ms[..i], root, ask)
      invariant calls == Called(ms[..i], root, ask)
    {
      PrefixSnoc(ms, i);
      calls := calls + CallsFor(ms[i], root, ask(ms[i].target));
      match OutcomeOf(ms[i], root, ask(ms[i].target)) {
        case Drop =>
          removed := removed + ms[i].recordIds;
        case DropRejected =>
          rejected := rejected + [(ms[i].target, ms[i].scope)];
          removed := removed + ms[i].recordIds;
        case Keep =>
          retained := retained + 1;
      }
    }
    assert ms[..|ms|] == ms;
  }

  lemma {:induction false} RemovedFrom(ms: seq<Mutation>, root: string, ask: Asked, id: string)
    ensures id in Removed(ms, root, ask) <==>
      exists i :: 0 <= i < |ms| && OutcomeOf(ms[i], root, ask(ms[i].target)) != Keep && id in ms[i].recordIds
  {
    if ms != [] {
      var n := |ms| - 1;
      RemovedFrom(ms[..n], root, ask, id);
      if i :| 0 <= i < n && OutcomeOf(ms[..n][i], root, ask(ms[..n][i].target)) != Keep && id in ms[..n][i].recordIds {
        assert OutcomeOf(ms[i], root, ask(ms[i].target)) != Keep && id in ms[i].recordIds;
      }
      if i :| 0 <= i < |ms| && OutcomeOf(ms[i], root, ask(ms[i].target)) != Keep && id in ms[i].recordIds {
        assert i < n ==> ms[..n][i] == ms[i];
      }
    }
  }

  function KeptTargets(ms: seq<Mutation>, root: string, ask: Asked): set<Target> {
    set m | m in ms && OutcomeOf(m, root, ask(m.target)) == Keep :: m.target
  }

  predicate DistinctTargets(ms: seq<Mutation>) {
    forall i, j :: 0 <= i < j < |ms| ==> ms[i].target != ms[j].target
  }

  lemma ConsolidationDistinct(rows: seq<Row>, ms: seq<Mutation>)
    requires IsConsolidation(rows, ms)
    ensures DistinctTargets(ms)
  {
    forall i, j | 0 <= i < j < |ms| ensures ms[i].target != ms[j].target {
      var t := ms[j].target;
      Sorting.FilterIn(ms, OnMutation(t), ms[j]);
      assert OnlyFor(rows, ms, t);
      var k := OnlyOne(ms, t, One(History(rows, t)));
    }
  }

  lemma KeptSnoc(front: seq<Mutation>, last: Mutation, root: string, ask: Asked)
    ensures KeptTargets(front + [last], root, ask) ==
      KeptTargets(front, root, ask) + if OutcomeOf(last, root, ask(last.target)) == Keep then {last.target} else {}
  {
    forall m ensures m in front + [last] <==> m in front || m == last {
    }
  }

  /** `retained` is the number of targets whose rows stay queued. */
  lemma {:induction false} RetainedCounts(ms: seq<Mutation>, root: string, ask: Asked)
    requires DistinctTargets(ms)
    ensures Retained(ms, root, ask) == |KeptTargets(ms, root, ask)|
  {
    if ms != [] {
      var n := |ms| - 1;
      var front, last := ms[..n], ms[n];
      RetainedCounts(front, root, ask);
      assert ms == front + [last];
      KeptSnoc(front, last, root, ask);
      assert last.target !in KeptTargets(front, root, ask);
    }
  }

  function Survivor(removed: seq<string>): Row -> bool {
    (r: Row) => r.recordId !in removed
  }

  /** The rows once the flushed ones have been taken out. */
  function Remaining(rows: seq<Row>, removed: seq<string>): seq<Row> {
    Sorting.Filter(rows, Survivor(removed))
  }

  /**
   * Nothing is lost in a flush, whatever the sender answers and whatever happens to the queue meanwhile:
   * a row of the snapshot stays exactly when its target's mutation is kept.
   */
  lemma FlushConserves(snapshot: seq<Row>, ms: seq<Mutation>, root: string, ask: Asked, rows: seq<Row>, r: Row)
    returns (i: nat)
    requires IsConsolidation(snapshot, ms) && DistinctIds(snapshot) && r in snapshot && r in rows
    ensures i < |ms| && ms[i].target == r.target
    ensures r in Remaining(rows, Removed(ms, root, ask)) <==> OutcomeOf(ms[i], root, ask(ms[i].target)) == Keep
  {
    i := EachRecordOnce(snapshot, ms, r);
    RemovedFrom(ms, root, ask, r.recordId);
    Sorting.FilterIn(rows, Survivor(Removed(ms, root, ask)), r);
  }

  /** A row whose id is not in the snapshot, such as one queued during the flush, is never taken out. */
  lemma NewRowsStay(snapshot: seq<Row>, ms: seq<Mutation>, root: string, ask: Asked, rows: seq<Row>, r: Row)
    requires IsConsolidation(snapshot, ms) && r in rows
    requires forall s :: s in snapshot ==> s.recordId != r.recordId
    ensures r in Remaining(rows, Removed(ms, root, ask))
  {
    RemovedFrom(ms, root, ask, r.recordId);
    forall i | 0 <= i < |ms| ensures r.recordId !in ms[i].recordIds {
      IdsFromSnapshot(snapshot, ms, i, r.recordId);
    }
    Sorting.FilterIn(rows, Survivor(Removed(ms, root, ask)), r);
  }

  lemma IdsFromSnapshot(snapshot: seq<Row>, ms: seq<Mutation>, i: nat, id: string)
    requires IsConsolidation(snapshot, ms) && i < |ms| && forall s :: s in snapshot ==> s.recordId != id
    ensures id !in ms[i].recordIds
  {
    var t := ms[i].target;
    Sorting.FilterIn(ms, OnMutation(t), ms[i]);
    assert OnlyFor(snapshot, ms, t);
    assert ms[i] == One(History(snapshot, t));
    IdsAre(History(snapshot, t), id);
    if r :| r in History(snapshot, t) && r.recordId == id {
      HistoryTarget(snapshot, t, r);
    }
  }

  /** The queue held in memory. */
  class InMemoryQueue {
    const root: string
    var rows: seq<Row>
    var flushing: bool

    constructor (root: string)
      ensures this.root == root && rows == [] && !flushing
    {
      this.root := root;
      rows, flushing := [], false;
    }

    method Queue(row: Row)
      modifies this
      ensures rows == old(rows) + [row] && flushing == old(flushing)
    {
      rows := rows + [row];
    }

    /** Only one flush at a time; the one that gets in works on a snapshot. */
    method Begin() returns (snapshot: Option<seq<Row>>)
      modifies this
      ensures rows == old(rows) && flushing
      ensures snapshot == if old(flushing) then None else Some(old(rows))
    {
      if flushing {
        return None;
      }
      flushing := true;
      return Some(rows);
    }

    method Finish(removed: seq<string>)
      modifies this
      ensures rows == Remaining(old(rows), removed) && !flushing
    {
      var left: seq<Row> := [];
      for i := 0 to |rows|
        invariant rows == old(rows) && left == Remaining(rows[..i], removed)
      {
        PrefixSnoc(rows, i);
        if rows[i].recordId !in removed {
          left := left + [rows[i]];
        }
      }
      assert rows[..|rows|] == rows;
      rows := left;
      flushing := false;
    }

    /** A flush with `meanwhile` queued while it was sending; beside another flush it does nothing. */
    method Run(ask: Asked, meanwhile: seq<Row>)
      returns (retained: nat, rejected: seq<(Target, string)>, calls: seq<Call>, ghost ms: seq<Mutation>)
      modifies this
      ensures old(flushing) ==> retained == 0 && rejected == [] && calls == [] && rows == old(rows) && flushing
      ensures !old(flushing) ==>
        && IsConsolidation(old(rows), ms) && !flushing
        && retained == |KeptTargets(ms, root, ask)|
        && rejected == Rejected(ms, root, ask) && calls == Called(ms, root, ask)
        && rows == Remaining(old(rows) + meanwhile, Removed(ms, root, ask))
    {
      var snapshot := Begin();
      ms := [];
      if snapshot.None? {
        return 0, [], [], ms;
      }
      var consolidated := Consolidate(snapshot.value);
      ms := consolidated;
      var removed;
      retained, rejected, removed, calls := FlushConsolidated(consolidated, root, ask);
      ConsolidationDistinct(snapshot.value, ms);
      RetainedCounts(ms, root, ask);
      rows := rows + meanwhile;
      Finish(removed);
    }
  }
}
