/** Merging the queued mutations of each row into one. */
module Consolidation {
  import opened Bytes
  import opened Collections
  import Sorting

  type Fields = map<string, string>

  datatype Operation = Insert | Update | Delete

  datatype Target = Target(entity: string, id: string)

  datatype Row = Row(recordId: string, op: Operation, target: Target, scope: string, data: Option<Fields>, at: nat)

  datatype Mutation = Mutation(
    op: Operation, target: Target, scope: string, data: Option<Fields>, recordIds: seq<string>, first: nat)

  function Time(): Row -> nat {
    (r: Row) => r.at
  }

  function OnRow(t: Target): Row -> bool {
    (r: Row) => r.target == t
  }

  function OnMutation(t: Target): Mutation -> bool {
    (m: Mutation) => m.target == t
  }

  function Priority(op: Operation): nat {
    match op case Insert => 0 case Update => 1 case Delete => 2
  }

  /** Earliest first; at the same time inserts before updates before deletes. */
  function Rank(): Mutation -> nat {
    (m: Mutation) => 3 * m.first + Priority(m.op)
  }

  /** One target's rows in the order they were queued, and in the order of their times. */
  function Group(rows: seq<Row>, t: Target): seq<Row> {
    Sorting.Filter(rows, OnRow(t))
  }

  function History(rows: seq<Row>, t: Target): seq<Row> {
    Sorting.Sort(Group(rows, t), Time())
  }

  predicate Has(entries: seq<Row>, op: Operation) {
    exists i :: 0 <= i < |entries| && entries[i].op == op
  }

  function Ids(entries: seq<Row>): seq<string> {
    if entries == [] then [] else Ids(entries[..|entries| - 1]) + [entries[|entries| - 1].recordId]
  }

  /** The data of the first insert. */
  function InsertData(entries: seq<Row>): Fields
    decreases |entries|
  {
    if entries == [] then map[]
    else if entries[0].op == Insert then (if entries[0].data.Some? then entries[0].data.value else map[])
    else InsertData(entries[1..])
  }

  /** `base` with the fields of every entry that is not an insert laid over it, in order. */
  function Overlay(base: Fields, entries: seq<Row>): Fields {
    if entries == [] then base
    else
      var last := entries[|entries| - 1];
      var below := Overlay(base, entries[..|entries| - 1]);
      if last.op != Insert && last.data.Some? then below + last.data.value else below
  }

  function One(entries: seq<Row>): Mutation
    requires entries != []
  {
    var e := entries[0];
    if Has(entries, Delete) then Mutation(Delete, e.target, e.scope, None, Ids(entries), e.at)
    else if Has(entries, Insert) then
      Mutation(Insert, e.target, e.scope, Some(Overlay(InsertData(entries), entries)), Ids(entries), e.at)
    else
      var merged := Overlay(map[], entries);
      Mutation(Update, e.target, e.scope, if merged == map[] then None else Some(merged), Ids(entries), e.at)
  }

  /** One mutation per target that has rows, each the merger of that target's history, in rank order. */
  ghost predicate IsConsolidation(rows: seq<Row>, ms: seq<Mutation>) {
    && (forall t :: OnlyFor(rows, ms, t))
    && Sorting.Sorted(ms, Rank())
  }

  ghost predicate OnlyFor(rows: seq<Row>, ms: seq<Mutation>, t: Target) {
    Sorting.Filter(ms, OnMutation(t)) == if History(rows, t) == [] then [] else [One(History(rows, t))]
  }

  // ---- the algorithm -----------------------------------------------------

  lemma HistoryTarget(rows: seq<Row>, t: Target, r: Row)
    ensures r in History(rows, t) <==> r in rows && r.target == t
  {
    Sorting.SortKeepsMembers(Group(rows, t), Time(), r);
    Sorting.FilterIn(rows, OnRow(t), r);
  }

  lemma OneTarget(rows: seq<Row>, t: Target)
    requires History(rows, t) != []
    ensures One(History(rows, t)).target == t
  {
    var h := History(rows, t);
    assert h[0] in h;
    HistoryTarget(rows, t, h[0]);
  }

  function Targets(rows: seq<Row>): set<Target> {
    set r | r in rows :: r.target
  }

  lemma TargetHasHistory(rows: seq<Row>, t: Target)
    ensures t in Targets(rows) <==> History(rows, t) != []
  {
    if t in Targets(rows) {
      var r: Row :| r in rows && r.target == t;
      HistoryTarget(rows, t, r);
    }
    if History(rows, t) != [] {
      HistoryTarget(rows, t, History(rows, t)[0]);
    }
  }

  /** The mergers in the order in which the groups are visited. */
  function Mergers(rows: seq<Row>, order: seq<Target>): seq<Mutation>
    requires forall t :: t in order ==> History(rows, t) != []
  {
    if order == [] then []
    else Mergers(rows, order[..|order| - 1]) + [One(History(rows, order[|order| - 1]))]
  }

  lemma {:induction false} MergersFor(rows: seq<Row>, order: seq<Target>, t: Target)
    requires Distinct(order) && forall u :: u in order ==> History(rows, u) != []
    ensures Sorting.Filter(Mergers(rows, order), OnMutation(t)) == if t in order then [One(History(rows, t))] else []
  {
    if order != [] {
      var front, last := order[..|order| - 1], order[|order| - 1];
      MergersFor(rows, front, t);
      OneTarget(rows, last);
      Sorting.FilterSnoc(Mergers(rows, front), One(History(rows, last)), OnMutation(t));
      assert order == front + [last] && last !in front;
    }
  }

  /** Whatever order the groups are visited in, the sorted result is a consolidation. */
  lemma SortedMergers(rows: seq<Row>, order: seq<Target>)
    requires Enumerates(order, Targets(rows)) && forall t :: t in order ==> History(rows, t) != []
    ensures IsConsolidation(rows, Sorting.Sort(Mergers(rows, order), Rank()))
  {
    var ms := Sorting.Sort(Mergers(rows, order), Rank());
    Sorting.SortSorts(Mergers(rows, order), Rank());
    forall t ensures OnlyFor(rows, ms, t) {
      Sorting.SortFilter(Mergers(rows, order), Rank(), OnMutation(t));
      MergersFor(rows, order, t);
      TargetHasHistory(rows, t);
    }
  }

  ghost predicate Collects(groups: map<Target, seq<Row>>, rows: seq<Row>) {
    groups.Keys == Targets(rows) && forall t :: (if t in groups then groups[t] else []) == Group(rows, t)
  }

  lemma CollectsOneMore(groups: map<Target, seq<Row>>, rows: seq<Row>, row: Row)
    requires Collects(groups, rows)
    ensures var t := row.target; Collects(groups[t := (if t in groups then groups[t] else []) + [row]], rows + [row])
  {
    var t := row.target;
    var next := groups[t := (if t in groups then groups[t] else []) + [row]];
    forall u ensures (if u in next then next[u] else []) == Group(rows + [row], u) {
      Sorting.FilterSnoc(rows, row, OnRow(u));
    }
    TargetsSnoc(rows, row);
  }

  lemma TargetsSnoc(rows: seq<Row>, row: Row)
    ensures Targets(rows + [row]) == Targets(rows) + {row.target}
  {
    forall u | u in Targets(rows) ensures u in Targets(rows + [row]) {
      var r: Row :| r in rows && r.target == u;
      assert r in rows + [row];
    }
    assert row in rows + [row];
  }

  /** Rows collected per target in queue order. */
  method Grouped(rows: seq<Row>) returns (groups: map<Target, seq<Row>>)
    ensures Collects(groups, rows)
  {
    groups := map[];
    for i := 0 to |rows|
      invariant Collects(groups, rows[..i])
    {
      PrefixSnoc(rows, i);
      CollectsOneMore(groups, rows[..i], rows[i]);
      var t := rows[i].target;
      groups := groups[t := (if t in groups then groups[t] else []) + [rows[i]]];
    }
    assert rows[..|rows|] == rows;
  }

  method Merge(entries: seq<Row>) returns (m: Mutation)
    requires entries != []
    ensures m == One(entries)
  {
    var e, ids, below: Fields, hasInsert, hasDelete := entries[0], [], map[], false, false;
    for i := 0 to |entries|
      invariant ids == Ids(entries[..i])
      invariant hasInsert == Has(entries[..i], Insert) && hasDelete == Has(entries[..i], Delete)
    {
      PrefixSnoc(entries, i);
      HasSnoc(entries[..i], entries[i], Insert);
      HasSnoc(entries[..i], entries[i], Delete);
      ids := ids + [entries[i].recordId];
      hasInsert := hasInsert || entries[i].op == Insert;
      hasDelete := hasDelete || entries[i].op == Delete;
    }
    assert entries[..|entries|] == entries;
    if hasDelete {
      return Mutation(Delete, e.target, e.scope, None, ids, e.at);
    }
    below := if hasInsert then InsertData(entries) else map[];
    ghost var start := below;
    for i := 0 to |entries|
      invariant below == Overlay(start, entries[..i])
    {
      PrefixSnoc(entries, i);
      if entries[i].op != Insert && entries[i].data.Some? {
        below := below + entries[i].data.value;
      }
    }
    assert entries[..|entries|] == entries;
    if hasInsert {
      return Mutation(Insert, e.target, e.scope, Some(below), ids, e.at);
    }
    return Mutation(Update, e.target, e.scope, if below == map[] then None else Some(below), ids, e.at);
  }

  lemma HasSnoc(entries: seq<Row>, e: Row, op: Operation)
    ensures Has(entries + [e], op) <==> Has(entries, op) || e.op == op
  {
    if i :| 0 <= i < |entries| && entries[i].op == op {
      assert (entries + [e])[i].op == op;
    }
    assert (entries + [e])[|entries|] == e;
  }

  method Consolidate(rows: seq<Row>) returns (ms: seq<Mutation>)
    ensures IsConsolidation(rows, ms)
  {
    var groups := Grouped(rows);
    var order := Listed(groups.Keys);
    ms := [];
    forall t | t in order ensures History(rows, t) != [] {
      TargetHasHistory(rows, t);
    }
    for i := 0 to |order|
      invariant ms == Mergers(rows, order[..i])
    {
      PrefixSnoc(order, i);
      var entries := Sorting.Sort(groups[order[i]], Time());
      assert entries == History(rows, order[i]) && order[i] in order;
      var m := Merge(entries);
      ms := ms + [m];
    }
    assert order[..|order|] == order;
    SortedMergers(rows, order);
    ms := Sorting.Sort(ms, Rank());
  }

  // ---- meaning -----------------------------------------------------------

  /** What a server does with an insert for a row it already has. */
  datatype OnConflict = Replace | Combine | Refuse

  type Server = map<Target, Fields>

  function Get(server: Server, t: Target): Option<Fields> {
    if t in server then Some(server[t]) else None
  }

  function Set(server: Server, t: Target, row: Option<Fields>): Server {
    if row.Some? then server[t := row.value] else server - {t}
  }

  /** One row after one operation; an update of a missing row does nothing. */
  function Slot(mode: OnConflict, cur: Option<Fields>, op: Operation, data: Option<Fields>): Option<Fields> {
    match op
    case Delete => None
    case Update => if cur.Some? && data.Some? then Some(cur.value + data.value) else cur
    case Insert =>
      if data.None? then cur
      else if cur.None? || mode == Replace then data
      else if mode == Combine then Some(cur.value + data.value)
      else cur
  }

  function Eval(mode: OnConflict, cur: Option<Fields>, entries: seq<Row>): Option<Fields> {
    if entries == [] then cur
    else
      var last := entries[|entries| - 1];
      Slot(mode, Eval(mode, cur, entries[..|entries| - 1]), last.op, last.data)
  }

  /** Every queued row sent by itself, in order. */
  function Replay(mode: OnConflict, server: Server, rows: seq<Row>): Server {
    if rows == [] then server
    else
      var before, last := Replay(mode, server, rows[..|rows| - 1]), rows[|rows| - 1];
      Set(before, last.target, Slot(mode, Get(before, last.target), last.op, last.data))
  }

  function SendAll(mode: OnConflict, server: Server, ms: seq<Mutation>): Server {
    if ms == [] then server
    else
      var before, last := SendAll(mode, server, ms[..|ms| - 1]), ms[|ms| - 1];
      Set(before, last.target, Slot(mode, Get(before, last.target), last.op, last.data))
  }

  /** Insert? Update* Delete?, and an insert carries data. */
  predicate WellShaped(entries: seq<Row>) {
    forall i :: 0 <= i < |entries| ==>
      && (entries[i].op == Insert ==> i == 0 && entries[i].data.Some?)
      && (entries[i].op == Delete ==> i == |entries| - 1)
  }

  /** Rows are independent: one row's fate is decided by its own operations. */
  lemma {:induction false} ReplayAt(mode: OnConflict, server: Server, rows: seq<Row>, t: Target)
    ensures Get(Replay(mode, server, rows), t) == Eval(mode, Get(server, t), Group(rows, t))
  {
    if rows != [] {
      var front, last := rows[..|rows| - 1], rows[|rows| - 1];
      ReplayAt(mode, server, front, t);
      if last.target == t {
        assert (Group(front, t) + [last])[..|Group(front, t)|] == Group(front, t);
      }
    }
  }

  function EvalMutations(mode: OnConflict, cur: Option<Fields>, ms: seq<Mutation>): Option<Fields> {
    if ms == [] then cur
    else
      var last := ms[|ms| - 1];
      Slot(mode, EvalMutations(mode, cur, ms[..|ms| - 1]), last.op, last.data)
  }

  lemma {:induction false} SendAllAt(mode: OnConflict, server: Server, ms: seq<Mutation>, t: Target)
    ensures Get(SendAll(mode, server, ms), t) == EvalMutations(mode, Get(server, t), Sorting.Filter(ms, OnMutation(t)))
  {
    if ms != [] {
      var front, last := ms[..|ms| - 1], ms[|ms| - 1];
      SendAllAt(mode, server, front, t);
      if last.target == t {
        var f := Sorting.Filter(front, OnMutation(t));
        assert (f + [last])[..|f|] == f;
      }
    }
  }

  lemma PlusAssociates(a: Fields, b: Fields, c: Fields)
    ensures a + (b + c) == a + b + c
  {
  }

  lemma {:induction false} OverlayOnTop(a: Fields, b: Fields, entries: seq<Row>)
    ensures Overlay(a + b, entries) == a + Overlay(b, entries)
  {
    if entries != [] {
      var last := entries[|entries| - 1];
      OverlayOnTop(a, b, entries[..|entries| - 1]);
      if last.data.Some? {
        PlusAssociates(a, Overlay(b, entries[..|entries| - 1]), last.data.value);
      }
    }
  }

  /** Updates alone: the row with all of them laid over it. */
  lemma {:induction false} UpdatesOverlay(mode: OnConflict, cur: Option<Fields>, entries: seq<Row>)
    requires forall i :: 0 <= i < |entries| ==> entries[i].op == Update
    ensures Eval(mode, cur, entries) == if cur.Some? then Some(Overlay(cur.value, entries)) else None
  {
    if entries != [] {
      UpdatesOverlay(mode, cur, entries[..|entries| - 1]);
    }
  }

  /** An insert followed by updates. */
  lemma {:induction false} InsertThenUpdates(mode: OnConflict, cur: Option<Fields>, entries: seq<Row>)
    requires WellShaped(entries) && entries != [] && entries[0].op == Insert && !Has(entries, Delete)
    requires mode == Refuse ==> cur.None?
    ensures var row := Slot(mode, cur, Insert, entries[0].data);
      row.Some? && Eval(mode, cur, entries) == Some(Overlay(row.value, entries))
  {
    var front, last := entries[..|entries| - 1], entries[|entries| - 1];
    assert last.op != Delete && entries[0].op == Insert;
    if |entries| > 1 {
      assert !Has(front, Delete) by {
        if i :| 0 <= i < |front| && front[i].op == Delete {
          assert entries[i].op == Delete;
        }
      }
      assert WellShaped(front) && front[0] == entries[0] && last.op == Update;
      InsertThenUpdates(mode, cur, front);
    } else {
      assert front == [];
      assert Overlay(entries[0].data.value, front) == entries[0].data.value;
    }
  }

  /** A well-shaped history and its merger leave the row the same. */
  lemma MergerPreservesMeaning(mode: OnConflict, cur: Option<Fields>, entries: seq<Row>)
    requires entries != [] && WellShaped(entries) && (mode == Refuse && entries[0].op == Insert ==> cur.None?)
    ensures Eval(mode, cur, entries) == Slot(mode, cur, One(entries).op, One(entries).data)
  {
    var last := entries[|entries| - 1];
    if Has(entries, Delete) {
      var i :| 0 <= i < |entries| && entries[i].op == Delete;
      assert i == |entries| - 1;
    } else if Has(entries, Insert) {
      var i :| 0 <= i < |entries| && entries[i].op == Insert;
      assert i == 0;
      InsertThenUpdates(mode, cur, entries);
      var data := entries[0].data.value;
      if cur.Some? {
        OverlayOnTop(cur.value, data, entries);
      }
    } else {
      forall i | 0 <= i < |entries| ensures entries[i].op == Update {
        assert entries[i].op != Insert && entries[i].op != Delete;
      }
      UpdatesOverlay(mode, cur, entries);
      if cur.Some? {
        OverlayOnTop(cur.value, map[], entries);
        assert cur.value + map[] == cur.value;
      }
    }
  }

  ghost predicate AllWellShaped(rows: seq<Row>) {
    forall t :: WellShaped(History(rows, t))
  }

  /** No queued insert names a row that the server has. */
  ghost predicate InsertsAreNew(rows: seq<Row>, server: Server) {
    forall t :: History(rows, t) != [] && History(rows, t)[0].op == Insert ==> t !in server
  }

  /**
   * Sending the consolidated mutations leaves any server map as sending every row in time order would,
   * whether an insert replaces or combines with an existing row; and also when it is refused, if the
   * inserted rows are new.
   */
  lemma ConsolidationPreservesMeaning(mode: OnConflict, server: Server, rows: seq<Row>, ms: seq<Mutation>)
    requires IsConsolidation(rows, ms) && AllWellShaped(rows) && (mode == Refuse ==> InsertsAreNew(rows, server))
    ensures SendAll(mode, server, ms) == Replay(mode, server, Sorting.Sort(rows, Time()))
  {
    var a, b := SendAll(mode, server, ms), Replay(mode, server, Sorting.Sort(rows, Time()));
    forall t ensures Get(a, t) == Get(b, t) {
      SameRow(mode, server, rows, ms, t);
    }
    SameEverywhere(a, b);
  }

  lemma SameEverywhere(a: Server, b: Server)
    requires forall t :: Get(a, t) == Get(b, t)
    ensures a == b
  {
    forall t ensures (t in a <==> t in b) && (t in a ==> a[t] == b[t]) {
      assert Get(a, t) == Get(b, t);
    }
  }

  lemma SameRow(mode: OnConflict, server: Server, rows: seq<Row>, ms: seq<Mutation>, t: Target)
    requires IsConsolidation(rows, ms) && AllWellShaped(rows) && (mode == Refuse ==> InsertsAreNew(rows, server))
    ensures Get(SendAll(mode, server, ms), t) == Get(Replay(mode, server, Sorting.Sort(rows, Time())), t)
  {
    var h := History(rows, t);
    SendAllAt(mode, server, ms, t);
    ReplayAt(mode, server, Sorting.Sort(rows, Time()), t);
    Sorting.SortFilter(rows, Time(), OnRow(t));
    assert OnlyFor(rows, ms, t) && WellShaped(h);
    if h != [] {
      MergerPreservesMeaning(mode, Get(server, t), h);
      assert [One(h)][..0] == [];
    }
  }

  /** Outside that shape meaning can be lost: a row that is deleted and inserted again stays deleted. */
  lemma ReinsertIsLost(mode: OnConflict, cur: Option<Fields>, t: Target, data: Fields)
    ensures var gone := Row("1", Delete, t, "", None, 1);
      var again := Row("2", Insert, t, "", Some(data), 2);
      && Eval(mode, cur, [gone, again]) == Some(data)
      && Slot(mode, cur, One([gone, again]).op, One([gone, again]).data) == None
  {
    var gone, again := Row("1", Delete, t, "", None, 1), Row("2", Insert, t, "", Some(data), 2);
    assert [gone, again][..1] == [gone] && [gone][..0] == [];
    assert [gone, again][0].op == Delete;
  }

  /** Nothing was inserted after the last delete. */
  predicate EndsDeleted(entries: seq<Row>) {
    entries != [] &&
    var last := entries[|entries| - 1];
    last.op == Delete || (!(last.op == Insert && last.data.Some?) && EndsDeleted(entries[..|entries| - 1]))
  }

  /** With a delete among its rows, of any shape, a target keeps its meaning exactly when it ends deleted. */
  lemma {:induction false} DeleteExactly(mode: OnConflict, cur: Option<Fields>, entries: seq<Row>)
    requires Has(entries, Delete)
    ensures Eval(mode, cur, entries) == Slot(mode, cur, One(entries).op, One(entries).data) <==> EndsDeleted(entries)
  {
    var front, last := entries[..|entries| - 1], entries[|entries| - 1];
    if last.op != Delete {
      var i :| 0 <= i < |entries| && entries[i].op == Delete;
      assert front[i].op == Delete;
      DeleteExactly(mode, cur, front);
    }
  }

  // ---- every queued record is in exactly one mutation ---------------------

  lemma {:induction false} IdsAre(entries: seq<Row>, id: string)
    ensures id in Ids(entries) <==> exists r :: r in entries && r.recordId == id
  {
    if entries != [] {
      var front, last := entries[..|entries| - 1], entries[|entries| - 1];
      IdsAre(front, id);
      assert entries == front + [last];
    }
  }

  lemma {:induction false} OnlyOne(ms: seq<Mutation>, t: Target, m: Mutation) returns (i: nat)
    requires Sorting.Filter(ms, OnMutation(t)) == [m]
    ensures i < |ms| && ms[i] == m && forall j :: 0 <= j < |ms| && ms[j].target == t ==> j == i
  {
    var front, last := ms[..|ms| - 1], ms[|ms| - 1];
    if last.target == t {
      i := |ms| - 1;
      var f := Sorting.Filter(front, OnMutation(t));
      assert (f + [last])[0] == m && |f| == 0;
      forall j | 0 <= j < |front| ensures ms[j].target != t {
        Sorting.FilterIn(front, OnMutation(t), front[j]);
        assert ms[j] == front[j];
      }
    } else {
      i := OnlyOne(front, t, m);
      forall j | 0 <= j < |ms| && ms[j].target == t ensures j == i {
        assert j < |front| && ms[j] == front[j];
      }
    }
  }

  ghost predicate DistinctIds(rows: seq<Row>) {
    forall r, r' :: r in rows && r' in rows && r.recordId == r'.recordId ==> r == r'
  }

  /** The mutation for a row's target carries its record id, and no other mutation does. */
  lemma EachRecordOnce(rows: seq<Row>, ms: seq<Mutation>, r: Row) returns (i: nat)
    requires IsConsolidation(rows, ms) && DistinctIds(rows) && r in rows
    ensures i < |ms| && ms[i].target == r.target
    ensures forall j :: 0 <= j < |ms| ==> (r.recordId in ms[j].recordIds <==> j == i)
  {
    var t := r.target;
    HistoryTarget(rows, t, r);
    assert OnlyFor(rows, ms, t);
    i := OnlyOne(ms, t, One(History(rows, t)));
    OneTarget(rows, t);
    forall j | 0 <= j < |ms| ensures r.recordId in ms[j].recordIds <==> j == i {
      CarriesIds(rows, ms, j, r);
    }
  }

  lemma CarriesIds(rows: seq<Row>, ms: seq<Mutation>, j: nat, r: Row)
    requires IsConsolidation(rows, ms) && DistinctIds(rows) && r in rows && j < |ms|
    ensures r.recordId in ms[j].recordIds <==> ms[j].target == r.target
  {
    var t := ms[j].target;
    Sorting.FilterIn(ms, OnMutation(t), ms[j]);
    assert OnlyFor(rows, ms, t);
    assert ms[j] == One(History(rows, t));
    IdsAre(History(rows, t), r.recordId);
    HistoryTarget(rows, t, r);
    if r' :| r' in History(rows, t) && r'.recordId == r.recordId {
      HistoryTarget(rows, t, r');
    }
  }

  // ---- when and where a mutation is sent -------------------------------------

  /** A mutation carries the time and the scope of its target's earliest row, the first queued among equals. */
  lemma EarliestRow(rows: seq<Row>, t: Target) returns (i: nat)
    requires History(rows, t) != []
    ensures i < |rows| && rows[i].target == t
    ensures One(History(rows, t)).first == rows[i].at && One(History(rows, t)).scope == rows[i].scope
    ensures forall j :: 0 <= j < |rows| && rows[j].target == t ==>
      rows[i].at < rows[j].at || (rows[i].at == rows[j].at && i <= j)
  {
    assert Group(rows, t) != [];
    i := Sorting.SelectedHead(rows, OnRow(t), Time());
  }

  /** Earlier mutations are sent first; at the same time inserts before updates before deletes. */
  lemma SentInOrder(rows: seq<Row>, ms: seq<Mutation>, i: nat, j: nat)
    requires IsConsolidation(rows, ms) && i < j < |ms|
    ensures ms[i].first < ms[j].first ||
      (ms[i].first == ms[j].first && (ms[i].op == Insert || ms[i].op == ms[j].op || ms[j].op == Delete))
  {
    assert Rank()(ms[i]) <= Rank()(ms[j]);
  }
}
