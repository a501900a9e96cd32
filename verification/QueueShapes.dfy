/** Which queues keep their meaning when they are consolidated, beyond the well-shaped ones. */
module QueueShapes {
  import opened Bytes
  import opened Consolidation
  import Sorting

  /** Sending the merger leaves the row as sending every entry would. */
  predicate KeepsMeaning(mode: OnConflict, cur: Option<Fields>, entries: seq<Row>) {
    entries == [] || Eval(mode, cur, entries) == Slot(mode, cur, One(entries).op, One(entries).data)
  }

  // ---- from rows to queues -------------------------------------------------

  lemma RowByRow(mode: OnConflict, server: Server, rows: seq<Row>, ms: seq<Mutation>, t: Target)
    requires IsConsolidation(rows, ms)
    ensures Get(SendAll(mode, server, ms), t) == Get(Replay(mode, server, Sorting.Sort(rows, Time())), t) <==>
      KeepsMeaning(mode, Get(server, t), History(rows, t))
  {
    var h := History(rows, t);
    SendAllAt(mode, server, ms, t);
    ReplayAt(mode, server, Sorting.Sort(rows, Time()), t);
    Sorting.SortFilter(rows, Time(), OnRow(t));
    assert OnlyFor(rows, ms, t);
    if h != [] {
      assert [One(h)][..0] == [];
    }
  }

  /** A queue of any shape keeps its meaning exactly when each row's history does. */
  lemma QueueKeepsExactly(mode: OnConflict, server: Server, rows: seq<Row>, ms: seq<Mutation>)
    requires IsConsolidation(rows, ms)
    ensures SendAll(mode, server, ms) == Replay(mode, server, Sorting.Sort(rows, Time())) <==>
      forall t :: KeepsMeaning(mode, Get(server, t), History(rows, t))
  {
    var a, b := SendAll(mode, server, ms), Replay(mode, server, Sorting.Sort(rows, Time()));
    forall t ensures Get(a, t) == Get(b, t) <==> KeepsMeaning(mode, Get(server, t), History(rows, t)) {
      RowByRow(mode, server, rows, ms, t);
    }
    if forall t :: KeepsMeaning(mode, Get(server, t), History(rows, t)) {
      SameEverywhere(a, b);
    }
  }

  /** Histories without a delete are well shaped, and their inserts are new where the server refuses. */
  ghost predicate RestIsPlain(mode: OnConflict, server: Server, rows: seq<Row>) {
    forall t :: PlainAt(mode, server, History(rows, t), t)
  }

  predicate PlainAt(mode: OnConflict, server: Server, h: seq<Row>, t: Target) {
    !Has(h, Delete) ==> WellShaped(h) && (mode == Refuse && h != [] && h[0].op == Insert ==> t !in server)
  }

  /** Then the deletes decide: nothing with data may be inserted after a row's last delete. */
  lemma DeletesDecide(mode: OnConflict, server: Server, rows: seq<Row>, ms: seq<Mutation>)
    requires IsConsolidation(rows, ms) && RestIsPlain(mode, server, rows)
    ensures SendAll(mode, server, ms) == Replay(mode, server, Sorting.Sort(rows, Time())) <==>
      forall t :: Has(History(rows, t), Delete) ==> EndsDeleted(History(rows, t))
  {
    QueueKeepsExactly(mode, server, rows, ms);
    forall t
      ensures KeepsMeaning(mode, Get(server, t), History(rows, t)) <==>
        (Has(History(rows, t), Delete) ==> EndsDeleted(History(rows, t)))
    {
      var h := History(rows, t);
      assert PlainAt(mode, server, h, t);
      if Has(h, Delete) {
        DeleteExactly(mode, Get(server, t), h);
      } else if h != [] {
        MergerPreservesMeaning(mode, Get(server, t), h);
      }
    }
  }

  // ---- histories without a delete -----------------------------------------

  predicate Fills(e: Row) {
    e.op == Insert && e.data.Some?
  }

  function DataOf(e: Row): Fields {
    if e.data.Some? then e.data.value else map[]
  }

  /** The entries from the first insert with data on, and from the last one on; none without such an insert. */
  function SinceFirst(entries: seq<Row>): seq<Row> {
    if entries == [] then []
    else
      var since, last := SinceFirst(entries[..|entries| - 1]), entries[|entries| - 1];
      if since != [] || Fills(last) then since + [last] else []
  }

  function SinceLast(entries: seq<Row>): seq<Row> {
    if entries == [] then []
    else
      var since, last := SinceLast(entries[..|entries| - 1]), entries[|entries| - 1];
      if Fills(last) then [last] else if since != [] then since + [last] else []
  }

  /** The fields that the updates lay down, and those that all entries do. */
  function Laid(entries: seq<Row>): Fields {
    Overlay(map[], entries)
  }

  function AllLaid(entries: seq<Row>): Fields {
    if entries == [] then map[] else AllLaid(entries[..|entries| - 1]) + DataOf(entries[|entries| - 1])
  }

  /** A row inserted by the first of these entries and updated by the others. */
  function Grown(entries: seq<Row>): Fields
    requires entries != []
  {
    DataOf(entries[0]) + Laid(entries)
  }

  /** Laid over `c`, both come to the same: they agree where both have a field, and elsewhere `c` has the value. */
  ghost predicate Agree(a: Fields, b: Fields, c: Fields) {
    && (forall k :: k in a && k in b ==> a[k] == b[k])
    && (forall k :: k in a && k !in b ==> k in c && c[k] == a[k])
    && (forall k :: k in b && k !in a ==> k in c && c[k] == b[k])
  }

  lemma AgreeExactly(a: Fields, b: Fields, c: Fields)
    ensures c + a == c + b <==> Agree(a, b, c)
  {
    if c + a == c + b {
      forall k | k in a || k in b
        ensures (k in a && k in b ==> a[k] == b[k])
        ensures (k in a && k !in b ==> k in c && c[k] == a[k])
        ensures (k in b && k !in a ==> k in c && c[k] == b[k])
      {
        assert k in c + a && k in c + b && (c + a)[k] == (c + b)[k];
      }
    }
  }

  lemma CoveredExactly(c: Fields, w: Fields)
    ensures c + w == w <==> c.Keys <= w.Keys
  {
    if c + w == w {
      forall k | k in c ensures k in w {
        assert k in c + w;
      }
    }
  }

  lemma LaidOver(base: Fields, entries: seq<Row>)
    ensures Overlay(base, entries) == base + Laid(entries)
  {
    OverlayOnTop(base, map[], entries);
    assert base + map[] == base;
  }

  lemma NoDeleteBefore(entries: seq<Row>)
    requires entries != [] && !Has(entries, Delete)
    ensures !Has(entries[..|entries| - 1], Delete) && entries[|entries| - 1].op != Delete
  {
    var front, last := entries[..|entries| - 1], entries[|entries| - 1];
    assert entries == front + [last];
    HasSnoc(front, last, Delete);
  }

  /** One entry more. */
  lemma LaidSnoc(entries: seq<Row>, e: Row)
    ensures Laid(entries + [e]) == if e.op != Insert then Laid(entries) + DataOf(e) else Laid(entries)
    ensures AllLaid(entries + [e]) == AllLaid(entries) + DataOf(e)
  {
    assert (entries + [e])[..|entries|] == entries;
    assert Laid(entries) + map[] == Laid(entries);
  }

  lemma GrownSnoc(entries: seq<Row>, e: Row)
    requires entries != []
    ensures Grown(entries + [e]) == if e.op != Insert then Grown(entries) + DataOf(e) else Grown(entries)
  {
    LaidSnoc(entries, e);
    PlusAssociates(DataOf(entries[0]), Laid(entries), DataOf(e));
  }

  lemma GrownOne(e: Row)
    requires Fills(e)
    ensures Grown([e]) == e.data.value && AllLaid([e]) == e.data.value
  {
    assert [] + [e] == [e];
    LaidSnoc([], e);
    assert map[] + e.data.value == e.data.value && e.data.value + map[] == e.data.value;
  }

  /** Where inserts replace, everything before the last one with data is forgotten. */
  lemma {:induction false} ReplacedRow(cur: Option<Fields>, entries: seq<Row>)
    requires !Has(entries, Delete)
    ensures Eval(Replace, cur, entries) ==
      if SinceLast(entries) != [] then Some(Grown(SinceLast(entries))) else Updated(cur, Laid(entries))
  {
    if entries == [] {
      UpdatedNone(cur);
    } else {
      var front, last := entries[..|entries| - 1], entries[|entries| - 1];
      assert entries == front + [last];
      NoDeleteBefore(entries);
      ReplacedRow(cur, front);
      if Fills(last) {
        GrownOne(last);
      } else if SinceLast(front) != [] {
        GrownSnoc(SinceLast(front), last);
        PlusNothing(Grown(SinceLast(front)), last);
      } else {
        UpdatedSnoc(cur, front, last);
      }
    }
  }

  function Updated(cur: Option<Fields>, laid: Fields): Option<Fields> {
    if cur.Some? then Some(cur.value + laid) else None
  }

  lemma UpdatedNone(cur: Option<Fields>)
    ensures Updated(cur, map[]) == cur
  {
    if cur.Some? {
      assert cur.value + map[] == cur.value;
    }
  }

  lemma PlusNothing(base: Fields, e: Row)
    ensures e.data.None? ==> base + DataOf(e) == base
  {
  }

  /** One more update, or an insert that counts for nothing. */
  lemma UpdatedSnoc(cur: Option<Fields>, entries: seq<Row>, e: Row)
    ensures Updated(cur, Laid(entries + [e])) ==
      if e.op == Insert then Updated(cur, Laid(entries)) else Slot(Replace, Updated(cur, Laid(entries)), Update, e.data)
  {
    LaidSnoc(entries, e);
    if cur.Some? {
      PlusAssociates(cur.value, Laid(entries), DataOf(e));
      PlusNothing(cur.value + Laid(entries), e);
    }
  }

  lemma AllLaidSnoc(entries: seq<Row>, e: Row)
    ensures AllLaid(entries + [e]) == AllLaid(entries) + DataOf(e)
  {
    LaidSnoc(entries, e);
  }

  lemma CombineSlot(row: Fields, e: Row)
    requires e.op != Delete
    ensures Slot(Combine, Some(row), e.op, e.data) == Some(row + DataOf(e))
  {
    PlusNothing(row, e);
  }

  /** Where they combine, an insert of a row that is there is another update. */
  lemma {:induction false} CombinedRow(row: Fields, entries: seq<Row>)
    requires !Has(entries, Delete)
    ensures Eval(Combine, Some(row), entries) == Some(row + AllLaid(entries))
  {
    if entries == [] {
      assert row + map[] == row;
    } else {
      var front, last := entries[..|entries| - 1], entries[|entries| - 1];
      NoDeleteBefore(entries);
      CombinedRow(row, front);
      PlusAssociates(row, AllLaid(front), DataOf(last));
      CombineSlot(row + AllLaid(front), last);
    }
  }

  lemma {:induction false} CombinedNew(entries: seq<Row>)
    requires !Has(entries, Delete)
    ensures Eval(Combine, None, entries) ==
      if SinceFirst(entries) != [] then Some(AllLaid(SinceFirst(entries))) else None
  {
    if entries != [] {
      var front, last := entries[..|entries| - 1], entries[|entries| - 1];
      NoDeleteBefore(entries);
      CombinedNew(front);
      if SinceFirst(front) != [] {
        AllLaidSnoc(SinceFirst(front), last);
        CombineSlot(AllLaid(SinceFirst(front)), last);
      } else if Fills(last) {
        GrownOne(last);
        assert SinceFirst(entries) == [last];
      }
    }
  }

  /** Where they are refused, only the first insert of a missing row counts. */
  lemma {:induction false} RefusedRow(row: Fields, entries: seq<Row>)
    requires !Has(entries, Delete)
    ensures Eval(Refuse, Some(row), entries) == Some(row + Laid(entries))
  {
    if entries == [] {
      assert row + map[] == row;
    } else {
      var front, last := entries[..|entries| - 1], entries[|entries| - 1];
      assert entries == front + [last];
      NoDeleteBefore(entries);
      RefusedRow(row, front);
      UpdatedSnoc(Some(row), front, last);
    }
  }

  lemma {:induction false} RefusedNew(entries: seq<Row>)
    requires !Has(entries, Delete)
    ensures Eval(Refuse, None, entries) ==
      if SinceFirst(entries) != [] then Some(Grown(SinceFirst(entries))) else None
  {
    if entries != [] {
      var front, last := entries[..|entries| - 1], entries[|entries| - 1];
      NoDeleteBefore(entries);
      RefusedNew(front);
      if SinceFirst(front) != [] {
        GrownSnoc(SinceFirst(front), last);
        PlusNothing(Grown(SinceFirst(front)), last);
      } else if Fills(last) {
        GrownOne(last);
        assert [] + [last] == [last];
      }
    }
  }

  /** The fields that the merger of a history with inserts sends. */
  function Sent(entries: seq<Row>): Fields {
    InsertData(entries) + Laid(entries)
  }

  /**
   * When any number of inserts, with or without data, among any updates keep their meaning. A replacing server must
   * build the row sent from the last insert with data, or, if there is none, must have no field beyond those sent; a
   * combining one must see all entries agree with those sent, or build the row sent from the first insert with data;
   * a refusing one must have every updated field already, or build the row sent from the first insert with data.
   */
  ghost predicate InsertsKeep(mode: OnConflict, cur: Option<Fields>, entries: seq<Row>) {
    match mode
    case Replace =>
      if SinceLast(entries) != [] then Grown(SinceLast(entries)) == Sent(entries)
      else cur.Some? && cur.value.Keys <= Sent(entries).Keys
    case Combine =>
      if cur.Some? then Agree(AllLaid(entries), Sent(entries), cur.value)
      else SinceFirst(entries) != [] && AllLaid(SinceFirst(entries)) == Sent(entries)
    case Refuse =>
      if cur.Some? then Agree(Laid(entries), map[], cur.value)
      else SinceFirst(entries) != [] && Grown(SinceFirst(entries)) == Sent(entries)
  }

  lemma {:induction false} NothingInserted(entries: seq<Row>)
    requires SinceLast(entries) == []
    ensures InsertData(entries) == map[]
    decreases |entries|
  {
    if entries != [] {
      FirstDoesNotFill(entries);
      if entries[0].op != Insert {
        NothingInserted(entries[1..]);
      }
    }
  }

  lemma {:induction false} FirstDoesNotFill(entries: seq<Row>)
    requires entries != [] && SinceLast(entries) == []
    ensures !Fills(entries[0]) && SinceLast(entries[1..]) == []
    decreases |entries|
  {
    if |entries| > 1 {
      var front := entries[..|entries| - 1];
      FirstDoesNotFill(front);
      assert entries[1..][..|entries| - 2] == front[1..];
    }
  }

  lemma InsertsExactly(mode: OnConflict, cur: Option<Fields>, entries: seq<Row>)
    requires Has(entries, Insert) && !Has(entries, Delete)
    ensures KeepsMeaning(mode, cur, entries) <==> InsertsKeep(mode, cur, entries)
  {
    LaidOver(InsertData(entries), entries);
    match mode
    case Replace =>
      ReplacedRow(cur, entries);
      if SinceLast(entries) == [] && cur.Some? {
        NothingInserted(entries);
        assert map[] + Laid(entries) == Laid(entries);
        CoveredExactly(cur.value, Laid(entries));
      }
    case Combine =>
      if cur.Some? {
        CombinedRow(cur.value, entries);
        AgreeExactly(AllLaid(entries), Sent(entries), cur.value);
      } else {
        CombinedNew(entries);
      }
    case Refuse =>
      if cur.Some? {
        RefusedRow(cur.value, entries);
        AgreeExactly(Laid(entries), map[], cur.value);
        assert cur.value + map[] == cur.value;
      } else {
        RefusedNew(entries);
      }
  }

  // ---- every history, every queue -------------------------------------------

  /** Deletes decide, then inserts; updates alone always keep their meaning. */
  ghost predicate Keeps(mode: OnConflict, cur: Option<Fields>, entries: seq<Row>) {
    if Has(entries, Delete) then EndsDeleted(entries)
    else Has(entries, Insert) ==> InsertsKeep(mode, cur, entries)
  }

  lemma HistoryExactly(mode: OnConflict, cur: Option<Fields>, entries: seq<Row>)
    ensures KeepsMeaning(mode, cur, entries) <==> Keeps(mode, cur, entries)
  {
    if Has(entries, Delete) {
      DeleteExactly(mode, cur, entries);
    } else if Has(entries, Insert) {
      InsertsExactly(mode, cur, entries);
    } else if entries != [] {
      forall i | 0 <= i < |entries| ensures entries[i].op == Update {
        assert entries[i].op != Insert && entries[i].op != Delete;
      }
      MergerPreservesMeaning(mode, cur, entries);
    }
  }

  /** Whatever was queued, on every server: consolidation keeps the meaning exactly when each row's entries say so. */
  lemma QueueExactly(mode: OnConflict, server: Server, rows: seq<Row>, ms: seq<Mutation>)
    requires IsConsolidation(rows, ms)
    ensures SendAll(mode, server, ms) == Replay(mode, server, Sorting.Sort(rows, Time())) <==>
      forall t :: Keeps(mode, Get(server, t), History(rows, t))
  {
    QueueKeepsExactly(mode, server, rows, ms);
    forall t
      ensures KeepsMeaning(mode, Get(server, t), History(rows, t)) <==> Keeps(mode, Get(server, t), History(rows, t))
    {
      HistoryExactly(mode, Get(server, t), History(rows, t));
    }
  }

  /** A second insert that replaces the first is lost. */
  lemma SecondInsertIsLost(cur: Option<Fields>, t: Target, a: Fields, b: Fields)
    requires a != b
    ensures var h := [Row("1", Insert, t, "", Some(a), 1), Row("2", Insert, t, "", Some(b), 2)];
      !KeepsMeaning(Replace, cur, h)
  {
    var x, y := Row("1", Insert, t, "", Some(a), 1), Row("2", Insert, t, "", Some(b), 2);
    var h := [x, y];
    assert h == [x] + [y] && h[..1] == [x] && [x] == [] + [x];
    assert h[0].op == Insert && !Has(h, Delete);
    InsertsExactly(Replace, cur, h);
    LaidSnoc([x], y);
    LaidSnoc([], x);
    GrownOne(y);
    assert a + map[] == a;
  }
}
