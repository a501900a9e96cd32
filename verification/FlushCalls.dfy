/** What the calls of a flush do to the server. */
module FlushCalls {
  import opened Bytes
  import opened Consolidation
  import opened QueueShapes
  import opened Flush
  import Sorting

  /** A create inserts, a change updates, a remove deletes; looking and forgetting leave the server alone. */
  function AfterCall(mode: OnConflict, server: Server, c: Call): Server {
    match c
    case Create(t, _, data) => Set(server, t, Slot(mode, Get(server, t), Insert, Some(data)))
    case Change(t, _, data) => Set(server, t, Slot(mode, Get(server, t), Update, Some(data)))
    case Remove(t, _) => Set(server, t, Slot(mode, Get(server, t), Delete, None))
    case Look(_) => server
    case Forget(_) => server
  }

  function AfterCalls(mode: OnConflict, server: Server, calls: seq<Call>): Server {
    if calls == [] then server
    else AfterCall(mode, AfterCalls(mode, server, calls[..|calls| - 1]), calls[|calls| - 1])
  }

  lemma {:induction false} AfterConcat(mode: OnConflict, server: Server, a: seq<Call>, b: seq<Call>)
    ensures AfterCalls(mode, server, a + b) == AfterCalls(mode, AfterCalls(mode, server, a), b)
  {
    if b == [] {
      assert a + b == a;
    } else {
      AfterConcat(mode, server, a, b[..|b| - 1]);
      assert (a + b)[..|a + b| - 1] == a + b[..|b| - 1];
    }
  }

  lemma AfterOne(mode: OnConflict, server: Server, c: Call)
    ensures AfterCalls(mode, server, [c]) == AfterCall(mode, server, c)
  {
    assert [c][..0] == [];
  }

  lemma SetSame(server: Server, t: Target)
    ensures Set(server, t, Get(server, t)) == server
  {
  }

  /** One mutation that is sent without trouble does to the server what it says. */
  lemma DoneMeans(mode: OnConflict, server: Server, m: Mutation, root: string, a: Answers)
    requires a.first.Done?
    ensures AfterCalls(mode, server, CallsFor(m, root, a)) ==
      Set(server, m.target, Slot(mode, Get(server, m.target), m.op, m.data))
  {
    SetSame(server, m.target);
    assert FirstCall(m) + [] == FirstCall(m);
    if FirstCall(m) != [] {
      AfterOne(mode, server, FirstCall(m)[0]);
      assert FirstCall(m) == [FirstCall(m)[0]];
    }
  }

  /** A flush that is never refused does what its mutations say. */
  lemma {:induction false} CallsMeanMutations(
      mode: OnConflict, server: Server, ms: seq<Mutation>, root: string, ask: Asked)
    requires forall m :: m in ms ==> ask(m.target).first.Done?
    ensures AfterCalls(mode, server, Called(ms, root, ask)) == SendAll(mode, server, ms)
  {
    if ms != [] {
      var front, last := ms[..|ms| - 1], ms[|ms| - 1];
      CallsMeanMutations(mode, server, front, root, ask);
      AfterConcat(mode, server, Called(front, root, ask), CallsFor(last, root, ask(last.target)));
      DoneMeans(mode, SendAll(mode, server, front), last, root, ask(last.target));
    }
  }

  /**
   * The whole way: queued rows, consolidated and sent without trouble, leave the server as sending every row in the
   * order of its time would, exactly when each row's entries keep their meaning.
   */
  lemma FlushMeansReplay(mode: OnConflict, server: Server, rows: seq<Row>, ms: seq<Mutation>, root: string, ask: Asked)
    requires IsConsolidation(rows, ms) && forall m :: m in ms ==> ask(m.target).first.Done?
    ensures AfterCalls(mode, server, Called(ms, root, ask)) == Replay(mode, server, Sorting.Sort(rows, Time())) <==>
      forall t :: Keeps(mode, Get(server, t), History(rows, t))
  {
    CallsMeanMutations(mode, server, ms, root, ask);
    QueueExactly(mode, server, rows, ms);
  }

  // ---- after a refusal ------------------------------------------------------

  /** An insert that conflicts with a row that is there is sent again as an update of its own data. */
  lemma ConflictIsUpdated(m: Mutation, root: string, a: Answers)
    requires m.op == Insert && m.data.Some? && a.first == Failed(Conflict) && a.read.Present?
    ensures CallsFor(m, root, a) ==
      [Create(m.target, m.scope, m.data.value), Look(m.target), Change(m.target, m.scope, m.data.value)]
  {
  }

  /** An update of a row other than a root row that the server lacks is sent again as a create of the row read. */
  lemma MissingIsCreated(m: Mutation, root: string, a: Answers)
    requires m.op == Update && m.data.Some? && m.target.entity != root && a.first == Failed(NotFound) && a.read.Present?
    ensures CallsFor(m, root, a) ==
      [Change(m.target, m.scope, m.data.value), Look(m.target), Create(m.target, m.scope, a.read.row)]
  {
  }

  lemma AfterThree(mode: OnConflict, server: Server, a: Call, b: Call, c: Call)
    ensures AfterCalls(mode, server, [a, b, c]) == AfterCall(mode, AfterCall(mode, AfterCall(mode, server, a), b), c)
  {
    assert [a, b, c][..2] == [a, b] && [a, b][..1] == [a];
    AfterOne(mode, server, a);
  }

  /** So on a server that refuses the insert, the row ends up with the inserted fields over its own. */
  lemma ConflictLands(server: Server, m: Mutation, root: string, a: Answers)
    requires m.op == Insert && m.data.Some? && a.first == Failed(Conflict) && a.read.Present? && m.target in server
    ensures AfterCalls(Refuse, server, CallsFor(m, root, a)) ==
      server[m.target := server[m.target] + m.data.value]
  {
    ConflictIsUpdated(m, root, a);
    var t, d := m.target, m.data.value;
    SetSame(server, t);
    AfterThree(Refuse, server, Create(t, m.scope, d), Look(t), Change(t, m.scope, d));
  }

  /** And on a server that lacks the updated row, the row ends up as it was read. */
  lemma MissingLands(mode: OnConflict, server: Server, m: Mutation, root: string, a: Answers)
    requires m.op == Update && m.data.Some? && m.target.entity != root && a.first == Failed(NotFound) && a.read.Present?
    requires m.target !in server
    ensures AfterCalls(mode, server, CallsFor(m, root, a)) == server[m.target := a.read.row]
  {
    MissingIsCreated(m, root, a);
    var t := m.target;
    SetSame(server, t);
    AfterThree(mode, server, Change(t, m.scope, m.data.value), Look(t), Create(t, m.scope, a.read.row));
  }

  /** Every call is about the mutation's own row and scope, and a mutation without data or effect makes none. */
  lemma CallsAreOwn(m: Mutation, root: string, a: Answers)
    ensures forall c :: c in CallsFor(m, root, a) ==>
      c.target == m.target && (c.Create? || c.Change? || c.Remove? ==> c.scope == m.scope)
    ensures CallsFor(m, root, a) == [] <==> m.op != Delete && m.data.None?
  {
  }

  /** Updates that set no field are not sent at all. */
  lemma EmptyUpdatesAreSilent(entries: seq<Row>, root: string, a: Answers)
    requires entries != [] && !Has(entries, Insert) && !Has(entries, Delete) && Laid(entries) == map[]
    ensures CallsFor(One(entries), root, a) == []
  {
  }
}
