/**
 * Opening a scope while its mutations keep arriving. Every lock is taken and released by itself, so the
 * sections of the opener and of the message handlers interleave in any way.
 */
module ScopeWindow {
  import opened Bytes
  import opened Collections

  /** One scope's share of the tables: is its state awaited, what is buffered for it, what went to the bus. */
  datatype Tables<M> = Tables(awaiting: bool, buffer: Option<seq<M>>, bus: seq<M>)

  function Marked<M>(t: Tables<M>): Tables<M> {
    t.(awaiting := true)
  }

  function Prepared<M>(t: Tables<M>): Tables<M> {
    t.(buffer := Some([]))
  }

  function Contents<M>(t: Tables<M>): seq<M> {
    if t.buffer.Some? then t.buffer.value else []
  }

  function Emptied<M>(t: Tables<M>): Tables<M> {
    t.(buffer := None)
  }

  function Unmarked<M>(t: Tables<M>): Tables<M> {
    t.(awaiting := false)
  }

  /** A mutation is buffered if the scope was awaiting when asked and the buffer is still there. */
  predicate Takes<M>(t: Tables<M>, asked: bool) {
    asked && t.buffer.Some?
  }

  function Stored<M>(t: Tables<M>, asked: bool, m: M): Tables<M> {
    if Takes(t, asked) then t.(buffer := Some(t.buffer.value + [m])) else t
  }

  /** Own mutations that were not buffered are dropped. */
  function Published<M>(t: Tables<M>, own: bool, m: M): Tables<M> {
    if own then t else t.(bus := t.bus + [m])
  }

  // ---- interleavings -----------------------------------------------------

  /** How far a handler has come with its message. */
  datatype Stage = Fresh | Asked(awaiting: bool) | Unbuffered | Finished

  /** A failed opener stops awaiting first and discards its buffer afterwards. */
  datatype Opener = NotYet | Marking | Buffering | Taken | Opened | Failing | Failed

  /**
   * Messages are numbered; `own[i]` says whether message `i` is an echo of our own write. `result` is what a
   * successful opener got, `lost` what a failed one discarded.
   */
  datatype World = World(tables: Tables<nat>, stages: seq<Stage>, opener: Opener, result: seq<nat>, lost: seq<nat>)

  datatype Step = Mark | Prepare | Take | Unmark | Fail | Discard | Ask(i: nat) | Store(i: nat) | Publish(i: nat)

  predicate Enabled(w: World, own: seq<bool>, step: Step) {
    && |own| == |w.stages|
    && match step
       case Mark => w.opener == NotYet
       case Prepare => w.opener == Marking
       case Take => w.opener == Buffering
       case Unmark => w.opener == Taken
       case Fail => w.opener == Buffering
       case Discard => w.opener == Failing
       case Ask(i) => i < |own| && w.stages[i] == Fresh
       case Store(i) => i < |own| && w.stages[i].Asked?
       case Publish(i) => i < |own| && w.stages[i] == Unbuffered
  }

  function Next(w: World, own: seq<bool>, step: Step): World
    requires Enabled(w, own, step)
  {
    match step
    case Mark => w.(tables := Marked(w.tables), opener := Marking)
    case Prepare => w.(tables := Prepared(w.tables), opener := Buffering)
    case Take => w.(tables := Emptied(w.tables), opener := Taken, result := Contents(w.tables))
    case Unmark => w.(tables := Unmarked(w.tables), opener := Opened)
    case Fail => w.(tables := Unmarked(w.tables), opener := Failing)
    case Discard => w.(tables := Emptied(w.tables), opener := Failed, lost := Contents(w.tables))
    case Ask(i) => w.(stages := w.stages[i := Asked(w.tables.awaiting)])
    case Store(i) =>
      var asked := w.stages[i].awaiting;
      var stage := if Takes(w.tables, asked) then Finished else Unbuffered;
      w.(tables := Stored(w.tables, asked, i), stages := w.stages[i := stage])
    case Publish(i) =>
      w.(tables := Published(w.tables, own[i], i), stages := w.stages[i := Finished])
  }

  predicate Start(w: World) {
    && w.tables == Tables(false, None, []) && w.opener == NotYet && w.result == [] && w.lost == []
    && forall i :: 0 <= i < |w.stages| ==> w.stages[i] == Fresh
  }

  /** Everything that was ever buffered: handed over, discarded or still there. */
  function Caught(w: World): seq<nat> {
    w.result + w.lost + Contents(w.tables)
  }

  /** Everything that has come to rest. */
  function AtRest(w: World): seq<nat> {
    Caught(w) + w.tables.bus
  }

  /** The tables follow the opener: awaited from marking to the end, a buffer from preparing to taking or discarding. */
  predicate TablesFollow(w: World) {
    && w.tables.awaiting == (w.opener == Marking || w.opener == Buffering || w.opener == Taken)
    && w.tables.buffer.Some? == (w.opener == Buffering || w.opener == Failing)
    && (w.result != [] ==> w.opener == Taken || w.opener == Opened)
    && (w.lost != [] ==> w.opener == Failed)
  }

  ghost predicate Inv(w: World, own: seq<bool>) {
    && |own| == |w.stages| && TablesFollow(w) && Distinct(AtRest(w))
    && (forall i :: i in AtRest(w) ==> i < |own| && w.stages[i] == Finished)
    && (forall i :: 0 <= i < |own| && w.stages[i] == Finished && !own[i] ==> i in AtRest(w))
    && (forall i :: i in w.tables.bus ==> i < |own| && !own[i])
  }

  lemma DistinctMore<T>(a: seq<T>, b: seq<T>, x: T)
    requires Distinct(a + b) && x !in a + b
    ensures Distinct(a + [x] + b) && forall y :: y in a + [x] + b <==> y in a + b || y == x
  {
    var s, t := a + b, a + [x] + b;
    forall y ensures y in t <==> y in s || y == x {
      assert y in t <==> y in a || y == x || y in b;
      assert y in s <==> y in a || y in b;
    }
    forall i, j | 0 <= i < j < |t| ensures t[i] != t[j] {
      var i' := if i <= |a| then i else i - 1;
      var j' := if j <= |a| then j else j - 1;
      assert i != |a| ==> t[i] == s[i'] && s[i'] in s;
      assert j != |a| ==> t[j] == s[j'] && s[j'] in s;
    }
  }

  lemma StoreKeeps(w: World, own: seq<bool>, i: nat)
    requires Inv(w, own) && Enabled(w, own, Store(i))
    ensures Inv(Next(w, own, Store(i)), own)
  {
    var v := Next(w, own, Store(i));
    if Takes(w.tables, w.stages[i].awaiting) {
      assert Caught(v) == Caught(w) + [i];
      DistinctMore(Caught(w), w.tables.bus, i);
    }
  }

  lemma PublishKeeps(w: World, own: seq<bool>, i: nat)
    requires Inv(w, own) && Enabled(w, own, Publish(i))
    ensures Inv(Next(w, own, Publish(i)), own)
  {
    var v := Next(w, own, Publish(i));
    if !own[i] {
      assert AtRest(w) + [] == AtRest(w);
      assert AtRest(v) == AtRest(w) + [i] + [];
      DistinctMore(AtRest(w), [], i);
    }
  }

  lemma StepKeeps(w: World, own: seq<bool>, step: Step)
    requires Inv(w, own) && Enabled(w, own, step)
    ensures Inv(Next(w, own, step), own)
  {
    match step
    case Store(i) => StoreKeeps(w, own, i);
    case Publish(i) => PublishKeeps(w, own, i);
    case _ => assert Caught(Next(w, own, step)) == Caught(w);
  }

  ghost predicate StepAt(run: seq<World>, own: seq<bool>, steps: seq<Step>, i: nat)
    requires 0 < i < |run| == |steps| + 1
  {
    Enabled(run[i - 1], own, steps[i - 1]) && run[i] == Next(run[i - 1], own, steps[i - 1])
  }

  ghost predicate IsRun(run: seq<World>, own: seq<bool>, steps: seq<Step>) {
    && |run| == |steps| + 1 && Start(run[0]) && |own| == |run[0].stages|
    && forall i: nat :: 0 < i < |run| ==> StepAt(run, own, steps, i)
  }

  lemma {:induction false} RunHolds(run: seq<World>, own: seq<bool>, steps: seq<Step>, i: nat)
    requires IsRun(run, own, steps) && i < |run|
    ensures Inv(run[i], own)
  {
    if i > 0 {
      RunHolds(run, own, steps, i - 1);
      assert StepAt(run, own, steps, i);
      StepKeeps(run[i - 1], own, steps[i - 1]);
    }
  }

  ghost predicate Once<T>(s: seq<T>, x: T) {
    exists k :: 0 <= k < |s| && s[k] == x && forall j :: 0 <= j < |s| && s[j] == x ==> j == k
  }

  /**
   * Once the scope is open and the handlers are done, each foreign mutation is exactly once among what the
   * opener got and what went to the bus; own ones never reach the bus.
   */
  lemma NothingLost(run: seq<World>, own: seq<bool>, steps: seq<Step>, i: nat)
    requires IsRun(run, own, steps) && i < |own|
    requires var w := run[|steps|]; w.opener == Opened && |w.stages| == |own| && w.stages[i] == Finished
    ensures var w := run[|steps|];
      (if own[i] then i !in w.tables.bus else Once(w.result + w.tables.bus, i))
  {
    var w := run[|steps|];
    RunHolds(run, own, steps, |steps|);
    assert Caught(w) == w.result;
    if !own[i] {
      var k :| 0 <= k < |AtRest(w)| && AtRest(w)[k] == i;
    }
  }

  // ---- what is buffered ----------------------------------------------------

  /** Message `i` was asked about while the scope was awaited and stored while the buffer was up. */
  ghost predicate Hit(run: seq<World>, steps: seq<Step>, i: nat, a: nat, b: nat)
    requires |run| == |steps| + 1
  {
    && 0 < a < b < |run| && steps[a - 1] == Ask(i) && steps[b - 1] == Store(i)
    && (run[a - 1].opener == Marking || run[a - 1].opener == Buffering || run[a - 1].opener == Taken)
    && (run[b - 1].opener == Buffering || run[b - 1].opener == Failing)
  }

  ghost predicate HitBy(run: seq<World>, steps: seq<Step>, i: nat, n: nat)
    requires |run| == |steps| + 1
  {
    exists a: nat, b: nat :: b <= n && Hit(run, steps, i, a, b)
  }

  /** What has been buffered stays caught. */
  lemma StepCarries(w: World, own: seq<bool>, step: Step, i: nat)
    requires Inv(w, own) && Enabled(w, own, step)
    ensures i in Caught(Next(w, own, step)) <==>
      i in Caught(w) || (step == Store(i) && Takes(w.tables, w.stages[i].awaiting))
  {
    var v := Next(w, own, step);
    if step.Take? || step.Discard? {
      assert Caught(v) == Caught(w);
    } else if step.Store? && Takes(w.tables, w.stages[step.i].awaiting) {
      assert Caught(v) == Caught(w) + [step.i];
    }
  }

  /** A handler that has been told something was told it by its own question. */
  lemma {:induction false} WasAsked(run: seq<World>, own: seq<bool>, steps: seq<Step>, n: nat, i: nat) returns (a: nat)
    requires IsRun(run, own, steps) && n < |run| && i < |own| && i < |run[n].stages| && run[n].stages[i].Asked?
    ensures 0 < a <= n && steps[a - 1] == Ask(i) && run[a - 1].tables.awaiting == run[n].stages[i].awaiting
  {
    if n == 0 {
      assert false;
    }
    assert StepAt(run, own, steps, n);
    if steps[n - 1] == Ask(i) {
      a := n;
    } else {
      a := WasAsked(run, own, steps, n - 1, i);
    }
  }

  /** Between being asked and being stored nothing changes what a handler was told. */
  lemma {:induction false} AskedOnce(run: seq<World>, own: seq<bool>, steps: seq<Step>, a: nat, b: nat, i: nat)
    requires IsRun(run, own, steps) && a <= b < |run| && i < |own| && i < |run[a].stages| && run[a].stages[i].Asked?
    requires i < |run[b].stages| && run[b].stages[i].Asked?
    ensures run[b].stages[i] == run[a].stages[i]
  {
    if a < b {
      assert StepAt(run, own, steps, b);
      StageBefore(run[b - 1], own, steps[b - 1], i);
      if run[b - 1].stages[i].Asked? {
        AskedOnce(run, own, steps, a, b - 1, i);
      } else {
        NeverFreshAgain(run, own, steps, a, b - 1, i);
      }
    }
  }

  lemma StageBefore(w: World, own: seq<bool>, step: Step, i: nat)
    requires Enabled(w, own, step) && i < |own| && Next(w, own, step).stages[i].Asked?
    ensures w.stages[i] == Next(w, own, step).stages[i] || w.stages[i] == Fresh
  {
  }

  lemma {:induction false} NeverFreshAgain(run: seq<World>, own: seq<bool>, steps: seq<Step>, a: nat, b: nat, i: nat)
    requires IsRun(run, own, steps) && a <= b < |run| && i < |own| && i < |run[a].stages| && run[a].stages[i] != Fresh
    ensures i < |run[b].stages| && run[b].stages[i] != Fresh
  {
    if a < b {
      NeverFreshAgain(run, own, steps, a, b - 1, i);
      assert StepAt(run, own, steps, b);
    }
  }

  /** The step that stores message `i` buffers it exactly when it hits the window. */
  lemma StoreHits(run: seq<World>, own: seq<bool>, steps: seq<Step>, b: nat, i: nat)
    requires IsRun(run, own, steps) && 0 < b < |run| && steps[b - 1] == Store(i) && Enabled(run[b - 1], own, Store(i))
    ensures Takes(run[b - 1].tables, run[b - 1].stages[i].awaiting) <==> exists a: nat :: Hit(run, steps, i, a, b)
  {
    RunHolds(run, own, steps, b - 1);
    var at := WasAsked(run, own, steps, b - 1, i);
    RunHolds(run, own, steps, at - 1);
    if a: nat :| Hit(run, steps, i, a, b) {
      RunHolds(run, own, steps, a - 1);
      assert StepAt(run, own, steps, a);
      AskedOnce(run, own, steps, a, b - 1, i);
    }
    if Takes(run[b - 1].tables, run[b - 1].stages[i].awaiting) {
      assert Hit(run, steps, i, at, b);
    }
  }

  lemma {:induction false} CaughtExactly(run: seq<World>, own: seq<bool>, steps: seq<Step>, n: nat, i: nat)
    requires IsRun(run, own, steps) && n < |run|
    ensures i in Caught(run[n]) <==> HitBy(run, steps, i, n)
  {
    if n > 0 {
      CaughtExactly(run, own, steps, n - 1, i);
      RunHolds(run, own, steps, n - 1);
      assert StepAt(run, own, steps, n);
      StepCarries(run[n - 1], own, steps[n - 1], i);
      if steps[n - 1] == Store(i) {
        StoreHits(run, own, steps, n, i);
      }
      if a: nat, b: nat :| b <= n && Hit(run, steps, i, a, b) {
        assert b <= n - 1 || b == n;
      }
    }
  }

  /** A message asked about and stored while the buffer is up, own or foreign, is in what the opener gets. */
  lemma WindowIsBuffered(run: seq<World>, own: seq<bool>, steps: seq<Step>, a: nat, b: nat, i: nat)
    requires IsRun(run, own, steps) && 0 < a < b < |run| && i < |own|
    requires steps[a - 1] == Ask(i) && steps[b - 1] == Store(i)
    requires run[a - 1].opener == Buffering && run[b - 1].opener == Buffering && run[|steps|].opener == Opened
    ensures i in run[|steps|].result
  {
    assert Hit(run, steps, i, a, b);
    CaughtExactly(run, own, steps, |steps|, i);
    RunHolds(run, own, steps, |steps|);
  }

  /**
   * Where every message ends, however the opener and the handlers interleave and whether the opener succeeds or fails.
   * Messages that hit the window are what a successful opener gets and exactly what a failed one loses; every other
   * foreign message is on the bus; nothing is in two places or in one place twice.
   */
  lemma FateExactly(run: seq<World>, own: seq<bool>, steps: seq<Step>, i: nat)
    requires IsRun(run, own, steps) && i < |own|
    requires var w := run[|steps|];
      (w.opener == Opened || w.opener == Failed) && |w.stages| == |own| && w.stages[i] == Finished
    ensures var w := run[|steps|];
      && (i in w.result <==> w.opener == Opened && HitBy(run, steps, i, |steps|))
      && (i in w.lost <==> w.opener == Failed && HitBy(run, steps, i, |steps|))
      && (i in w.tables.bus <==> !own[i] && !HitBy(run, steps, i, |steps|))
      && (i in w.result + w.lost + w.tables.bus ==> Once(w.result + w.lost + w.tables.bus, i))
  {
    var w := run[|steps|];
    RunHolds(run, own, steps, |steps|);
    CaughtExactly(run, own, steps, |steps|, i);
    assert Caught(w) == w.result + w.lost;
    var rest := AtRest(w);
    if k :| 0 <= k < |Caught(w)| && Caught(w)[k] == i {
      assert rest[k] == i && forall j :: 0 <= j < |w.tables.bus| ==> rest[|Caught(w)| + j] == w.tables.bus[j];
    }
    if i in rest {
      var k :| 0 <= k < |rest| && rest[k] == i;
    }
  }
}

/** The engine's tables, each behind its own lock; every method is one locked section. */
module ScopeEngine {
  import opened Bytes
  import opened ScopeWindow

  /** What the bus carries for one scope. */
  function BusOf<M>(bus: seq<(string, M)>, scope: string): seq<M> {
    if bus == [] then []
    else BusOf(bus[..|bus| - 1], scope) + if bus[|bus| - 1].0 == scope then [bus[|bus| - 1].1] else []
  }

  class Engine<M> {
    var awaitingState: set<string>
    var buffered: map<string, seq<M>>
    var bus: seq<(string, M)>

    ghost function View(scope: string): Tables<M>
      reads this
    {
      Tables(scope in awaitingState, if scope in buffered then Some(buffered[scope]) else None, BusOf(bus, scope))
    }

    constructor ()
      ensures forall scope :: View(scope) == Tables(false, None, [])
    {
      awaitingState, buffered, bus := {}, map[], [];
    }

    method MarkAwaiting(scope: string)
      modifies this`awaitingState
      ensures View(scope) == Marked(old(View(scope)))
      ensures forall other :: other != scope ==> View(other) == old(View(other))
    {
      awaitingState := awaitingState + {scope};
    }

    method PrepareBuffer(scope: string)
      modifies this`buffered
      ensures View(scope) == Prepared(old(View(scope)))
      ensures forall other :: other != scope ==> View(other) == old(View(other))
    {
      buffered := buffered[scope := []];
    }

    method TakeBuffer(scope: string) returns (list: seq<M>)
      modifies this`buffered
      ensures list == Contents(old(View(scope))) && View(scope) == Emptied(old(View(scope)))
      ensures forall other :: other != scope ==> View(other) == old(View(other))
    {
      list := if scope in buffered then buffered[scope] else [];
      buffered := buffered - {scope};
    }

    method ClearAwaiting(scope: string)
      modifies this`awaitingState
      ensures View(scope) == Unmarked(old(View(scope)))
      ensures forall other :: other != scope ==> View(other) == old(View(other))
    {
      awaitingState := awaitingState - {scope};
    }

    method IsAwaiting(scope: string) returns (asked: bool)
      ensures asked == View(scope).awaiting
    {
      asked := scope in awaitingState;
    }

    method TryBuffer(scope: string, asked: bool, m: M) returns (took: bool)
      modifies this`buffered
      ensures took == Takes(old(View(scope)), asked) && View(scope) == Stored(old(View(scope)), asked, m)
      ensures forall other :: other != scope ==> View(other) == old(View(other))
    {
      took := asked && scope in buffered;
      if took {
        buffered := buffered[scope := buffered[scope] + [m]];
      }
    }

    method Send(scope: string, own: bool, m: M)
      modifies this`bus
      ensures View(scope) == Published(old(View(scope)), own, m)
      ensures forall other :: other != scope ==> View(other) == old(View(other))
    {
      if !own {
        bus := bus + [(scope, m)];
        assert bus[..|bus| - 1] == old(bus);
      }
    }
  }
}
