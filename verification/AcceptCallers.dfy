/**
 * The callers behind the router. A connection sent to a waiting caller sits in that caller's channel until the
 * caller polls; a caller that goes away first drops the channel with the connection in it.
 */
module AcceptCallers {
  import opened Bytes
  import opened AcceptRouter
  import opened AcceptWaiters

  /** The router, the connections it has seen, the callers that went away and what the others received. */
  datatype World = World(router: State, seen: set<Conn>, left: set<nat>, got: map<nat, Conn>)

  datatype Step = Route(op: Op) | Poll(id: nat, conn: Conn) | Leave(caller: nat)

  /** Sending fails exactly for callers that went away; only callers that are through remove themselves. */
  ghost predicate CanStep(w: World, step: Step) {
    match step
    case Route(op) =>
      && Enabled(w.router, w.seen, op)
      && (op.Deliver? ==> op.gone == w.left)
      && (op.Cancel? ==> op.id in w.left || op.id in w.got)
    case Poll(id, conn) => id !in w.left && id !in w.got && ServedBy(w.router.fates, conn, id)
    case Leave(id) => id < w.router.next && id !in w.left && id !in w.got
  }

  ghost function After(w: World, step: Step): World
    requires CanStep(w, step)
  {
    match step
    case Route(op) => w.(router := Next(w.router, w.seen, op), seen := SeenAfter(w.seen, op))
    case Poll(id, conn) => w.(got := w.got[id := conn])
    case Leave(id) => w.(left := w.left + {id})
  }

  ghost predicate MovesAt(run: seq<World>, steps: seq<Step>, i: nat)
    requires 0 < i < |run| == |steps| + 1
  {
    CanStep(run[i - 1], steps[i - 1]) && run[i] == After(run[i - 1], steps[i - 1])
  }

  ghost predicate Plays(run: seq<World>, steps: seq<Step>) {
    && |run| == |steps| + 1 && run[0] == World(AcceptRouter.EMPTY, {}, {}, map[])
    && forall i: nat :: 0 < i < |run| ==> MovesAt(run, steps, i)
  }

  // ---- what holds throughout -----------------------------------------------

  /** The router's books, and: whoever received something was served it and has not gone away. */
  ghost predicate CallersOk(w: World) {
    && Inv(w.router, w.seen) && WaitersOk(w.router)
    && forall id :: id in w.got ==> id !in w.left && ServedBy(w.router.fates, w.got[id], id)
  }

  lemma StartOk()
    ensures CallersOk(World(AcceptRouter.EMPTY, {}, {}, map[]))
  {
    assert BufferedConns(AcceptRouter.EMPTY.arrived) == {};
  }

  lemma RouteKeeps(w: World, op: Op)
    requires CallersOk(w) && CanStep(w, Route(op))
    ensures CallersOk(After(w, Route(op)))
  {
    StepKeeps(w.router, w.seen, op);
    AcceptWaiters.StepServes(w.router, w.seen, op);
  }

  lemma {:induction false} RunKeeps(run: seq<World>, steps: seq<Step>, i: nat)
    requires Plays(run, steps) && i < |run|
    ensures CallersOk(run[i])
  {
    if i == 0 {
      StartOk();
    } else {
      RunKeeps(run, steps, i - 1);
      assert MovesAt(run, steps, i);
      if steps[i - 1].Route? {
        RouteKeeps(run[i - 1], steps[i - 1].op);
      }
    }
  }

  /** No connection reaches two callers, and no caller gets one for another fingerprint than it was sent under. */
  lemma ReceivedOnce(run: seq<World>, steps: seq<Step>, n: nat, x: nat, y: nat)
    requires Plays(run, steps) && n < |run| && x in run[n].got && y in run[n].got && run[n].got[x] == run[n].got[y]
    ensures var c, fates := run[n].got[x], run[n].router.fates;
      x == y && c in fates && fates[c] == Handed(c.fp, Some(x))
  {
    RunKeeps(run, steps, n);
  }

  // ---- which connections are dropped ----------------------------------------

  ghost predicate Hands(w: World, v: World, c: Conn, id: nat) {
    !ServedBy(w.router.fates, c, id) && ServedBy(v.router.fates, c, id)
  }

  /** A waiter is only served in a delivery, and not if it went away before. */
  lemma DeliveryServes(s: State, seen: set<Conn>, op: Op, c: Conn, id: nat)
    requires Inv(s, seen) && Enabled(s, seen, op)
    requires !ServedBy(s.fates, c, id) && ServedBy(Next(s, seen, op).fates, c, id)
    ensures op.Deliver? && op.conn == c && id !in op.gone && id in QueueOf(s.waiters, c.fp)
  {
    match op
    case Deliver(conn, now, gone, picks) =>
      var q := QueueOf(s.waiters, conn.fp);
      var k := FirstComeFirstServed(q, gone);
      if !s.closed && k == |q| {
        EvictionServesNobody(NoWaiter(s, conn.fp), picks);
      }
      assert k < |q| ==> q[k] in q;
    case Accept(_, _) =>
    case Cancel(_, _) =>
    case Sweep(_) =>
    case Close =>
  }

  lemma HandedWhilePresent(w: World, step: Step, c: Conn, id: nat)
    requires CallersOk(w) && CanStep(w, step) && Hands(w, After(w, step), c, id)
    ensures step.Route? && step.op.Deliver? && step.op.conn == c && id !in w.left
  {
    DeliveryServes(w.router, w.seen, step.op, c, id);
  }

  lemma {:induction false} ServedAtSomePoint(run: seq<World>, steps: seq<Step>, n: nat, c: Conn, id: nat)
    returns (a: nat)
    requires Plays(run, steps) && n < |run| && ServedBy(run[n].router.fates, c, id)
    ensures 0 < a <= n && Hands(run[a - 1], run[a], c, id)
  {
    if n > 0 && ServedBy(run[n - 1].router.fates, c, id) {
      a := ServedAtSomePoint(run, steps, n - 1, c, id);
    } else {
      a := n;
    }
  }

  /** The caller was sent the connection at `a` and went away at `b`. */
  ghost predicate Abandons(run: seq<World>, steps: seq<Step>, c: Conn, id: nat, a: nat, b: nat)
    requires |run| == |steps| + 1
  {
    0 < a < b < |run| && Hands(run[a - 1], run[a], c, id) && steps[b - 1] == Leave(id)
  }

  lemma {:induction false} GoneWasServedBefore(run: seq<World>, steps: seq<Step>, n: nat, c: Conn, id: nat)
    returns (a: nat, b: nat)
    requires Plays(run, steps) && n < |run| && ServedBy(run[n].router.fates, c, id) && id in run[n].left
    ensures b <= n && Abandons(run, steps, c, id, a, b)
  {
    assert n > 0;
    assert MovesAt(run, steps, n);
    RunKeeps(run, steps, n - 1);
    if steps[n - 1] == Leave(id) {
      a := ServedAtSomePoint(run, steps, n - 1, c, id);
      b := n;
    } else {
      if !ServedBy(run[n - 1].router.fates, c, id) {
        HandedWhilePresent(run[n - 1], steps[n - 1], c, id);
      }
      a, b := GoneWasServedBefore(run, steps, n - 1, c, id);
    }
  }

  lemma {:induction false} LeavingIsFinal(run: seq<World>, steps: seq<Step>, b: nat, n: nat, id: nat)
    requires Plays(run, steps) && 0 < b <= n < |run| && steps[b - 1] == Leave(id)
    ensures id in run[n].left
  {
    assert MovesAt(run, steps, n);
    if b < n {
      LeavingIsFinal(run, steps, b, n - 1, id);
    }
  }

  /**
   * What becomes of a connection sent to a waiting caller: the caller has it, or it was dropped, or it is still in
   * the channel. It was dropped exactly when the caller went away after it was sent; had the caller gone before, it
   * would not have been sent there.
   */
  lemma SentExactly(run: seq<World>, steps: seq<Step>, n: nat, c: Conn, id: nat)
    requires Plays(run, steps) && n < |run| && ServedBy(run[n].router.fates, c, id)
    ensures id in run[n].got ==> run[n].got[id] == c && id !in run[n].left
    ensures id in run[n].left <==> exists a: nat, b: nat :: b <= n && Abandons(run, steps, c, id, a, b)
  {
    RunKeeps(run, steps, n);
    if id in run[n].left {
      var a, b := GoneWasServedBefore(run, steps, n, c, id);
    }
    if a: nat, b: nat :| b <= n && Abandons(run, steps, c, id, a, b) {
      LeavingIsFinal(run, steps, b, n, id);
    }
  }
}
