/** What each lock section of the accept router does to every connection, in terms of positions and times. */
module AcceptOutcomes {
  import opened Bytes
  import opened Collections
  import opened AcceptRouter
  import opened AcceptWaiters

  /** Position `k` holds the first waiter of the queue that is still there. */
  predicate FirstAlive(q: seq<nat>, gone: set<nat>, k: nat) {
    k < |q| && q[k] !in gone && forall i :: 0 <= i < k ==> q[i] in gone
  }

  predicate NoneAlive(q: seq<nat>, gone: set<nat>) {
    forall i :: 0 <= i < |q| ==> q[i] in gone
  }

  /** Position `k` holds the first buffered connection that is still open. */
  predicate FirstOpen(q: seq<Buffered>, dead: set<Conn>, k: nat) {
    k < |q| && q[k].conn !in dead && forall i :: 0 <= i < k ==> q[i].conn in dead
  }

  predicate NoneOpen(q: seq<Buffered>, dead: set<Conn>) {
    forall i :: 0 <= i < |q| ==> q[i].conn in dead
  }

  lemma AliveAt(q: seq<nat>, gone: set<nat>, k: nat)
    requires FirstAlive(q, gone, k)
    ensures Alive(q, gone) == q[k..]
  {
    var j := FirstComeFirstServed(q, gone);
  }

  lemma NobodyAlive(q: seq<nat>, gone: set<nat>)
    ensures Alive(q, gone) == [] <==> NoneAlive(q, gone)
  {
    var j := FirstComeFirstServed(q, gone);
  }

  lemma {:induction false} OpenAt(q: seq<Buffered>, dead: set<Conn>, k: nat)
    requires FirstOpen(q, dead, k)
    ensures Open(q, dead) == q[k..]
    decreases k
  {
    if k > 0 {
      assert FirstOpen(q[1..], dead, k - 1);
      OpenAt(q[1..], dead, k - 1);
    }
  }

  lemma NothingOpen(q: seq<Buffered>, dead: set<Conn>)
    ensures Open(q, dead) == [] <==> NoneOpen(q, dead)
  {
    var j := OpenIsTail(q, dead);
    OpenFront(q, dead);
    if j < |q| {
      assert q[j..][0] == q[j];
    }
  }

  // ---- deliveries -----------------------------------------------------------

  /** The front of a queue with nothing older in the whole buffer. */
  predicate OldestOfAll(s: State, p: Fingerprint) {
    && p in s.arrived && s.arrived[p] != []
    && forall r, b :: r in s.arrived && b in s.arrived[r] ==> s.arrived[p][0].at <= b.at
  }

  lemma EvictsWhenFull(s: State, seen: set<Conn>, picks: seq<Fingerprint>)
    requires Inv(s, seen) && MakesRoom(s, picks)
    ensures |picks| == (if Total(s.arrived) == 256 then 1 else 0)
    ensures picks != [] ==> OldestOfAll(s, picks[0])
    ensures Evicted(s, picks).fates ==
      if picks == [] then s.fates else s.fates + map[s.arrived[picks[0]][0].conn := Shut]
  {
    EvictionKeeps(s, seen, picks);
    if picks != [] {
      forall r, b | r in s.arrived && b in s.arrived[r] ensures s.arrived[picks[0]][0].at <= b.at {
        PickIsGloballyOldest(s, seen, picks[0], r, b);
      }
      assert picks[1..] == [];
    } else if Total(s.arrived) == 256 {
      var p := SomeNonEmpty(s.arrived);
    }
  }

  /** What is left of a queue when the front of `picks[0]` makes room. */
  function Left(arrived: map<Fingerprint, seq<Buffered>>, picks: seq<Fingerprint>, p: Fingerprint): seq<Buffered> {
    var q := QueueOf(arrived, p);
    if picks != [] && picks[0] == p && q != [] then q[1..] else q
  }

  lemma FrontDropped(s: State, fp: Fingerprint, p: Fingerprint)
    requires QueueOf(s.arrived, fp) != []
    ensures QueueOf(DropFront(s, fp).arrived, p) == Left(s.arrived, [fp], p)
  {
  }

  lemma OneEvicted(s: State, picks: seq<Fingerprint>)
    requires |picks| == 1 && MakesRoom(s, picks)
    ensures QueueOf(s.arrived, picks[0]) != [] && Evicted(s, picks) == DropFront(s, picks[0])
  {
    assert picks[1..] == [];
  }

  lemma EvictedQueues(s: State, picks: seq<Fingerprint>, p: Fingerprint)
    requires |picks| <= 1 && MakesRoom(s, picks)
    ensures QueueOf(Evicted(s, picks).arrived, p) == Left(s.arrived, picks, p)
  {
    if picks != [] {
      OneEvicted(s, picks);
      FrontDropped(s, picks[0], p);
    }
  }

  /** The first waiter still there gets the connection; it and those before it leave the queue, nobody else does. */
  lemma DeliveredToWaiter(s: State, seen: set<Conn>, conn: Conn, now: nat, gone: set<nat>, picks: seq<Fingerprint>,
                          k: nat)
    requires Inv(s, seen) && Enabled(s, seen, Deliver(conn, now, gone, picks)) && !s.closed
    requires FirstAlive(QueueOf(s.waiters, conn.fp), gone, k)
    ensures var q, t := QueueOf(s.waiters, conn.fp), Delivered(s, conn, now, gone, picks);
      && t.fates == s.fates[conn := Handed(conn.fp, Some(q[k]))] && t.arrived == s.arrived
      && QueueOf(t.waiters, conn.fp) == q[k + 1..]
      && forall p :: p != conn.fp ==> QueueOf(t.waiters, p) == QueueOf(s.waiters, p)
  {
    var q := QueueOf(s.waiters, conn.fp);
    AliveAt(q, gone, k);
    assert q[k..][0] == q[k] && q[k..][1..] == q[k + 1..];
  }

  /** Without a waiter still there the connection is buffered, last in its queue, and has met no fate. */
  lemma DeliveredToBuffer(s: State, seen: set<Conn>, conn: Conn, now: nat, gone: set<nat>, picks: seq<Fingerprint>)
    requires Inv(s, seen) && Enabled(s, seen, Deliver(conn, now, gone, picks)) && !s.closed
    requires NoneAlive(QueueOf(s.waiters, conn.fp), gone)
    ensures var t := Delivered(s, conn, now, gone, picks);
      var q := QueueOf(t.arrived, conn.fp);
      && q == Left(s.arrived, picks, conn.fp) + [Buffered(conn, now)] && conn !in t.fates && conn.fp !in t.waiters
      && (forall p :: p != conn.fp ==> QueueOf(t.arrived, p) == Left(s.arrived, picks, p))
      && |picks| == (if Total(s.arrived) == 256 then 1 else 0) && (picks == [] ==> t.fates == s.fates)
  {
    NobodyAlive(QueueOf(s.waiters, conn.fp), gone);
    var w, t := NoWaiter(s, conn.fp), Delivered(s, conn, now, gone, picks);
    DeliverKeeps(s, seen, conn, now, gone, picks);
    EvictsWhenFull(w, seen, picks);
    forall p ensures QueueOf(Evicted(w, picks).arrived, p) == Left(s.arrived, picks, p) {
      EvictedQueues(w, picks, p);
    }
    var q := QueueOf(t.arrived, conn.fp);
    assert Buffered(conn, now) in q && conn in BufferedConns(t.arrived);
  }

  /** So whoever asks next for its fingerprint gets it, if nothing open is ahead of it. */
  lemma BufferedIsClaimed(s: State, seen: set<Conn>, conn: Conn, now: nat, gone: set<nat>, picks: seq<Fingerprint>,
                          dead: set<Conn>)
    requires Inv(s, seen) && Enabled(s, seen, Deliver(conn, now, gone, picks)) && !s.closed
    requires NoneAlive(QueueOf(s.waiters, conn.fp), gone) && conn !in dead
    requires NoneOpen(QueueOf(s.arrived, conn.fp), dead)
    ensures Accepted(Delivered(s, conn, now, gone, picks), conn.fp, dead).1 == Got(conn)
  {
    DeliveredToBuffer(s, seen, conn, now, gone, picks);
    var before, t := Left(s.arrived, picks, conn.fp), Delivered(s, conn, now, gone, picks);
    var q := QueueOf(t.arrived, conn.fp);
    NobodyAlive(QueueOf(s.waiters, conn.fp), gone);
    EvictionKeeps(NoWaiter(s, conn.fp), seen, picks);
    assert FirstOpen(q, dead, |before|);
    OpenAt(q, dead, |before|);
  }

  // ---- claims ---------------------------------------------------------------

  /** The state and answer when the first open connection is at `k`. */
  lemma ClaimedState(s: State, fp: Fingerprint, dead: set<Conn>, k: nat)
    requires !s.closed && FirstOpen(QueueOf(s.arrived, fp), dead, k)
    ensures var q := QueueOf(s.arrived, fp);
      Accepted(s, fp, dead) ==
      (s.(arrived := Put(s.arrived, fp, q[k + 1..]),
          fates := s.fates + Each(Conns(q[..k]), Discarded)[q[k].conn := Handed(fp, None)]), Got(q[k].conn))
  {
    var q := QueueOf(s.arrived, fp);
    OpenAt(q, dead, k);
    assert q[k..][0] == q[k] && q[k..][1..] == q[k + 1..];
  }

  /** The first open buffered connection is handed over; the closed ones before it are discarded; the rest stay. */
  lemma ClaimedExactly(s: State, seen: set<Conn>, fp: Fingerprint, dead: set<Conn>, k: nat)
    requires Inv(s, seen) && !s.closed && FirstOpen(QueueOf(s.arrived, fp), dead, k)
    ensures var q := QueueOf(s.arrived, fp);
      var (t, answer) := Accepted(s, fp, dead);
      && answer == Got(q[k].conn) && QueueOf(t.arrived, fp) == q[k + 1..] && t.waiters == s.waiters
      && q[k].conn in t.fates && t.fates[q[k].conn] == Handed(fp, None)
      && forall i :: 0 <= i < k ==> q[i].conn in t.fates && t.fates[q[i].conn] == Discarded
  {
    ClaimedState(s, fp, dead, k);
    var q := QueueOf(s.arrived, fp);
    AheadOf(s, fp, k);
    LaidFates(s.fates, Conns(q[..k]), q[k].conn, fp);
  }

  /** The connections in front of position `k`, which is not among them. */
  lemma AheadOf(s: State, fp: Fingerprint, k: nat)
    requires QueuesOk(s) && fp in s.arrived && k < |s.arrived[fp]|
    ensures var q := s.arrived[fp];
      q[k].conn !in Conns(q[..k]) && forall i :: 0 <= i < k ==> q[i].conn in Conns(q[..k])
  {
    var q := s.arrived[fp];
    assert BufferOk(fp, q, s.now);
    forall i | 0 <= i < k ensures q[i].conn in Conns(q[..k]) {
      assert q[..k][i] == q[i];
    }
  }

  lemma LaidFates(fates: map<Conn, Fate>, passed: set<Conn>, c: Conn, fp: Fingerprint)
    requires c !in passed
    ensures var after := fates + Each(passed, Discarded)[c := Handed(fp, None)];
      && c in after && after[c] == Handed(fp, None)
      && forall d :: d in passed ==> d in after && after[d] == Discarded
  {
  }

  /** With nothing open to claim the caller is queued behind all who wait already. */
  lemma QueuedExactly(s: State, seen: set<Conn>, fp: Fingerprint, dead: set<Conn>)
    requires Inv(s, seen) && !s.closed && NoneOpen(QueueOf(s.arrived, fp), dead)
    ensures var q := QueueOf(s.arrived, fp);
      var (t, answer) := Accepted(s, fp, dead);
      && answer == Waiting(s.next) && t.next == s.next + 1 && fp !in t.arrived
      && QueueOf(t.waiters, fp) == QueueOf(s.waiters, fp) + [s.next]
      && (forall p :: p != fp ==> QueueOf(t.waiters, p) == QueueOf(s.waiters, p))
      && forall i :: 0 <= i < |q| ==> q[i].conn in t.fates && t.fates[q[i].conn] == Discarded
  {
    var q := QueueOf(s.arrived, fp);
    NothingOpen(q, dead);
    forall i | 0 <= i < |q| ensures q[i].conn in Conns(q[..|q|]) {
      assert q[..|q|][i] == q[i];
    }
  }

  /** A closed router refuses and nothing changes. */
  lemma RefusedExactly(s: State, fp: Fingerprint, dead: set<Conn>)
    ensures Accepted(s, fp, dead).1 == Refused <==> s.closed
    ensures s.closed ==> Accepted(s, fp, dead).0 == s
  {
  }

  /** A waiter that is cancelled leaves its queue, and nothing else changes. */
  lemma CancelledExactly(s: State, fp: Fingerprint, id: nat, p: Fingerprint, x: nat)
    ensures var t := Cancelled(s, fp, id);
      && (x in QueueOf(t.waiters, p) <==> x in QueueOf(s.waiters, p) && !(p == fp && x == id))
      && t.arrived == s.arrived && t.fates == s.fates && t.next == s.next && t.closed == s.closed
  {
    if fp in s.waiters {
      CancelRemovesOnly(s.waiters[fp], id, x);
    }
  }

  // ---- which connections are shut -------------------------------------------

  /** A delivery evicts exactly when nobody takes the connection and 256 are buffered; then it evicts the oldest. */
  predicate Evicts(s: State, conn: Conn, gone: set<nat>, picks: seq<Fingerprint>, c: Conn) {
    && !s.closed && NoneAlive(QueueOf(s.waiters, conn.fp), gone)
    && |picks| == 1 && OldestOfAll(s, picks[0]) && s.arrived[picks[0]][0].conn == c
  }

  /** Why the operation shuts a connection that had met no fate. */
  ghost predicate Shuts(s: State, op: Op, c: Conn) {
    match op
    case Deliver(conn, _, gone, picks) => (s.closed && c == conn) || Evicts(s, conn, gone, picks, c)
    case Sweep(now) =>
      !s.closed && exists p, b :: p in s.arrived && b in s.arrived[p] && b.conn == c && now >= b.at + 30_000
    case Close => c in BufferedConns(s.arrived)
    case Accept(_, _) => false
    case Cancel(_, _) => false
  }

  lemma ExpiredExactly(p: Fingerprint, q: seq<Buffered>, now: nat, c: Conn)
    requires BufferOk(p, q, now)
    ensures c in ExpiredOf(q, now) <==> exists b :: b in q && b.conn == c && now >= b.at + 30_000
  {
    var k := KeptIsTail(q, now);
    assert ExpiredOf(q, now) == Conns(q[..k]);
    if c in Conns(q[..k]) {
      var b: Buffered :| b in q[..k] && b.conn == c;
      assert b in q;
    }
    if b :| b in q && b.conn == c && now >= b.at + 30_000 {
      KeptExactly(p, q, now, b);
      var i :| 0 <= i < |q| && q[i] == b;
      InFrontOf(q, k, i);
    }
  }

  lemma InFrontOf(q: seq<Buffered>, k: nat, i: nat)
    requires k <= |q| && i < |q|
    ensures q[i] in q[k..] || q[i].conn in Conns(q[..k])
  {
    if i >= k {
      assert q[k..][i - k] == q[i];
    } else {
      assert q[..k][i] == q[i];
    }
  }

  lemma SweepShuts(s: State, seen: set<Conn>, now: nat, c: Conn)
    requires Inv(s, seen) && now >= s.now && !s.closed
    ensures c in ExpiredConns(s.arrived, now) <==>
      exists p, b :: p in s.arrived && b in s.arrived[p] && b.conn == c && now >= b.at + 30_000
  {
    forall p | p in s.arrived
      ensures c in ExpiredOf(s.arrived[p], now) <==>
        exists b :: b in s.arrived[p] && b.conn == c && now >= b.at + 30_000
    {
      assert BufferOk(p, s.arrived[p], s.now);
      ExpiredExactly(p, s.arrived[p], now, c);
    }
  }

  lemma DeliveryShuts(s: State, seen: set<Conn>, conn: Conn, now: nat, gone: set<nat>, picks: seq<Fingerprint>, c: Conn)
    requires Inv(s, seen) && Enabled(s, seen, Deliver(conn, now, gone, picks)) && c !in s.fates
    ensures var t := Delivered(s, conn, now, gone, picks);
      c in t.fates && t.fates[c] == Shut <==> Shuts(s, Deliver(conn, now, gone, picks), c)
  {
    NobodyAlive(QueueOf(s.waiters, conn.fp), gone);
    if !s.closed && NoneAlive(QueueOf(s.waiters, conn.fp), gone) {
      EvictsWhenFull(NoWaiter(s, conn.fp), seen, picks);
    }
  }

  /**
   * In every step a connection is shut exactly when the router is closed or closing, a sweep finds it thirty seconds
   * old, or it is the oldest of 256 and makes room.
   */
  lemma ShutExactly(s: State, seen: set<Conn>, op: Op, c: Conn)
    requires Inv(s, seen) && Enabled(s, seen, op) && c !in s.fates
    ensures var t := Next(s, seen, op); c in t.fates && t.fates[c] == Shut <==> Shuts(s, op, c)
  {
    match op
    case Deliver(conn, now, gone, picks) => DeliveryShuts(s, seen, conn, now, gone, picks, c);
    case Sweep(now) =>
      if !s.closed {
        SweepShuts(s, seen, now, c);
      }
    case Close =>
    case Accept(_, _) =>
    case Cancel(_, _) =>
  }

  /** The same over a whole run: every connection that is shut was shut by such a step. */
  lemma {:induction false} ShutInRun(run: seq<State>, seen: seq<set<Conn>>, ops: seq<Op>, n: nat, c: Conn)
    returns (i: nat)
    requires IsRun(run, seen, ops) && n < |run| && c in run[n].fates && run[n].fates[c] == Shut
    ensures 0 < i <= n && c !in run[i - 1].fates && Shuts(run[i - 1], ops[i - 1], c)
  {
    i := n;
    if n > 0 {
      RunHolds(run, seen, ops, n - 1);
      assert StepAt(run, seen, ops, n);
      StepKeeps(run[n - 1], seen[n - 1], ops[n - 1]);
      if c in run[n - 1].fates {
        i := ShutInRun(run, seen, ops, n - 1, c);
      } else {
        ShutExactly(run[n - 1], seen[n - 1], ops[n - 1], c);
      }
    }
  }
}
