/** Who is served: every waiter at most once, and in the order they came. */
module AcceptWaiters {
  import opened Bytes
  import opened AcceptRouter

  predicate Ascending(q: seq<nat>) {
    forall i, j :: 0 <= i < j < |q| ==> q[i] < q[j]
  }

  predicate ServedBy(fates: map<Conn, Fate>, c: Conn, id: nat) {
    c in fates && fates[c].Handed? && fates[c].waiter == Some(id)
  }

  /** Queues list waiters in the order of their numbers; a served waiter is in no queue and got one connection. */
  ghost predicate WaitersOk(s: State) {
    && (forall p :: p in s.waiters ==> Ascending(s.waiters[p]))
    && (forall p, x :: p in s.waiters && x in s.waiters[p] ==> x < s.next)
    && (forall p, r, x :: p in s.waiters && r in s.waiters && x in s.waiters[p] && x in s.waiters[r] ==> p == r)
    && (forall c, x: nat :: ServedBy(s.fates, c, x) ==> x < s.next)
    && (forall c, x: nat, p :: ServedBy(s.fates, c, x) && p in s.waiters ==> x !in s.waiters[p])
    && (forall c, d, x: nat :: ServedBy(s.fates, c, x) && ServedBy(s.fates, d, x) ==> c == d)
  }

  /** Waiters only leave, in order. */
  ghost predicate Thinned(s: State, t: State) {
    && t.next == s.next
    && forall p :: p in t.waiters ==>
         p in s.waiters && Ascending(t.waiters[p]) && forall x :: x in t.waiters[p] ==> x in s.waiters[p]
  }

  ghost predicate NobodyServed(s: State, t: State) {
    forall c, x: nat :: ServedBy(t.fates, c, x) ==> ServedBy(s.fates, c, x)
  }

  lemma ThinnedKeeps(s: State, t: State)
    requires WaitersOk(s) && Thinned(s, t) && NobodyServed(s, t)
    ensures WaitersOk(t)
  {
  }

  /** The waiter that is served is the first one still there; everyone before it had gone. */
  lemma {:induction false} FirstComeFirstServed(q: seq<nat>, gone: set<nat>) returns (k: nat)
    ensures k <= |q| && Alive(q, gone) == q[k..]
    ensures (forall i :: 0 <= i < k ==> q[i] in gone) && (k < |q| ==> q[k] !in gone)
    decreases |q|
  {
    k := 0;
    if q != [] && q[0] in gone {
      var j := FirstComeFirstServed(q[1..], gone);
      k := j + 1;
    }
  }

  lemma HandOverKeeps(s: State, conn: Conn, gone: set<nat>)
    requires WaitersOk(s) && conn !in s.fates && Alive(QueueOf(s.waiters, conn.fp), gone) != []
    ensures WaitersOk(HandOver(s, conn, Alive(QueueOf(s.waiters, conn.fp), gone)))
  {
    var q := QueueOf(s.waiters, conn.fp);
    var k := FirstComeFirstServed(q, gone);
    var t := HandOver(s, conn, q[k..]);
    assert q[k..][1..] == q[k + 1..];
    forall p | p in t.waiters
      ensures p in s.waiters && Ascending(t.waiters[p]) && forall x :: x in t.waiters[p] ==> x in s.waiters[p]
    {
      if p == conn.fp {
        TailOf(q, k + 1);
      }
    }
    assert q[k] in q;
    forall c, x: nat | ServedBy(t.fates, c, x) ensures if c == conn then x == q[k] else ServedBy(s.fates, c, x) {
    }
    ServedGone(s, t, q, k, conn);
  }

  lemma TailOf(q: seq<nat>, k: nat)
    requires Ascending(q) && k <= |q|
    ensures Ascending(q[k..]) && forall x :: x in q[k..] ==> x in q
    ensures k > 0 ==> q[k - 1] !in q[k..]
  {
  }

  lemma ServedGone(s: State, t: State, q: seq<nat>, k: nat, conn: Conn)
    requires WaitersOk(s) && Thinned(s, t) && conn !in s.fates && conn.fp in s.waiters && q == s.waiters[conn.fp]
    requires k < |q| && t.waiters == Put(s.waiters, conn.fp, q[k + 1..])
    requires forall c, x: nat :: ServedBy(t.fates, c, x) ==> if c == conn then x == q[k] else ServedBy(s.fates, c, x)
    ensures WaitersOk(t)
  {
    TailOf(q, k + 1);
    assert q[k] in q;
    forall c, x: nat, p | ServedBy(t.fates, c, x) && p in t.waiters ensures x !in t.waiters[p] {
      if c == conn && p != conn.fp {
        assert q[k] in s.waiters[conn.fp];
      }
    }
  }

  lemma {:induction false} EvictionServesNobody(s: State, picks: seq<Fingerprint>)
    requires MakesRoom(s, picks)
    ensures NobodyServed(s, Evicted(s, picks))
    ensures Evicted(s, picks).waiters == s.waiters && Evicted(s, picks).next == s.next
    decreases |picks|
  {
    if picks != [] {
      EvictionServesNobody(DropFront(s, picks[0]), picks[1..]);
    }
  }

  lemma DeliverServes(s: State, seen: set<Conn>, conn: Conn, now: nat, gone: set<nat>, picks: seq<Fingerprint>)
    requires Inv(s, seen) && WaitersOk(s) && Enabled(s, seen, Deliver(conn, now, gone, picks))
    ensures WaitersOk(Delivered(s, conn, now, gone, picks))
  {
    var q := Alive(QueueOf(s.waiters, conn.fp), gone);
    var t := Delivered(s, conn, now, gone, picks);
    if s.closed {
      ThinnedKeeps(s, t);
    } else if q != [] {
      HandOverKeeps(s, conn, gone);
    } else {
      EvictionServesNobody(NoWaiter(s, conn.fp), picks);
      ThinnedKeeps(s, t);
    }
  }

  lemma AcceptServes(s: State, fp: Fingerprint, dead: set<Conn>)
    requires WaitersOk(s)
    ensures WaitersOk(Accepted(s, fp, dead).0)
  {
    var (t, answer) := Accepted(s, fp, dead);
    if answer.Waiting? {
      var u := s.(arrived := t.arrived, fates := t.fates);
      ThinnedKeeps(s, u);
      JoinServes(u, fp);
    } else {
      ThinnedKeeps(s, t);
    }
  }

  lemma JoinServes(s: State, fp: Fingerprint)
    requires WaitersOk(s)
    ensures WaitersOk(s.(next := s.next + 1, waiters := s.waiters[fp := QueueOf(s.waiters, fp) + [s.next]]))
  {
    var q := QueueOf(s.waiters, fp);
    forall i | 0 <= i < |q| ensures q[i] < s.next {
      assert q[i] in s.waiters[fp];
    }
  }

  lemma {:induction false} WithoutAscends(q: seq<nat>, id: nat)
    requires Ascending(q)
    ensures Ascending(Without(q, id))
  {
    if q != [] {
      var front := q[..|q| - 1];
      WithoutAscends(front, id);
      forall x | x in Without(front, id) ensures x < q[|q| - 1] {
        CancelRemovesOnly(front, id, x);
      }
      var w := Without(front, id);
      assert forall i :: 0 <= i < |w| ==> w[i] in w;
    }
  }

  lemma CancelServes(s: State, fp: Fingerprint, id: nat)
    requires WaitersOk(s)
    ensures WaitersOk(Cancelled(s, fp, id))
  {
    if fp in s.waiters {
      WithoutAscends(s.waiters[fp], id);
      forall x ensures x in Without(s.waiters[fp], id) <==> x in s.waiters[fp] && x != id {
        CancelRemovesOnly(s.waiters[fp], id, x);
      }
    }
    ThinnedKeeps(s, Cancelled(s, fp, id));
  }

  lemma StepServes(s: State, seen: set<Conn>, op: Op)
    requires Inv(s, seen) && WaitersOk(s) && Enabled(s, seen, op)
    ensures WaitersOk(Next(s, seen, op))
  {
    match op
    case Deliver(conn, now, gone, picks) => DeliverServes(s, seen, conn, now, gone, picks);
    case Accept(fp, dead) => AcceptServes(s, fp, dead);
    case Cancel(fp, id) => CancelServes(s, fp, id);
    case Sweep(now) => ThinnedKeeps(s, Swept(s, now));
    case Close => ThinnedKeeps(s, ShutDown(s));
  }

  /** In every run no waiter is ever served twice, and nobody still queued has been served. */
  lemma {:induction false} ServedOnce(run: seq<State>, seen: seq<set<Conn>>, ops: seq<Op>, i: nat)
    requires IsRun(run, seen, ops) && i < |run|
    ensures WaitersOk(run[i])
  {
    if i > 0 {
      ServedOnce(run, seen, ops, i - 1);
      RunHolds(run, seen, ops, i - 1);
      assert StepAt(run, seen, ops, i);
      StepServes(run[i - 1], seen[i - 1], ops[i - 1]);
    }
  }
}
