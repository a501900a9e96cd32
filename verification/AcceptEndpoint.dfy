/** The accept state of a QUIC endpoint, updated in place under its lock. */
module AcceptEndpoint {
  import opened Bytes
  import opened Collections
  import opened AcceptRouter

  /** `done` have been picked and `s` reached; whatever still makes room from here completes the eviction. */
  ghost predicate PickedSoFar(start: State, done: seq<Fingerprint>, s: State) {
    forall more :: MakesRoom(s, more) ==>
      MakesRoom(start, done + more) && Evicted(start, done + more) == Evicted(s, more)
  }

  lemma PickedNone(s: State)
    ensures PickedSoFar(s, [], s)
  {
    forall more | MakesRoom(s, more) ensures MakesRoom(s, [] + more) && Evicted(s, [] + more) == Evicted(s, more) {
      assert [] + more == more;
    }
  }

  lemma PickedOneMore(start: State, done: seq<Fingerprint>, s: State, fp: Fingerprint)
    requires PickedSoFar(start, done, s) && Total(s.arrived) >= MAX_BUFFERED && IsOldest(s.arrived, fp)
    ensures PickedSoFar(start, done + [fp], DropFront(s, fp))
  {
    forall more | MakesRoom(DropFront(s, fp), more)
      ensures MakesRoom(start, done + [fp] + more)
      ensures Evicted(start, done + [fp] + more) == Evicted(DropFront(s, fp), more)
    {
      assert ([fp] + more)[1..] == more;
      assert MakesRoom(s, [fp] + more);
      assert done + [fp] + more == done + ([fp] + more);
    }
  }

  lemma AliveOneMore(q: seq<nat>, gone: set<nat>)
    requires q != [] && q[0] in gone
    ensures Alive(q, gone) == Alive(q[1..], gone)
  {
  }

  class Router {
    var waiters: map<Fingerprint, seq<nat>>
    var arrived: map<Fingerprint, seq<Buffered>>
    var next: nat
    var closed: bool
    var fates: map<Conn, Fate>
    ghost var now: nat

    ghost function View(): State
      reads this
    {
      State(waiters, arrived, next, closed, fates, now)
    }

    constructor ()
      ensures View() == AcceptRouter.EMPTY
    {
      waiters, arrived, next, closed, fates, now := map[], map[], 0, false, map[], 0;
    }

    method BufferedTotal() returns (n: nat)
      ensures n == Total(arrived)
    {
      n := 0;
      var todo := arrived;
      while todo != map[]
        invariant todo.Keys <= arrived.Keys && forall p :: p in todo ==> todo[p] == arrived[p]
        invariant n + Total(todo) == Total(arrived)
        decreases |todo.Keys|
      {
        var p :| p in todo.Keys;
        TotalRemove(todo, p);
        n := n + |todo[p]|;
        todo := todo - {p};
      }
    }

    /** Drop a waiter that was cancelled or served. */
    method RemoveWaiter(fp: Fingerprint, id: nat)
      modifies this
      ensures View() == Cancelled(old(View()), fp, id)
    {
      if fp in waiters {
        var queue, rest := waiters[fp], [];
        for i := 0 to |queue|
          invariant rest == Without(queue[..i], id)
          invariant View() == old(View())
        {
          PrefixSnoc(queue, i);
          if queue[i] != id {
            rest := rest + [queue[i]];
          }
        }
        assert queue[..|queue|] == queue;
        waiters := if rest == [] then waiters - {fp} else waiters[fp := rest];
      }
    }

    /** The queue with the oldest front. */
    method Oldest() returns (r: Option<Fingerprint>)
      ensures r.Some? ==> IsOldest(arrived, r.value)
      ensures r.None? ==> forall p :: p in arrived ==> arrived[p] == []
    {
      r := None;
      var order := Listed(arrived.Keys);
      for i := 0 to |order|
        invariant r.Some? ==> r.value in arrived && arrived[r.value] != []
        invariant forall j :: 0 <= j < i && arrived[order[j]] != [] ==>
          r.Some? && arrived[r.value][0].at <= arrived[order[j]][0].at
      {
        var p := order[i];
        if arrived[p] != [] && (r.None? || arrived[p][0].at < arrived[r.value][0].at) {
          r := Some(p);
        }
      }
    }

    /** Close the oldest buffered connections until there is room for one more. */
    method EvictOverflow() returns (ghost picks: seq<Fingerprint>)
      modifies this
      ensures MakesRoom(old(View()), picks) && View() == Evicted(old(View()), picks)
    {
      picks := [];
      PickedNone(View());
      var total := BufferedTotal();
      while total >= MAX_BUFFERED
        invariant total == Total(arrived) && PickedSoFar(old(View()), picks, View())
        decreases Total(arrived)
      {
        var oldest := Oldest();
        if oldest.None? {
          break;
        }
        var fp := oldest.value;
        PickedOneMore(old(View()), picks, View(), fp);
        picks := picks + [fp];
        var queue := arrived[fp];
        ghost var before := arrived;
        fates := fates + map[queue[0].conn := Shut];
        arrived := if queue[1..] == [] then arrived - {fp} else arrived[fp := queue[1..]];
        if queue[1..] == [] {
          TotalRemove(before, fp);
        } else {
          TotalUpdate(before, fp, queue[1..]);
        }
        total := BufferedTotal();
      }
      assert MakesRoom(View(), []);
      assert picks + [] == picks;
    }

    /** Hand a connection to the first waiter that is still there, or buffer it. */
    method Deliver(conn: Conn, instant: nat, gone: set<nat>) returns (ghost picks: seq<Fingerprint>)
      modifies this
      ensures MakesRoom(NoWaiter(old(View()), conn.fp), picks)
      ensures View() == Delivered(old(View()), conn, instant, gone, picks)
    {
      picks := RoomExists(NoWaiter(View(), conn.fp));
      if closed {
        fates := fates[conn := Shut];
        return;
      }
      if conn.fp in waiters {
        var queue := waiters[conn.fp];
        ghost var start := queue;
        while queue != []
          invariant Alive(queue, gone) == Alive(start, gone)
          invariant View() == old(View())
          decreases |queue|
        {
          var waiter := queue[0];
          if waiter !in gone {
            fates := fates[conn := Handed(conn.fp, Some(waiter))];
            waiters := if queue[1..] == [] then waiters - {conn.fp} else waiters[conn.fp := queue[1..]];
            return;
          }
          AliveOneMore(queue, gone);
          queue := queue[1..];
        }
      }
      waiters := waiters - {conn.fp};
      picks := EvictOverflow();
      arrived := arrived[conn.fp := QueueOf(arrived, conn.fp) + [Buffered(conn, instant)]];
      now := instant;
    }

    /** `accept_with_fingerprint`: a buffered connection that is still open, or a place in the queue. */
    method Accept(fp: Fingerprint, dead: set<Conn>) returns (answer: Answer)
      modifies this
      ensures (View(), answer) == Accepted(old(View()), fp, dead)
    {
      if closed {
        return Refused;
      }
      var queue, dropped := QueueOf(arrived, fp), 0;
      ghost var start := queue;
      while queue != [] && queue[0].conn in dead
        invariant dropped + |queue| == |start| && queue == start[dropped..]
        invariant Open(queue, dead) == Open(start, dead)
        decreases |queue|
      {
        queue := queue[1..];
        dropped := dropped + 1;
      }
      var passed := Each(Conns(QueueOf(arrived, fp)[..dropped]), Discarded);
      assert passed == PassedOver(start, dead);
      if queue != [] {
        var conn := queue[0].conn;
        fates := fates + passed[conn := Handed(fp, None)];
        arrived := if queue[1..] == [] then arrived - {fp} else arrived[fp := queue[1..]];
        return Got(conn);
      }
      fates := fates + passed;
      arrived := arrived - {fp};
      waiters := waiters[fp := QueueOf(waiters, fp) + [next]];
      next := next + 1;
      return Waiting(next - 1);
    }

    method ExpireQueue(queue: seq<Buffered>, instant: nat) returns (kept: seq<Buffered>, expired: set<Conn>)
      ensures kept == Kept(queue, instant) && expired == ExpiredOf(queue, instant)
    {
      var k := 0;
      while k < |queue| && Expired(queue[k], instant)
        invariant k <= |queue| && Kept(queue[k..], instant) == Kept(queue, instant)
      {
        k := k + 1;
      }
      kept := queue[k..];
      expired := Conns(queue[..k]);
    }

    /** Close every buffered connection that nobody claimed in time. */
    method ExpireBuffered(instant: nat)
      modifies this
      ensures View() == Swept(old(View()), instant)
    {
      if closed {
        return;
      }
      var order := Listed(arrived.Keys);
      var left: map<Fingerprint, seq<Buffered>> := map[];
      var gone: set<Conn> := {};
      for i := 0 to |order|
        invariant View() == old(View())
        invariant forall p :: p in left <==> p in order[..i] && Kept(arrived[p], instant) != []
        invariant forall p :: p in left ==> left[p] == Kept(arrived[p], instant)
        invariant forall c :: c in gone <==> exists p :: p in order[..i] && c in ExpiredOf(arrived[p], instant)
      {
        var p := order[i];
        PrefixSnoc(order, i);
        var kept, expired := ExpireQueue(arrived[p], instant);
        gone := gone + expired;
        if kept != [] {
          left := left[p := kept];
        }
      }
      assert order[..|order|] == order;
      assert left == KeptAll(arrived, instant) && gone == ExpiredConns(arrived, instant);
      arrived := left;
      fates := fates + Each(gone, Shut);
      now := instant;
    }

    method Close()
      modifies this
      ensures View() == ShutDown(old(View()))
    {
      closed := true;
      waiters := map[];
      fates := fates + Each(BufferedConns(arrived), Shut);
      arrived := map[];
    }
  }

  /** Room can always be made. */
  lemma {:induction false} RoomExists(s: State) returns (picks: seq<Fingerprint>)
    ensures MakesRoom(s, picks)
    decreases Total(s.arrived)
  {
    picks := [];
    if Total(s.arrived) >= MAX_BUFFERED {
      var p := SomeNonEmpty(s.arrived);
      var fp := OldestExists(s.arrived, s.arrived.Keys, p);
      var q := s.arrived[fp];
      if |q| == 1 {
        TotalRemove(s.arrived, fp);
      } else {
        TotalUpdate(s.arrived, fp, q[1..]);
      }
      var more := RoomExists(DropFront(s, fp));
      picks := [fp] + more;
      assert picks[1..] == more;
    }
  }

  lemma {:induction false} OldestExists(arrived: map<Fingerprint, seq<Buffered>>, among: set<Fingerprint>,
                                        start: Fingerprint)
    returns (fp: Fingerprint)
    requires start in arrived && arrived[start] != [] && among <= arrived.Keys
    ensures fp in arrived && arrived[fp] != []
    ensures arrived[fp][0].at <= arrived[start][0].at
    ensures forall p :: p in among && arrived[p] != [] ==> arrived[fp][0].at <= arrived[p][0].at
    decreases |among|
  {
    fp := start;
    if among != {} {
      var p :| p in among;
      fp := OldestExists(
        arrived, among - {p}, if arrived[p] != [] && arrived[p][0].at < arrived[start][0].at then p else start);
    }
  }
}
