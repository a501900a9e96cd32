/** Routing inbound connections to the callers that wait for their fingerprint. */
module AcceptRouter {
  import opened Bytes
  import opened Collections

  const MAX_BUFFERED := 256
  const TTL := 30_000

  type Fingerprint = string

  /** A connection and the fingerprint of the certificate it presented. */
  datatype Conn = Conn(id: nat, fp: Fingerprint)

  datatype Buffered = Buffered(conn: Conn, at: nat)

  /**
   * What has finally happened to a connection here: it was sent to a caller that asked for `asked`, a waiting one
   * or one that found it buffered; or it was closed here; or its peer had closed it.
   */
  datatype Fate = Handed(asked: Fingerprint, waiter: Option<nat>) | Shut | Discarded

  datatype State = State(
    waiters: map<Fingerprint, seq<nat>>,
    arrived: map<Fingerprint, seq<Buffered>>,
    next: nat,
    closed: bool,
    fates: map<Conn, Fate>,
    now: nat)

  datatype Answer = Refused | Got(conn: Conn) | Waiting(id: nat)

  const EMPTY := State(map[], map[], 0, false, map[], 0)

  function QueueOf<V>(m: map<Fingerprint, seq<V>>, fp: Fingerprint): seq<V> {
    if fp in m then m[fp] else []
  }

  /** Store a queue, or forget it when it is empty. */
  function Put<V>(m: map<Fingerprint, seq<V>>, fp: Fingerprint, q: seq<V>): map<Fingerprint, seq<V>> {
    if q == [] then m - {fp} else m[fp := q]
  }

  function Conns(q: seq<Buffered>): set<Conn> {
    set b | b in q :: b.conn
  }

  function Each(conns: set<Conn>, fate: Fate): map<Conn, Fate> {
    map c | c in conns :: fate
  }

  /** The connections ahead of the last `left` of a queue. */
  function Ahead(q: seq<Buffered>, left: nat): set<Conn>
    requires left <= |q|
  {
    Conns(q[..|q| - left])
  }

  // ---- deliver -----------------------------------------------------------

  /** Waiters that went away without being removed are skipped. */
  function Alive(q: seq<nat>, gone: set<nat>): seq<nat>
    decreases |q|
  {
    if q != [] && q[0] in gone then Alive(q[1..], gone) else q
  }

  /** No buffered connection is older than the front of this queue. */
  predicate IsOldest(arrived: map<Fingerprint, seq<Buffered>>, fp: Fingerprint) {
    && fp in arrived && arrived[fp] != []
    && forall p :: p in arrived && arrived[p] != [] ==> arrived[fp][0].at <= arrived[p][0].at
  }

  function DropFront(s: State, fp: Fingerprint): State
    requires QueueOf(s.arrived, fp) != []
  {
    var q := s.arrived[fp];
    s.(arrived := Put(s.arrived, fp, q[1..]), fates := s.fates + map[q[0].conn := Shut])
  }

  /** `picks` are the queues that make room, the oldest front each time, until the buffer is below its limit. */
  ghost predicate MakesRoom(s: State, picks: seq<Fingerprint>)
    decreases |picks|
  {
    if picks == [] then Total(s.arrived) < MAX_BUFFERED || forall p :: p in s.arrived ==> s.arrived[p] == []
    else
      && Total(s.arrived) >= MAX_BUFFERED && IsOldest(s.arrived, picks[0])
      && MakesRoom(DropFront(s, picks[0]), picks[1..])
  }

  ghost function Evicted(s: State, picks: seq<Fingerprint>): State
    requires MakesRoom(s, picks)
    decreases |picks|
  {
    if picks == [] then s else Evicted(DropFront(s, picks[0]), picks[1..])
  }

  function Push(s: State, conn: Conn, now: nat): State {
    s.(arrived := s.arrived[conn.fp := QueueOf(s.arrived, conn.fp) + [Buffered(conn, now)]], now := now)
  }

  function NoWaiter(s: State, fp: Fingerprint): State {
    s.(waiters := s.waiters - {fp})
  }

  function HandOver(s: State, conn: Conn, q: seq<nat>): State
    requires q != []
  {
    s.(waiters := Put(s.waiters, conn.fp, q[1..]), fates := s.fates[conn := Handed(conn.fp, Some(q[0]))])
  }

  ghost function Delivered(s: State, conn: Conn, now: nat, gone: set<nat>, picks: seq<Fingerprint>): State
    requires MakesRoom(NoWaiter(s, conn.fp), picks)
  {
    var q := Alive(QueueOf(s.waiters, conn.fp), gone);
    if s.closed then s.(fates := s.fates[conn := Shut])
    else if q != [] then HandOver(s, conn, q)
    else Push(Evicted(NoWaiter(s, conn.fp), picks), conn, now)
  }

  // ---- accept ------------------------------------------------------------

  /** Buffered connections that their peer has closed meanwhile are passed over. */
  function Open(q: seq<Buffered>, dead: set<Conn>): (r: seq<Buffered>)
    ensures |r| <= |q|
    decreases |q|
  {
    if q != [] && q[0].conn in dead then Open(q[1..], dead) else q
  }

  function PassedOver(q: seq<Buffered>, dead: set<Conn>): map<Conn, Fate> {
    Each(Ahead(q, |Open(q, dead)|), Discarded)
  }

  function Accepted(s: State, fp: Fingerprint, dead: set<Conn>): (State, Answer) {
    if s.closed then (s, Refused)
    else
      var q := QueueOf(s.arrived, fp);
      var open := Open(q, dead);
      if open != [] then
        (s.(arrived := Put(s.arrived, fp, open[1..]),
            fates := s.fates + PassedOver(q, dead)[open[0].conn := Handed(fp, None)]), Got(open[0].conn))
      else
        (s.(arrived := s.arrived - {fp}, fates := s.fates + PassedOver(q, dead), next := s.next + 1,
            waiters := s.waiters[fp := QueueOf(s.waiters, fp) + [s.next]]), Waiting(s.next))
  }

  // ---- the rest ----------------------------------------------------------

  function Without(q: seq<nat>, id: nat): seq<nat> {
    if q == [] then []
    else Without(q[..|q| - 1], id) + if q[|q| - 1] == id then [] else [q[|q| - 1]]
  }

  function Cancelled(s: State, fp: Fingerprint, id: nat): State {
    if fp in s.waiters then s.(waiters := Put(s.waiters, fp, Without(s.waiters[fp], id))) else s
  }

  predicate Expired(b: Buffered, now: nat) {
    now >= b.at + TTL
  }

  /** What is left of a queue once its expired front has been dropped. */
  function Kept(q: seq<Buffered>, now: nat): (r: seq<Buffered>)
    ensures |r| <= |q|
    decreases |q|
  {
    if q != [] && Expired(q[0], now) then Kept(q[1..], now) else q
  }

  function KeptAll(arrived: map<Fingerprint, seq<Buffered>>, now: nat): map<Fingerprint, seq<Buffered>> {
    map p | p in arrived && Kept(arrived[p], now) != [] :: Kept(arrived[p], now)
  }

  function ExpiredConns(arrived: map<Fingerprint, seq<Buffered>>, now: nat): set<Conn> {
    set p, c | p in arrived && c in ExpiredOf(arrived[p], now) :: c
  }

  function ExpiredOf(q: seq<Buffered>, now: nat): set<Conn> {
    Ahead(q, |Kept(q, now)|)
  }

  function Swept(s: State, now: nat): State {
    if s.closed then s
    else s.(arrived := KeptAll(s.arrived, now), fates := s.fates + Each(ExpiredConns(s.arrived, now), Shut), now := now)
  }

  function BufferedConns(arrived: map<Fingerprint, seq<Buffered>>): set<Conn> {
    set p, b | p in arrived && b in arrived[p] :: b.conn
  }

  function ShutDown(s: State): State {
    State(map[], map[], s.next, true, s.fates + Each(BufferedConns(s.arrived), Shut), s.now)
  }

  // ---- the invariant -----------------------------------------------------

  /** One fingerprint's buffer: not empty, its own connections, each once, oldest first. */
  predicate BufferOk(fp: Fingerprint, q: seq<Buffered>, now: nat) {
    && q != [] && (forall i :: 0 <= i < |q| ==> q[i].conn.fp == fp && q[i].at <= now)
    && (forall i, j :: 0 <= i < j < |q| ==> q[i].at <= q[j].at && q[i].conn != q[j].conn)
  }

  predicate BuffersOk(arrived: map<Fingerprint, seq<Buffered>>, now: nat) {
    forall p :: p in arrived ==> BufferOk(p, arrived[p], now)
  }

  ghost predicate QueuesOk(s: State) {
    && BuffersOk(s.arrived, s.now)
    && (forall p :: p in s.waiters ==> s.waiters[p] != [] && p !in s.arrived)
    && Total(s.arrived) <= MAX_BUFFERED
    && (s.closed ==> s.waiters == map[] && s.arrived == map[])
  }

  /**
   * Every connection that came in is buffered or has met its fate, never both, and went only to its own
   * fingerprint.
   */
  predicate Accounted(s: State, seen: set<Conn>) {
    && seen == s.fates.Keys + BufferedConns(s.arrived) && s.fates.Keys !! BufferedConns(s.arrived)
    && forall c :: c in s.fates && s.fates[c].Handed? ==> s.fates[c].asked == c.fp
  }

  ghost predicate Inv(s: State, seen: set<Conn>) {
    QueuesOk(s) && Accounted(s, seen)
  }

  /** Replacing one fingerprint's queue. */
  lemma PutBuffers(arrived: map<Fingerprint, seq<Buffered>>, fp: Fingerprint, q: seq<Buffered>, now: nat)
    requires BuffersOk(arrived, now) && (q != [] ==> BufferOk(fp, q, now))
    ensures BuffersOk(Put(arrived, fp, q), now)
    ensures BufferedConns(Put(arrived, fp, q)) == BufferedConns(arrived) - Conns(QueueOf(arrived, fp)) + Conns(q)
    ensures Total(Put(arrived, fp, q)) == Total(arrived) - |QueueOf(arrived, fp)| + |q|
  {
    PutConns(arrived, fp, q, now);
    if q != [] {
      TotalUpdate(arrived, fp, q);
    } else if fp in arrived {
      TotalRemove(arrived, fp);
    } else {
      assert arrived - {fp} == arrived;
    }
  }

  lemma PutConns(arrived: map<Fingerprint, seq<Buffered>>, fp: Fingerprint, q: seq<Buffered>, now: nat)
    requires BuffersOk(arrived, now) && (q != [] ==> BufferOk(fp, q, now))
    ensures BufferedConns(Put(arrived, fp, q)) == BufferedConns(arrived) - Conns(QueueOf(arrived, fp)) + Conns(q)
  {
    var next := Put(arrived, fp, q);
    forall c | c in BufferedConns(next) ensures c in BufferedConns(arrived) - Conns(QueueOf(arrived, fp)) + Conns(q) {
      var p: Fingerprint, b: Buffered :| p in next && b in next[p] && b.conn == c;
      OwnPrint(next, p, b, now);
      if p != fp {
        NotOurs(arrived, fp, c, now);
      }
    }
    forall c | c in BufferedConns(arrived) - Conns(QueueOf(arrived, fp)) + Conns(q) ensures c in BufferedConns(next) {
      if c in Conns(q) {
        var b: Buffered :| b in q && b.conn == c;
        assert fp in next && b in next[fp];
      } else {
        var p: Fingerprint, b: Buffered :| p in arrived && b in arrived[p] && b.conn == c;
        assert p in next && b in next[p];
      }
    }
  }

  lemma OwnPrint(arrived: map<Fingerprint, seq<Buffered>>, p: Fingerprint, b: Buffered, now: nat)
    requires p in arrived && b in arrived[p] && BufferOk(p, arrived[p], now)
    ensures b.conn.fp == p
  {
  }

  lemma NotOurs(arrived: map<Fingerprint, seq<Buffered>>, fp: Fingerprint, c: Conn, now: nat)
    requires BuffersOk(arrived, now) && c.fp != fp
    ensures c !in Conns(QueueOf(arrived, fp))
  {
  }

  /** A queue without its first `k` connections. */
  lemma Tail(fp: Fingerprint, q: seq<Buffered>, k: nat, now: nat)
    requires BufferOk(fp, q, now) && k <= |q|
    ensures k < |q| ==> BufferOk(fp, q[k..], now)
    ensures Conns(q[k..]) == Conns(q) - Conns(q[..k]) && Conns(q[..k]) <= Conns(q)
  {
    forall c | c in Conns(q[k..]) ensures c in Conns(q) && c !in Conns(q[..k]) {
      var i :| k <= i < |q| && q[i].conn == c;
      assert q[i] in q;
    }
    forall c | c in Conns(q) ensures c in Conns(q[..k]) || c in Conns(q[k..]) {
      var i :| 0 <= i < |q| && q[i].conn == c;
      if i < k {
        assert q[..k][i] == q[i];
      } else {
        assert q[k..][i - k] == q[i];
      }
    }
  }

  // ---- every step keeps it -----------------------------------------------

  /** One queue shrinks to a tail; the connections that leave it meet their fates. */
  lemma LeaveBuffer(s: State, seen: set<Conn>, fp: Fingerprint, k: nat, fates: map<Conn, Fate>)
    requires Inv(s, seen) && fp in s.arrived && k <= |s.arrived[fp]| && fates.Keys == Conns(s.arrived[fp][..k])
    requires forall c :: c in fates && fates[c].Handed? ==> fates[c].asked == c.fp
    ensures var t := s.(arrived := Put(s.arrived, fp, s.arrived[fp][k..]), fates := s.fates + fates);
      Inv(t, seen) && FatesKept(s, t) && Total(t.arrived) == Total(s.arrived) - k
  {
    LeaveConns(s.arrived, fp, k, s.now);
    Moved(s, seen, fates, Put(s.arrived, fp, s.arrived[fp][k..]));
  }

  lemma LeaveConns(arrived: map<Fingerprint, seq<Buffered>>, fp: Fingerprint, k: nat, now: nat)
    requires BuffersOk(arrived, now) && fp in arrived && k <= |arrived[fp]|
    ensures var q, next := arrived[fp], Put(arrived, fp, arrived[fp][k..]);
      && BuffersOk(next, now) && Total(next) == Total(arrived) - k
      && BufferedConns(next) == BufferedConns(arrived) - Conns(q[..k]) && Conns(q[..k]) <= BufferedConns(arrived)
  {
    var q := arrived[fp];
    Tail(fp, q, k, now);
    PutBuffers(arrived, fp, q[k..], now);
    assert Conns(q) <= BufferedConns(arrived);
  }

  /** The books still balance when connections leave the buffer for their fates. */
  lemma Moved(s: State, seen: set<Conn>, fates: map<Conn, Fate>, arrived: map<Fingerprint, seq<Buffered>>)
    requires Accounted(s, seen) && fates.Keys <= BufferedConns(s.arrived)
    requires BufferedConns(arrived) == BufferedConns(s.arrived) - fates.Keys
    requires forall c :: c in fates && fates[c].Handed? ==> fates[c].asked == c.fp
    ensures Accounted(s.(arrived := arrived, fates := s.fates + fates), seen)
    ensures forall c :: c in s.fates ==> c in s.fates + fates && (s.fates + fates)[c] == s.fates[c]
  {
    assert (s.fates + fates).Keys == s.fates.Keys + fates.Keys;
  }

  lemma {:induction false} OpenIsTail(q: seq<Buffered>, dead: set<Conn>) returns (k: nat)
    ensures k <= |q| && Open(q, dead) == q[k..] && forall i :: 0 <= i < k ==> q[i].conn in dead
  {
    k := 0;
    if q != [] && q[0].conn in dead {
      var j := OpenIsTail(q[1..], dead);
      k := j + 1;
    }
  }

  lemma {:induction false} KeptIsTail(q: seq<Buffered>, now: nat) returns (k: nat)
    ensures k <= |q| && Kept(q, now) == q[k..] && (forall i :: 0 <= i < k ==> Expired(q[i], now))
    ensures k < |q| ==> !Expired(q[k], now)
  {
    k := 0;
    if q != [] && Expired(q[0], now) {
      var j := KeptIsTail(q[1..], now);
      k := j + 1;
    }
  }

  /** The front that eviction picks is the oldest connection in the whole buffer. */
  lemma PickIsGloballyOldest(s: State, seen: set<Conn>, fp: Fingerprint, p: Fingerprint, b: Buffered)
    requires Inv(s, seen) && IsOldest(s.arrived, fp) && p in s.arrived && b in s.arrived[p]
    ensures s.arrived[fp][0].at <= b.at
  {
    var q := s.arrived[p];
    assert BufferOk(p, q, s.now);
    var i :| 0 <= i < |q| && q[i] == b;
  }

  lemma DropFrontKeeps(s: State, seen: set<Conn>, fp: Fingerprint)
    requires Inv(s, seen) && fp in s.arrived
    ensures Inv(DropFront(s, fp), seen) && Total(DropFront(s, fp).arrived) == Total(s.arrived) - 1
  {
    var q := s.arrived[fp];
    assert BufferOk(fp, q, s.now);
    assert q[..1] == [q[0]];
    LeaveBuffer(s, seen, fp, 1, map[q[0].conn := Shut]);
  }

  lemma {:induction false} EvictionKeeps(s: State, seen: set<Conn>, picks: seq<Fingerprint>)
    requires Inv(s, seen) && MakesRoom(s, picks)
    ensures var t := Evicted(s, picks);
      && Inv(t, seen) && Total(t.arrived) < MAX_BUFFERED
      && t.waiters == s.waiters && t.next == s.next && t.closed == s.closed && t.now == s.now
    ensures |picks| <= 1
    decreases |picks|
  {
    if picks == [] {
      if Total(s.arrived) >= MAX_BUFFERED {
        var p := SomeNonEmpty(s.arrived);
      }
    } else {
      DropFrontKeeps(s, seen, picks[0]);
      EvictionKeeps(DropFront(s, picks[0]), seen, picks[1..]);
    }
  }

  lemma PushKeeps(s: State, seen: set<Conn>, conn: Conn, now: nat)
    requires Inv(s, seen) && Total(s.arrived) < MAX_BUFFERED && !s.closed && conn.fp !in s.waiters
    requires conn !in seen && now >= s.now
    ensures Inv(Push(s, conn, now), seen + {conn})
  {
    assert BuffersOk(s.arrived, now);
    PushBuffers(s.arrived, conn, now);
  }

  lemma PushBuffers(arrived: map<Fingerprint, seq<Buffered>>, conn: Conn, now: nat)
    requires BuffersOk(arrived, now) && conn !in BufferedConns(arrived)
    ensures var next := arrived[conn.fp := QueueOf(arrived, conn.fp) + [Buffered(conn, now)]];
      && BuffersOk(next, now) && Total(next) == Total(arrived) + 1
      && BufferedConns(next) == BufferedConns(arrived) + {conn}
  {
    var q := QueueOf(arrived, conn.fp);
    assert Conns(q) <= BufferedConns(arrived);
    SnocOk(conn.fp, q, conn, now);
    PutBuffers(arrived, conn.fp, q + [Buffered(conn, now)], now);
    ConnsSnoc(q, Buffered(conn, now));
  }

  lemma SnocOk(fp: Fingerprint, q: seq<Buffered>, conn: Conn, now: nat)
    requires (q != [] ==> BufferOk(fp, q, now)) && conn.fp == fp && conn !in Conns(q)
    ensures BufferOk(fp, q + [Buffered(conn, now)], now)
  {
    forall i | 0 <= i < |q| ensures q[i].conn != conn {
      assert q[i] in q;
    }
  }

  lemma ConnsSnoc(q: seq<Buffered>, b: Buffered)
    ensures Conns(q + [b]) == Conns(q) + {b.conn}
  {
    forall c | c in Conns(q) ensures c in Conns(q + [b]) {
      var x: Buffered :| x in q && x.conn == c;
      assert x in q + [b];
    }
    assert b in q + [b];
  }

  // ---- runs --------------------------------------------------------------

  datatype Op =
    | Deliver(conn: Conn, now: nat, gone: set<nat>, picks: seq<Fingerprint>)
    | Accept(fp: Fingerprint, dead: set<Conn>)
    | Cancel(fp: Fingerprint, id: nat)
    | Sweep(now: nat)
    | Close

  /** A connection is delivered once, and clock readings do not go back. */
  ghost predicate Enabled(s: State, seen: set<Conn>, op: Op) {
    match op
    case Deliver(conn, now, _, picks) => conn !in seen && now >= s.now && MakesRoom(NoWaiter(s, conn.fp), picks)
    case Sweep(now) => now >= s.now
    case _ => true
  }

  ghost function Next(s: State, seen: set<Conn>, op: Op): State
    requires Enabled(s, seen, op)
  {
    match op
    case Deliver(conn, now, gone, picks) => Delivered(s, conn, now, gone, picks)
    case Accept(fp, dead) => Accepted(s, fp, dead).0
    case Cancel(fp, id) => Cancelled(s, fp, id)
    case Sweep(now) => Swept(s, now)
    case Close => ShutDown(s)
  }

  function SeenAfter(seen: set<Conn>, op: Op): set<Conn> {
    if op.Deliver? then seen + {op.conn} else seen
  }

  /** Fates once met are final. */
  predicate FatesKept(s: State, t: State) {
    forall c :: c in s.fates ==> c in t.fates && t.fates[c] == s.fates[c]
  }

  lemma FateAtOnce(s: State, seen: set<Conn>, conn: Conn, fate: Fate, waiters: map<Fingerprint, seq<nat>>)
    requires Inv(s, seen) && conn !in seen && (fate.Handed? ==> fate.asked == conn.fp)
    requires (forall p :: p in waiters ==> waiters[p] != [] && p in s.waiters)
    ensures var t := s.(waiters := waiters, fates := s.fates[conn := fate]); Inv(t, seen + {conn}) && FatesKept(s, t)
  {
    assert s.closed ==> waiters == map[];
  }

  lemma {:induction false} EvictionKeepsFates(s: State, seen: set<Conn>, picks: seq<Fingerprint>)
    requires Inv(s, seen) && MakesRoom(s, picks)
    ensures FatesKept(s, Evicted(s, picks))
    decreases |picks|
  {
    if picks != [] {
      DropFrontKeeps(s, seen, picks[0]);
      var q := s.arrived[picks[0]];
      assert q[0] in q && q[0].conn in BufferedConns(s.arrived);
      EvictionKeepsFates(DropFront(s, picks[0]), seen, picks[1..]);
    }
  }

  lemma DeliverKeeps(s: State, seen: set<Conn>, conn: Conn, now: nat, gone: set<nat>, picks: seq<Fingerprint>)
    requires Inv(s, seen) && Enabled(s, seen, Deliver(conn, now, gone, picks))
    ensures var t := Delivered(s, conn, now, gone, picks); Inv(t, seen + {conn}) && FatesKept(s, t)
  {
    var q := Alive(QueueOf(s.waiters, conn.fp), gone);
    if s.closed {
      FateAtOnce(s, seen, conn, Shut, s.waiters);
    } else if q != [] {
      FateAtOnce(s, seen, conn, Handed(conn.fp, Some(q[0])), Put(s.waiters, conn.fp, q[1..]));
    } else {
      var w := NoWaiter(s, conn.fp);
      EvictionKeeps(w, seen, picks);
      EvictionKeepsFates(w, seen, picks);
      PushKeeps(Evicted(w, picks), seen, conn, now);
    }
  }

  lemma AcceptKeeps(s: State, seen: set<Conn>, fp: Fingerprint, dead: set<Conn>)
    requires Inv(s, seen)
    ensures var t := Accepted(s, fp, dead).0; Inv(t, seen) && FatesKept(s, t)
  {
    if !s.closed {
      var q := QueueOf(s.arrived, fp);
      var k := OpenIsTail(q, dead);
      if k < |q| {
        ClaimKeeps(s, seen, fp, dead, k);
      } else {
        WaitKeeps(s, seen, fp, dead);
      }
    }
  }

  lemma ClaimKeeps(s: State, seen: set<Conn>, fp: Fingerprint, dead: set<Conn>, k: nat)
    requires Inv(s, seen) && !s.closed && fp in s.arrived && k < |s.arrived[fp]|
    requires Open(s.arrived[fp], dead) == s.arrived[fp][k..]
    ensures var t := Accepted(s, fp, dead).0; Inv(t, seen) && FatesKept(s, t)
  {
    var q := s.arrived[fp];
    ClaimedConns(fp, q, dead, k, s.now);
    assert q[k..][0] == q[k] && q[k..][1..] == q[k + 1..];
    LeaveBuffer(s, seen, fp, k + 1, PassedOver(q, dead)[q[k].conn := Handed(fp, None)]);
  }

  lemma ClaimedConns(fp: Fingerprint, q: seq<Buffered>, dead: set<Conn>, k: nat, now: nat)
    requires BufferOk(fp, q, now) && k < |q| && Open(q, dead) == q[k..]
    ensures PassedOver(q, dead)[q[k].conn := Handed(fp, None)].Keys == Conns(q[..k + 1])
  {
    PrefixSnoc(q, k);
    ConnsSnoc(q[..k], q[k]);
  }

  lemma WaitKeeps(s: State, seen: set<Conn>, fp: Fingerprint, dead: set<Conn>)
    requires Inv(s, seen) && !s.closed && Open(QueueOf(s.arrived, fp), dead) == []
    ensures var t := Accepted(s, fp, dead).0; Inv(t, seen) && FatesKept(s, t)
  {
    PassAllKeeps(s, seen, fp, dead);
    JoinKeeps(s.(arrived := s.arrived - {fp}, fates := s.fates + PassedOver(QueueOf(s.arrived, fp), dead)), seen, fp);
  }

  lemma PassAllKeeps(s: State, seen: set<Conn>, fp: Fingerprint, dead: set<Conn>)
    requires Inv(s, seen) && Open(QueueOf(s.arrived, fp), dead) == []
    ensures var t := s.(arrived := s.arrived - {fp}, fates := s.fates + PassedOver(QueueOf(s.arrived, fp), dead));
      Inv(t, seen) && FatesKept(s, t)
  {
    var q := QueueOf(s.arrived, fp);
    if fp in s.arrived {
      assert q[..|q|] == q && q[|q|..] == [];
      LeaveBuffer(s, seen, fp, |q|, PassedOver(q, dead));
    } else {
      assert s.arrived - {fp} == s.arrived && s.fates + PassedOver(q, dead) == s.fates;
    }
  }

  lemma JoinKeeps(s: State, seen: set<Conn>, fp: Fingerprint)
    requires Inv(s, seen) && !s.closed && fp !in s.arrived
    ensures Inv(s.(next := s.next + 1, waiters := s.waiters[fp := QueueOf(s.waiters, fp) + [s.next]]), seen)
  {
  }

  /** A cancelled waiter leaves its queue; nobody else does. */
  lemma {:induction false} CancelRemovesOnly(q: seq<nat>, id: nat, x: nat)
    ensures x in Without(q, id) <==> x in q && x != id
  {
    if q != [] {
      CancelRemovesOnly(q[..|q| - 1], id, x);
      assert q == q[..|q| - 1] + [q[|q| - 1]];
    }
  }

  /** Expiry leaves exactly the connections that are not past their time. */
  lemma KeptExactly(fp: Fingerprint, q: seq<Buffered>, now: nat, b: Buffered)
    requires BufferOk(fp, q, now)
    ensures b in Kept(q, now) <==> b in q && !Expired(b, now)
  {
    var k := KeptIsTail(q, now);
    if b in q {
      var i :| 0 <= i < |q| && q[i] == b;
      if i >= k {
        assert q[k..][i - k] == b && q[k].at <= q[i].at;
      }
    }
  }

  lemma SweepBuffers(arrived: map<Fingerprint, seq<Buffered>>, now: nat)
    requires BuffersOk(arrived, now)
    ensures BuffersOk(KeptAll(arrived, now), now) && Total(KeptAll(arrived, now)) <= Total(arrived)
    ensures BufferedConns(KeptAll(arrived, now)) == BufferedConns(arrived) - ExpiredConns(arrived, now)
    ensures ExpiredConns(arrived, now) <= BufferedConns(arrived)
  {
    var next := KeptAll(arrived, now);
    forall p | p in next ensures BufferOk(p, next[p], now) && |next[p]| <= |arrived[p]| {
      var k := KeptIsTail(arrived[p], now);
      Tail(p, arrived[p], k, now);
    }
    TotalMonotone(next, arrived);
    forall c | c in BufferedConns(next) ensures c in BufferedConns(arrived) && c !in ExpiredConns(arrived, now) {
      var p: Fingerprint, b: Buffered :| p in next && b in next[p] && b.conn == c;
      KeptConn(arrived, p, b, now);
    }
    forall c | c in BufferedConns(arrived) && c !in ExpiredConns(arrived, now) ensures c in BufferedConns(next) {
      var p: Fingerprint, b: Buffered :| p in arrived && b in arrived[p] && b.conn == c;
      var k := KeptIsTail(arrived[p], now);
      Tail(p, arrived[p], k, now);
      assert c !in ExpiredOf(arrived[p], now);
      var b': Buffered :| b' in Kept(arrived[p], now) && b'.conn == c;
    }
    forall c | c in ExpiredConns(arrived, now) ensures c in BufferedConns(arrived) {
      var p :| p in arrived && c in ExpiredOf(arrived[p], now);
      var k := KeptIsTail(arrived[p], now);
      Tail(p, arrived[p], k, now);
    }
  }

  lemma KeptConn(arrived: map<Fingerprint, seq<Buffered>>, p: Fingerprint, b: Buffered, now: nat)
    requires BuffersOk(arrived, now) && p in arrived && b in Kept(arrived[p], now)
    ensures b in arrived[p] && b.conn !in ExpiredConns(arrived, now)
  {
    var q := arrived[p];
    var k := KeptIsTail(q, now);
    Tail(p, q, k, now);
    OwnPrint(arrived, p, b, now);
    forall p' | p' in arrived && p' != p ensures b.conn !in ExpiredOf(arrived[p'], now) {
      NotOurs(arrived, p', b.conn, now);
      var j := KeptIsTail(arrived[p'], now);
      Tail(p', arrived[p'], j, now);
    }
  }

  lemma SweepKeeps(s: State, seen: set<Conn>, now: nat)
    requires Inv(s, seen) && now >= s.now
    ensures Inv(Swept(s, now), seen) && FatesKept(s, Swept(s, now))
  {
    if !s.closed {
      SweepBuffers(s.arrived, now);
      Moved(s, seen, Each(ExpiredConns(s.arrived, now), Shut), KeptAll(s.arrived, now));
    }
  }

  lemma CloseKeeps(s: State, seen: set<Conn>)
    requires Inv(s, seen)
    ensures Inv(ShutDown(s), seen) && FatesKept(s, ShutDown(s))
  {
    var none: map<Fingerprint, seq<Buffered>> := map[];
    assert BufferedConns(none) == {};
    assert Total(none) == 0;
    Moved(s, seen, Each(BufferedConns(s.arrived), Shut), none);
  }

  /** Every step keeps the invariant and every fate, and nothing reopens a closed router. */
  lemma StepKeeps(s: State, seen: set<Conn>, op: Op)
    requires Inv(s, seen) && Enabled(s, seen, op)
    ensures Inv(Next(s, seen, op), SeenAfter(seen, op)) && FatesKept(s, Next(s, seen, op))
    ensures s.closed ==> Next(s, seen, op).closed
  {
    match op
    case Deliver(conn, now, gone, picks) => DeliverKeeps(s, seen, conn, now, gone, picks);
    case Accept(fp, dead) => AcceptKeeps(s, seen, fp, dead);
    case Cancel(fp, id) =>
    case Sweep(now) => SweepKeeps(s, seen, now);
    case Close => CloseKeeps(s, seen);
  }

  ghost predicate StepAt(run: seq<State>, seen: seq<set<Conn>>, ops: seq<Op>, i: nat)
    requires 0 < i < |run| == |seen| == |ops| + 1
  {
    && Enabled(run[i - 1], seen[i - 1], ops[i - 1]) && run[i] == Next(run[i - 1], seen[i - 1], ops[i - 1])
    && seen[i] == SeenAfter(seen[i - 1], ops[i - 1])
  }

  /** Any sequence of deliveries, claims, cancellations, sweeps and closings; `seen` is what came in so far. */
  ghost predicate IsRun(run: seq<State>, seen: seq<set<Conn>>, ops: seq<Op>) {
    && |run| == |seen| == |ops| + 1 && run[0] == EMPTY && seen[0] == {}
    && forall i: nat :: 0 < i < |run| ==> StepAt(run, seen, ops, i)
  }

  lemma {:induction false} RunHolds(run: seq<State>, seen: seq<set<Conn>>, ops: seq<Op>, i: nat)
    requires IsRun(run, seen, ops) && i < |run|
    ensures Inv(run[i], seen[i])
  {
    if i == 0 {
      assert BufferedConns(EMPTY.arrived) == {};
    } else {
      RunHolds(run, seen, ops, i - 1);
      assert StepAt(run, seen, ops, i);
      StepKeeps(run[i - 1], seen[i - 1], ops[i - 1]);
    }
  }

  /** Whatever befalls a connection stands for the rest of the run; a closed router stays closed and empty. */
  lemma {:induction false} FatesAreFinal(run: seq<State>, seen: seq<set<Conn>>, ops: seq<Op>, i: nat, j: nat)
    requires IsRun(run, seen, ops) && i <= j < |run|
    ensures FatesKept(run[i], run[j])
    ensures run[i].closed ==> run[j].closed && run[j].waiters == map[] && run[j].arrived == map[]
  {
    RunHolds(run, seen, ops, j);
    if i < j {
      FatesAreFinal(run, seen, ops, i, j - 1);
      RunHolds(run, seen, ops, j - 1);
      assert StepAt(run, seen, ops, j);
      StepKeeps(run[j - 1], seen[j - 1], ops[j - 1]);
    }
  }

  /** A caller is only ever given a connection of the fingerprint it asked for, and one still open. */
  lemma CallersGetTheirOwn(s: State, seen: set<Conn>, fp: Fingerprint, dead: set<Conn>, conn: Conn)
    requires Inv(s, seen) && Accepted(s, fp, dead).1 == Got(conn)
    ensures conn.fp == fp && conn !in dead && conn in BufferedConns(s.arrived)
  {
    var q := QueueOf(s.arrived, fp);
    var k := OpenIsTail(q, dead);
    assert q[k..][0] == q[k] && q[k] in q;
    OpenFront(q, dead);
  }

  lemma {:induction false} OpenFront(q: seq<Buffered>, dead: set<Conn>)
    ensures Open(q, dead) != [] ==> Open(q, dead)[0].conn !in dead
    decreases |q|
  {
    if q != [] && q[0].conn in dead {
      OpenFront(q[1..], dead);
    }
  }

  /** A sweep leaves exactly the connections that are not past their time. */
  lemma SweepIsExact(s: State, seen: set<Conn>, now: nat, p: Fingerprint, b: Buffered)
    requires Inv(s, seen) && !s.closed && now >= s.now
    ensures p in Swept(s, now).arrived && b in Swept(s, now).arrived[p] <==>
            p in s.arrived && b in s.arrived[p] && !Expired(b, now)
  {
    if p in s.arrived {
      KeptExactly(p, s.arrived[p], now, b);
    }
  }
}
