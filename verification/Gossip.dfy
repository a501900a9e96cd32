/** Rounds of pulls over a graph of peers while nobody writes. */
module Gossip {
  import opened Clock
  import opened Wire
  import opened Lww
  import opened ReplLog
  import opened Collections
  import opened Sync
  import opened Delivery
  import opened RunInvariant
  import opened Runs
  import opened Convergence
  import opened Pull

  type Net = map<PeerId, State>

  type Graph = set<(PeerId, PeerId)>

  /** `puller` sends its cursors to `server` and applies the delta it gets back. */
  datatype PullStep = PullStep(puller: PeerId, server: PeerId, order: seq<PeerId>, wall: nat)

  function AfterPull(net: Net, p: PullStep): Net
    requires p.puller in net && p.server in net
  {
    var s := net[p.puller];
    net[p.puller := Absorbed(s, DeltaIn(net[p.server].log, CursorMap(s.log), p.order), p.wall)]
  }

  ghost predicate CanPull(net: Net, p: PullStep) {
    p.puller in net && p.server in net && Enumerates(p.order, net[p.server].log.observed.Keys)
  }

  /** The nets along a sequence of pulls. */
  ghost predicate Plays(nets: seq<Net>, pulls: seq<PullStep>) {
    && |nets| == |pulls| + 1
    && forall i: nat :: 0 < i < |nets| ==> PullAt(nets, pulls, i)
  }

  ghost predicate PullAt(nets: seq<Net>, pulls: seq<PullStep>, i: nat)
    requires 0 < i < |nets| == |pulls| + 1
  {
    CanPull(nets[i - 1], pulls[i - 1]) && nets[i] == AfterPull(nets[i - 1], pulls[i - 1])
  }

  /** Every peer is faithful to the truth and still serves every other. */
  ghost predicate Settled(truth: Truth, net: Net) {
    && TruthOk(truth)
    && (forall n :: n in net ==> Faithful(truth, net[n]))
    && (forall n, m :: n in net && m in net ==> Serves(net[n], net[m]))
  }

  /** What one pull does to the puller. */
  lemma PullOnce(truth: Truth, s: State, server: State, order: seq<PeerId>, wall: nat)
    requires TruthOk(truth) && Faithful(truth, s) && Faithful(truth, server) && Serves(server, s)
    requires Enumerates(order, server.log.observed.Keys)
    ensures var t := Absorbed(s, DeltaIn(server.log, CursorMap(s.log), order), wall);
      Faithful(truth, t) && Joined(s.log, server.log, t.log)
  {
    var delta := DeltaIn(server.log, CursorMap(s.log), order);
    forall f | f in delta ensures IsTrue(truth, f) {
      DeltaIsTrue(truth, server.log, CursorMap(s.log), order, f);
    }
    AbsorbedKeepsFaith(truth, s, delta, wall);
    AbsorbedLog(s, delta, wall);
    forall o: PeerId ensures Base(server.log, o) <= At(CursorMap(s.log), o) <= Cursor(s.log, o) {
      CursorMapAt(s.log, o);
    }
    PullJoins(truth, s.log, server.log, CursorMap(s.log), order);
  }

  /** The puller after one pull, in terms of the net. */
  lemma PullerJoins(truth: Truth, net: Net, p: PullStep)
    requires Settled(truth, net) && CanPull(net, p)
    ensures var t := AfterPull(net, p)[p.puller];
      Faithful(truth, t) && Joined(net[p.puller].log, net[p.server].log, t.log)
  {
    assert Serves(net[p.server], net[p.puller]);
    PullOnce(truth, net[p.puller], net[p.server], p.order, p.wall);
  }

  lemma JoinGrows(s: State, server: State, t: State)
    requires Joined(s.log, server.log, t.log)
    ensures Grows(s, t) && Grows(server, t) && BaseAtMost(t, s)
  {
    forall o: PeerId
      ensures Cursor(s.log, o) <= Cursor(t.log, o) && Cursor(server.log, o) <= Cursor(t.log, o)
      ensures Base(t.log, o) <= Base(s.log, o)
    {
      assert Cursor(t.log, o) == Max(Cursor(s.log, o), Cursor(server.log, o));
    }
  }

  ghost predicate NetGrows(net: Net, next: Net) {
    next.Keys == net.Keys && forall n :: n in net ==> Grows(net[n], next[n])
  }

  lemma BaseReflexive(s: State)
    ensures BaseAtMost(s, s)
  {
  }

  /** A pull keeps the net settled, lowers no cursor, and lifts the puller to its server. */
  lemma PullKeeps(truth: Truth, net: Net, p: PullStep)
    requires Settled(truth, net) && CanPull(net, p)
    ensures var next := AfterPull(net, p);
      Settled(truth, next) && NetGrows(net, next) && Grows(net[p.server], next[p.puller])
  {
    var next, t := AfterPull(net, p), AfterPull(net, p)[p.puller];
    PullerJoins(truth, net, p);
    JoinGrows(net[p.puller], net[p.server], t);
    forall n | n in net ensures Grows(net[n], next[n]) {
      GrowsReflexive(net[n]);
    }
    forall n, m | n in next && m in next ensures Serves(next[n], next[m]) {
      BaseReflexive(net[n]);
      ServesLater(net[n], net[m], next[n], next[m]);
    }
  }

  lemma {:induction false} PlayKeeps(truth: Truth, nets: seq<Net>, pulls: seq<PullStep>, i: nat)
    requires Plays(nets, pulls) && Settled(truth, nets[0]) && i < |nets|
    ensures Settled(truth, nets[i])
  {
    if i > 0 {
      PlayKeeps(truth, nets, pulls, i - 1);
      assert PullAt(nets, pulls, i);
      PullKeeps(truth, nets[i - 1], pulls[i - 1]);
    }
  }

  lemma NetGrowsTransitive(a: Net, b: Net, c: Net)
    requires NetGrows(a, b) && NetGrows(b, c)
    ensures NetGrows(a, c)
  {
    forall n | n in a ensures Grows(a[n], c[n]) {
      GrowsTransitive(a[n], b[n], c[n]);
    }
  }

  lemma {:induction false} PlayGrows(truth: Truth, nets: seq<Net>, pulls: seq<PullStep>, i: nat, j: nat)
    requires Plays(nets, pulls) && Settled(truth, nets[0]) && i <= j < |nets|
    ensures NetGrows(nets[i], nets[j])
    decreases j
  {
    if i == j {
      forall n | n in nets[i] ensures Grows(nets[i][n], nets[j][n]) {
        GrowsReflexive(nets[i][n]);
      }
    } else {
      PlayGrows(truth, nets, pulls, i, j - 1);
      PlayKeeps(truth, nets, pulls, j - 1);
      assert PullAt(nets, pulls, j);
      PullKeeps(truth, nets[j - 1], pulls[j - 1]);
      NetGrowsTransitive(nets[i], nets[j - 1], nets[j]);
    }
  }

  /** Nothing is invented: a cursor always comes from some peer that had it at the start. */
  lemma {:induction false} CursorHasSource(truth: Truth, nets: seq<Net>, pulls: seq<PullStep>, i: nat, n: PeerId,
                                           o: PeerId)
    returns (m: PeerId)
    requires Plays(nets, pulls) && Settled(truth, nets[0]) && i < |nets| && n in nets[i]
    ensures m in nets[0] && Cursor(nets[i][n].log, o) == Cursor(nets[0][m].log, o)
  {
    if i == 0 {
      m := n;
    } else {
      assert PullAt(nets, pulls, i);
      var p := pulls[i - 1];
      PlayKeeps(truth, nets, pulls, i - 1);
      if n == p.puller {
        PullerJoins(truth, nets[i - 1], p);
        assert Cursor(nets[i][n].log, o) == Max(Cursor(nets[i - 1][n].log, o), Cursor(nets[i - 1][p.server].log, o));
        var from := if Cursor(nets[i][n].log, o) == Cursor(nets[i - 1][n].log, o) then n else p.server;
        m := CursorHasSource(truth, nets, pulls, i - 1, from, o);
      } else {
        m := CursorHasSource(truth, nets, pulls, i - 1, n, o);
      }
    }
  }

  /** Pull number `k` goes along the edge. */
  predicate Along(pulls: seq<PullStep>, k: nat, e: (PeerId, PeerId))
    requires 0 < k <= |pulls|
  {
    pulls[k - 1].puller == e.0 && pulls[k - 1].server == e.1
  }

  /** The pulls after `first` up to `last` use every edge of the graph at least once. */
  ghost predicate IsRound(pulls: seq<PullStep>, graph: Graph, first: nat, last: nat)
    requires first <= last <= |pulls|
  {
    forall e :: e in graph ==> exists k: nat :: first < k <= last && Along(pulls, k, e)
  }

  /** `ends` cuts the pulls into rounds: round `r` is from `ends[r - 1]` to `ends[r]`. */
  ghost predicate AreRounds(pulls: seq<PullStep>, graph: Graph, ends: seq<nat>) {
    && |ends| >= 1 && ends[0] == 0
    && (forall r :: 0 <= r < |ends| ==> ends[r] <= |pulls|)
    && (forall r: nat :: 0 < r < |ends| ==> RoundAt(pulls, graph, ends, r))
  }

  ghost predicate RoundAt(pulls: seq<PullStep>, graph: Graph, ends: seq<nat>, r: nat)
    requires 0 < r < |ends| && forall r :: 0 <= r < |ends| ==> ends[r] <= |pulls|
  {
    ends[r - 1] <= ends[r] && IsRound(pulls, graph, ends[r - 1], ends[r])
  }

  lemma PullLifts(truth: Truth, nets: seq<Net>, pulls: seq<PullStep>, k: nat, e: (PeerId, PeerId))
    requires Plays(nets, pulls) && Settled(truth, nets[0]) && 0 < k < |nets| && Along(pulls, k, e)
    ensures e.1 in nets[k - 1] && e.0 in nets[k] && Grows(nets[k - 1][e.1], nets[k][e.0])
  {
    assert PullAt(nets, pulls, k);
    PlayKeeps(truth, nets, pulls, k - 1);
    PullKeeps(truth, nets[k - 1], pulls[k - 1]);
  }

  /** One round carries every peer past what each of its neighbours had when the round began. */
  lemma RoundSpreads(truth: Truth, nets: seq<Net>, pulls: seq<PullStep>, graph: Graph, first: nat, last: nat,
                     e: (PeerId, PeerId))
    requires Plays(nets, pulls) && Settled(truth, nets[0]) && first <= last < |nets|
    requires IsRound(pulls, graph, first, last) && e in graph
    ensures e.0 in nets[last] && e.1 in nets[first] && Grows(nets[first][e.1], nets[last][e.0])
  {
    var k: nat :| first < k <= last && Along(pulls, k, e);
    PullLifts(truth, nets, pulls, k, e);
    PlayGrows(truth, nets, pulls, first, k - 1);
    PlayGrows(truth, nets, pulls, k, last);
    GrowsTransitive(nets[first][e.1], nets[k - 1][e.1], nets[k][e.0]);
    GrowsTransitive(nets[first][e.1], nets[k][e.0], nets[last][e.0]);
  }

  /** Each peer on the path pulls from the one before it. */
  ghost predicate IsPath(graph: Graph, path: seq<PeerId>) {
    |path| >= 1 && forall i: nat :: 0 < i < |path| ==> (path[i], path[i - 1]) in graph
  }

  /** After `r` rounds every peer dominates what each peer within distance `r` had at the start. */
  lemma {:induction false} GossipReaches(
      truth: Truth, nets: seq<Net>, pulls: seq<PullStep>, graph: Graph, ends: seq<nat>, r: nat, path: seq<PeerId>)
    requires Plays(nets, pulls) && Settled(truth, nets[0]) && AreRounds(pulls, graph, ends) && r < |ends|
    requires IsPath(graph, path) && |path| - 1 <= r && path[0] in nets[0]
    ensures var n := path[|path| - 1];
      n in nets[ends[r]] && Grows(nets[0][path[0]], nets[ends[r]][n])
    decreases r
  {
    var k := |path| - 1;
    if k == 0 {
      PlayGrows(truth, nets, pulls, 0, ends[r]);
    } else {
      assert RoundAt(pulls, graph, ends, r);
      var front := path[..k];
      assert forall i: nat :: 0 < i < |front| ==> front[i] == path[i];
      GossipReaches(truth, nets, pulls, graph, ends, r - 1, front);
      assert (path[k], path[k - 1]) in graph;
      RoundSpreads(truth, nets, pulls, graph, ends[r - 1], ends[r], (path[k], path[k - 1]));
      GrowsTransitive(nets[0][path[0]], nets[ends[r - 1]][path[k - 1]], nets[ends[r]][path[k]]);
    }
  }

  /** Every two peers are joined by a path of at most `d` edges. */
  ghost predicate Diameter(graph: Graph, peers: set<PeerId>, d: nat) {
    forall n, m :: n in peers && m in peers ==> Within(graph, n, m, d)
  }

  ghost predicate Within(graph: Graph, n: PeerId, m: PeerId, d: nat) {
    exists path :: IsPath(graph, path) && |path| - 1 <= d && path[0] == m && path[|path| - 1] == n
  }

  /** After diameter-many rounds all peers have the same cursors and show the same records. */
  lemma GossipConverges(
      truth: Truth, nets: seq<Net>, pulls: seq<PullStep>, graph: Graph, ends: seq<nat>, n: PeerId, m: PeerId, key: Key)
    requires Plays(nets, pulls) && Settled(truth, nets[0]) && AreRounds(pulls, graph, ends)
    requires Diameter(graph, nets[0].Keys, |ends| - 1) && n in nets[0] && m in nets[0]
    ensures var net := nets[ends[|ends| - 1]];
      && n in net && m in net
      && (forall o: PeerId :: Cursor(net[n].log, o) == Cursor(net[m].log, o))
      && Visible(net[n].cells, key) == Visible(net[m].cells, key)
  {
    var last := ends[|ends| - 1];
    PlayGrows(truth, nets, pulls, 0, last);
    PlayKeeps(truth, nets, pulls, last);
    forall o: PeerId ensures Cursor(nets[last][n].log, o) == Cursor(nets[last][m].log, o) {
      OneDominates(truth, nets, pulls, graph, ends, n, m, o);
      OneDominates(truth, nets, pulls, graph, ends, m, n, o);
    }
    FaithfulPeersAgree(truth, nets[last][n], nets[last][m], key);
  }

  lemma OneDominates(
      truth: Truth, nets: seq<Net>, pulls: seq<PullStep>, graph: Graph, ends: seq<nat>, n: PeerId, m: PeerId, o: PeerId)
    requires Plays(nets, pulls) && Settled(truth, nets[0]) && AreRounds(pulls, graph, ends)
    requires Diameter(graph, nets[0].Keys, |ends| - 1) && n in nets[0] && m in nets[0]
    requires n in nets[ends[|ends| - 1]] && m in nets[ends[|ends| - 1]]
    ensures var net := nets[ends[|ends| - 1]]; Cursor(net[n].log, o) <= Cursor(net[m].log, o)
  {
    var last := ends[|ends| - 1];
    var source := CursorHasSource(truth, nets, pulls, last, n, o);
    assert Within(graph, m, source, |ends| - 1);
    var path :| IsPath(graph, path) && |path| - 1 <= |ends| - 1 && path[0] == source && path[|path| - 1] == m;
    GossipReaches(truth, nets, pulls, graph, ends, |ends| - 1, path);
    assert Cursor(nets[0][source].log, o) <= Cursor(nets[last][m].log, o);
  }

  /** Every world of a run with full member lists is settled, so gossip can start from any of them. */
  lemma RunIsSettled(run: seq<World>, steps: seq<Step>, i: nat)
    requires IsRun(run, steps) && i < |run| && FullLists(run[0], steps, i)
    ensures Settled(run[i].truth, run[i].peers)
  {
    RunHolds(run, steps, i);
    ReclaimNeverStrands(run, steps, i);
    forall n | n in run[i].peers ensures Faithful(run[i].truth, run[i].peers[n]) {
      assert Sound(run[i].truth, n, run[i].peers[n], run[i].seen[n]);
    }
  }
}
