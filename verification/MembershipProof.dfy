/** Membership proofs: the chain a peer presents, and what the receiver makes of it. */
module MembershipProof {
  import opened Bytes
  import opened Text
  import opened Clock
  import opened Wire
  import opened Lww
  import opened ReplLog
  import opened Sync
  import opened Delivery
  import opened Runs
  import opened Convergence
  import opened Authority
  import opened RecordIds
  import opened Membership

  ghost predicate HeldMember(log: Log, f: Frame) {
    f.key.entity == MembersEntity() && exists o: PeerId :: f in Held(log, o)
  }

  /** The held membership frame with the highest stamp, for every record id. */
  ghost predicate AreNewest(log: Log, newest: map<Text, Frame>) {
    && (forall id :: id in newest ==> HeldMember(log, newest[id]) && newest[id].key.id == id)
    && (forall f :: HeldMember(log, f) ==> f.key.id in newest && StampAtMost(f.stamp, newest[f.key.id].stamp))
  }

  /** From a peer's own record up through its granters, until the owner, a missing record or a repeat. */
  function Walk(owner: PeerId, newest: map<Text, Frame>, peer: PeerId, visited: set<Text>): seq<Frame>
    decreases newest.Keys - visited
  {
    var id := RecordId(peer);
    if id in visited || id !in newest then []
    else if newest[id].stamp.peer == owner then [newest[id]]
    else [newest[id]] + Walk(owner, newest, newest[id].stamp.peer, visited + {id})
  }

  /** The id looked up for position `i` of a walk from `peer`: that of the author of the frame before. */
  function Sought(peer: PeerId, walk: seq<Frame>, i: nat): Text
    requires i <= |walk|
  {
    RecordId(if i == 0 then peer else walk[i - 1].stamp.peer)
  }

  /** Why a walk stops: at the owner, at a record that is missing, or at one it has passed. */
  ghost predicate StopsAt(owner: PeerId, newest: map<Text, Frame>, peer: PeerId, visited: set<Text>, walk: seq<Frame>) {
    || (walk != [] && walk[|walk| - 1].stamp.peer == owner)
    || Sought(peer, walk, |walk|) !in newest
    || Sought(peer, walk, |walk|) in visited
    || exists i :: 0 <= i < |walk| && walk[i] == newest[Sought(peer, walk, |walk|)]
  }

  /** Each frame is the newest record of the author of the one before; only the last can be the owner's. */
  ghost predicate Climbs(owner: PeerId, newest: map<Text, Frame>, peer: PeerId, walk: seq<Frame>) {
    forall i :: 0 <= i < |walk| ==>
      && Sought(peer, walk, i) in newest && walk[i] == newest[Sought(peer, walk, i)]
      && (walk[i].stamp.peer == owner ==> i == |walk| - 1)
  }

  lemma {:induction false} WalkClimbs(owner: PeerId, newest: map<Text, Frame>, peer: PeerId, visited: set<Text>)
    ensures Climbs(owner, newest, peer, Walk(owner, newest, peer, visited))
    decreases newest.Keys - visited
  {
    var id := RecordId(peer);
    if id !in visited && id in newest && newest[id].stamp.peer != owner {
      var rest := Walk(owner, newest, newest[id].stamp.peer, visited + {id});
      WalkClimbs(owner, newest, newest[id].stamp.peer, visited + {id});
      ClimbsCons(owner, newest, peer, [newest[id]] + rest, rest);
    }
  }

  lemma {:induction false} WalkStops(owner: PeerId, newest: map<Text, Frame>, peer: PeerId, visited: set<Text>)
    ensures StopsAt(owner, newest, peer, visited, Walk(owner, newest, peer, visited))
    decreases newest.Keys - visited
  {
    var id := RecordId(peer);
    if id !in visited && id in newest && newest[id].stamp.peer != owner {
      var rest := Walk(owner, newest, newest[id].stamp.peer, visited + {id});
      WalkStops(owner, newest, newest[id].stamp.peer, visited + {id});
      StopsCons(owner, newest, peer, visited, [newest[id]] + rest, rest);
    }
  }

  lemma StopsCons(owner: PeerId, newest: map<Text, Frame>, peer: PeerId, visited: set<Text>, walk: seq<Frame>,
                  rest: seq<Frame>)
    requires RecordId(peer) in newest && walk == [newest[RecordId(peer)]] + rest
    requires StopsAt(owner, newest, newest[RecordId(peer)].stamp.peer, visited + {RecordId(peer)}, rest)
    ensures StopsAt(owner, newest, peer, visited, walk)
  {
    var next := newest[RecordId(peer)].stamp.peer;
    var sought := Sought(next, rest, |rest|);
    assert Sought(peer, walk, |walk|) == sought;
    assert rest != [] ==> walk[|walk| - 1] == rest[|rest| - 1];
    if sought in newest {
      if sought == RecordId(peer) {
        assert walk[0] == newest[sought];
      }
      if i :| 0 <= i < |rest| && rest[i] == newest[sought] {
        assert walk[i + 1] == rest[i];
      }
    }
  }

  /** What a membership proof is: a climb that goes as far as it can. */
  lemma WalkExactly(owner: PeerId, newest: map<Text, Frame>, peer: PeerId)
    ensures var walk := Walk(owner, newest, peer, {});
      Climbs(owner, newest, peer, walk) && StopsAt(owner, newest, peer, {}, walk)
  {
    WalkClimbs(owner, newest, peer, {});
    WalkStops(owner, newest, peer, {});
  }

  lemma ClimbsCons(owner: PeerId, newest: map<Text, Frame>, peer: PeerId, walk: seq<Frame>, rest: seq<Frame>)
    requires RecordId(peer) in newest && walk == [newest[RecordId(peer)]] + rest
    requires newest[RecordId(peer)].stamp.peer != owner
    requires Climbs(owner, newest, newest[RecordId(peer)].stamp.peer, rest)
    ensures Climbs(owner, newest, peer, walk)
  {
    var next := newest[RecordId(peer)].stamp.peer;
    forall i | 0 <= i < |walk|
      ensures Sought(peer, walk, i) in newest && walk[i] == newest[Sought(peer, walk, i)]
      ensures walk[i].stamp.peer == owner ==> i == |walk| - 1
    {
      if i > 0 {
        assert walk[i] == rest[i - 1] && Sought(peer, walk, i) == Sought(next, rest, i - 1);
      }
    }
  }

  // ---- completeness ------------------------------------------------------

  /** Every delivered membership frame is still in the log. */
  ghost predicate Unreclaimed(truth: Truth, log: Log) {
    forall f :: Got(truth, log, f) && f.key.entity == MembersEntity() ==> f in Held(log, f.stamp.peer)
  }

  /** The frame makes this grant. */
  ghost predicate Makes(f: Frame, g: Grant) {
    && f.key == MemberKey(RecordId(g.target)) && f.op != Delete
    && f.stamp.peer == g.granter && RoleOf(f.data) == Some(g.role)
  }

  lemma HeldIsGot(truth: Truth, log: Log, o: PeerId, f: Frame)
    requires TruthOk(truth) && LogOk(truth, log) && f in Held(log, o)
    ensures Got(truth, log, f)
  {
    assert HoldsSlice(truth, log, o);
    var i :| 0 <= i < |Held(log, o)| && Held(log, o)[i] == f;
    assert f == Of(truth, o)[Base(log, o) + i];
  }

  /** The newest frame of a record is the one its cell shows. */
  lemma NewestIsShown(truth: Truth, s: State, newest: map<Text, Frame>, g: Grant)
    requires TruthOk(truth) && Faithful(truth, s) && Unreclaimed(truth, s.log) && AreNewest(s.log, newest)
    requires Canonical(s.cells) && g in Grants(s.cells)
    ensures var id := RecordId(g.target);
      id in newest && Makes(newest[id], g) && IsWinner(truth, s.log, MemberKey(id), newest[id])
  {
    CanonicalTarget(s.cells, g);
    var id := RecordId(g.target);
    var key := MemberKey(id);
    assert CellOk(truth, s.log, key, CellAt(s.cells, key));
    var w :| IsWinner(truth, s.log, key, w) && Reflects(CellAt(s.cells, key), w);
    assert HeldMember(s.log, w);
    var f := newest[id];
    var o: PeerId :| f in Held(s.log, o);
    HeldIsGot(truth, s.log, o, f);
    assert StampAtMost(f.stamp, w.stamp) && StampAtMost(w.stamp, f.stamp);
    StampTotal(f.stamp, w.stamp);
    StampsDistinct(truth, f, w);
    RecordIdRoundTrip(g.target);
  }

  ghost predicate DistinctTargets(chain: seq<Grant>) {
    forall i, j :: 0 <= i < j < |chain| ==> chain[i].target != chain[j].target
  }

  /** With one grant per target, a chain can be cut down to one that names no peer twice. */
  lemma {:induction false} ShortChain(owner: PeerId, grants: set<Grant>, chain: seq<Grant>) returns (short: seq<Grant>)
    requires IsChain(owner, grants, chain)
    requires forall g, h :: g in grants && h in grants && g.target == h.target ==> g == h
    ensures IsChain(owner, grants, short) && DistinctTargets(short) && short[|short| - 1] == chain[|chain| - 1]
    decreases |chain|
  {
    if DistinctTargets(chain) {
      short := chain;
    } else {
      var i, j :| 0 <= i < j < |chain| && chain[i].target == chain[j].target;
      var cut := chain[..i + 1] + chain[j + 1..];
      assert chain[i] in grants && chain[j] in grants;
      CutIsChain(owner, grants, chain, i, j);
      short := ShortChain(owner, grants, cut);
    }
  }

  lemma CutIsChain(owner: PeerId, grants: set<Grant>, chain: seq<Grant>, i: nat, j: nat)
    requires IsChain(owner, grants, chain) && i < j < |chain| && chain[i] == chain[j]
    ensures var cut := chain[..i + 1] + chain[j + 1..];
      IsChain(owner, grants, cut) && cut[|cut| - 1] == chain[|chain| - 1]
  {
    var cut := chain[..i + 1] + chain[j + 1..];
    forall k | 0 < k < |cut| ensures Linked(cut[k - 1], cut[k]) {
      if k <= i {
        assert Linked(chain[k - 1], chain[k]);
      } else {
        assert Linked(chain[k + j - i - 1], chain[k + j - i]);
      }
    }
  }

  ghost predicate MakesAll(frames: seq<Frame>, chain: seq<Grant>) {
    |frames| == |chain| && forall k :: 0 <= k < |chain| ==> MakesAt(frames, chain, k)
  }

  /** Frames run from the end of the chain to its start. */
  ghost predicate MakesAt(frames: seq<Frame>, chain: seq<Grant>, k: nat)
    requires k < |chain| == |frames|
  {
    Makes(frames[k], chain[|chain| - 1 - k])
  }

  lemma MakesAllSnoc(frames: seq<Frame>, chain: seq<Grant>, f: Frame, g: Grant)
    requires MakesAll(frames, chain) && Makes(f, g)
    ensures MakesAll([f] + frames, chain + [g])
  {
    var fs, gs := [f] + frames, chain + [g];
    forall k | 0 <= k < |gs| ensures MakesAt(fs, gs, k) {
      MakesOneMore(frames, chain, f, g, fs, gs, k);
    }
  }

  lemma MakesOneMore(frames: seq<Frame>, chain: seq<Grant>, f: Frame, g: Grant, fs: seq<Frame>, gs: seq<Grant>, k: nat)
    requires |frames| == |chain| && fs == [f] + frames && gs == chain + [g] && k < |gs|
    requires if k == 0 then Makes(f, g) else MakesAt(frames, chain, k - 1)
    ensures MakesAt(fs, gs, k)
  {
    BothEnds(f, frames, chain, g, k);
  }

  /** Growing one list in front and the other behind keeps their opposite positions together. */
  lemma BothEnds<T, U>(f: T, frames: seq<T>, chain: seq<U>, g: U, k: nat)
    requires |frames| == |chain| && k <= |chain|
    ensures ([f] + frames)[k] == if k == 0 then f else frames[k - 1]
    ensures (chain + [g])[|chain| - k] == if k == 0 then g else chain[|chain| - k]
  {
  }

  /** The newest frame under the target's record id makes the grant. */
  ghost predicate Written(newest: map<Text, Frame>, g: Grant) {
    RecordId(g.target) in newest && Makes(newest[RecordId(g.target)], g)
  }

  lemma ChainFront(owner: PeerId, grants: set<Grant>, chain: seq<Grant>)
    requires IsChain(owner, grants, chain) && |chain| > 1 && DistinctTargets(chain)
    ensures var front := chain[..|chain| - 1];
      IsChain(owner, grants, front) && DistinctTargets(front) && front[|front| - 1].target == chain[|chain| - 1].granter
  {
    assert Linked(chain[|chain| - 2], chain[|chain| - 1]);
    forall i | 0 < i < |chain| - 1 ensures Linked(chain[i - 1], chain[i]) {
    }
  }

  ghost predicate Unvisited(chain: seq<Grant>, visited: set<Text>) {
    forall k :: 0 <= k < |chain| ==> RecordId(chain[k].target) !in visited
  }

  lemma FrontUnvisited(chain: seq<Grant>, visited: set<Text>)
    requires |chain| > 0 && DistinctTargets(chain) && Unvisited(chain, visited)
    ensures Unvisited(chain[..|chain| - 1], visited + {RecordId(chain[|chain| - 1].target)})
  {
    var last := chain[|chain| - 1].target;
    forall k | 0 <= k < |chain| - 1 ensures RecordId(chain[k].target) != RecordId(last) {
      if RecordId(chain[k].target) == RecordId(last) {
        RecordIdInjective(chain[k].target, last);
      }
    }
  }

  lemma WalkOne(owner: PeerId, newest: map<Text, Frame>, g: Grant, visited: set<Text>)
    requires Written(newest, g) && RecordId(g.target) !in visited
    ensures var id := RecordId(g.target);
      Walk(owner, newest, g.target, visited) ==
      [newest[id]] + if g.granter == owner then [] else Walk(owner, newest, g.granter, visited + {id})
  {
  }

  /** Walking up from the last target retraces the chain. */
  lemma {:induction false} WalkRetraces(owner: PeerId, grants: set<Grant>, newest: map<Text, Frame>, chain: seq<Grant>,
                                        visited: set<Text>)
    requires IsChain(owner, grants, chain) && DistinctTargets(chain) && Unvisited(chain, visited)
    requires forall g :: g in grants ==> Written(newest, g)
    ensures MakesAll(Walk(owner, newest, chain[|chain| - 1].target, visited), chain)
    decreases |chain|
  {
    var front, g := chain[..|chain| - 1], chain[|chain| - 1];
    var id := RecordId(g.target);
    assert g in grants && Written(newest, g);
    assert front + [g] == chain;
    WalkOne(owner, newest, g, visited);
    if |chain| > 1 {
      ChainFront(owner, grants, chain);
      FrontUnvisited(chain, visited);
      WalkRetraces(owner, grants, newest, front, visited + {id});
      assert front[|front| - 1] in grants && g.granter != owner;
      MakesAllSnoc(Walk(owner, newest, g.granter, visited + {id}), front, newest[id], g);
    } else {
      MakesAllSnoc([], [], newest[id], g);
    }
  }

  ghost predicate DistinctKeys(frames: seq<Frame>) {
    forall i, j :: 0 <= i < j < |frames| ==> frames[i].key != frames[j].key
  }

  /** The receiver's cell has nothing newer than `f`. */
  predicate NothingNewer(cells: Cells, f: Frame) {
    var c := CellAt(cells, f.key);
    Outcome(c, Stamped(f)) == Applied || c.current == Some(Stamped(f))
  }

  lemma {:induction false} UntouchedByMerge(cells: Cells, frames: seq<Frame>, key: Key)
    requires forall f :: f in frames ==> f.key != key
    ensures CellAt(MergedAll(cells, frames), key) == CellAt(cells, key)
  {
    if frames != [] {
      UntouchedByMerge(cells, frames[..|frames| - 1], key);
    }
  }

  /** After merging, every presented record stands as presented. */
  lemma {:induction false} MergeShows(cells: Cells, frames: seq<Frame>, k: nat)
    requires DistinctKeys(frames) && k < |frames| && NothingNewer(cells, frames[k])
    ensures CellAt(MergedAll(cells, frames), frames[k].key).current == Some(Stamped(frames[k]))
  {
    var front, last := frames[..|frames| - 1], frames[|frames| - 1];
    if k == |frames| - 1 {
      UntouchedByMerge(cells, front, last.key);
    } else {
      MergeShows(cells, front, k);
    }
  }

  lemma ProofKeysDistinct(frames: seq<Frame>, chain: seq<Grant>)
    requires MakesAll(frames, chain) && DistinctTargets(chain)
    ensures DistinctKeys(frames)
  {
    forall i, j | 0 <= i < j < |frames| ensures frames[i].key != frames[j].key {
      var a, b := chain[|chain| - 1 - i], chain[|chain| - 1 - j];
      assert MakesAt(frames, chain, i) && MakesAt(frames, chain, j);
      if frames[i].key == frames[j].key {
        RecordIdInjective(a.target, b.target);
      }
    }
  }

  lemma LinkArrives(cells: Cells, frames: seq<Frame>, i: nat, g: Grant)
    requires DistinctKeys(frames) && i < |frames| && NothingNewer(cells, frames[i]) && Makes(frames[i], g)
    ensures g in Grants(MergedAll(cells, frames))
  {
    var merged := MergedAll(cells, frames);
    MergeShows(cells, frames, i);
    RecordIdRoundTrip(g.target);
    assert GrantAt(merged, RecordId(g.target)) == Some(g);
    GrantsAt(merged, g);
  }

  /** A chain of frames with nothing newer against it is a chain of grants at the receiver. */
  lemma ChainArrives(owner: PeerId, grants: set<Grant>, cells: Cells, frames: seq<Frame>, chain: seq<Grant>)
    requires IsChain(owner, grants, chain) && DistinctTargets(chain) && MakesAll(frames, chain)
    requires forall f :: f in frames ==> NothingNewer(cells, f)
    ensures IsChain(owner, Grants(MergedAll(cells, frames)), chain)
  {
    ProofKeysDistinct(frames, chain);
    var there := Grants(MergedAll(cells, frames));
    forall k | 0 <= k < |chain| ensures chain[k] in there {
      var i := |chain| - 1 - k;
      assert MakesAt(frames, chain, i);
      LinkArrives(cells, frames, i, chain[k]);
    }
    MovedChain(owner, grants, there, chain);
  }

  lemma MovedChain(owner: PeerId, grants: set<Grant>, there: set<Grant>, chain: seq<Grant>)
    requires IsChain(owner, grants, chain) && forall k :: 0 <= k < |chain| ==> chain[k] in there
    ensures IsChain(owner, there, chain)
  {
  }

  /**
   * A member's proof admits it at any receiver that holds nothing newer for the records it presents,
   * whatever else the receiver has or lacks.
   */
  lemma ProofAdmits(truth: Truth, s: State, owner: PeerId, newest: map<Text, Frame>, cells: Cells)
    requires TruthOk(truth) && Faithful(truth, s) && Unreclaimed(truth, s.log) && AreNewest(s.log, newest)
    requires Canonical(s.cells) && IsMember(owner, Grants(s.cells), s.id)
    requires forall f :: f in Walk(owner, newest, s.id, {}) ==> NothingNewer(cells, f)
    ensures IsMember(owner, Grants(MergedAll(cells, Walk(owner, newest, s.id, {}))), s.id)
  {
    if s.id != owner {
      var grants, proof := Grants(s.cells), Walk(owner, newest, s.id, {});
      var chain := MemberChain(truth, s, owner, newest);
      ChainArrives(owner, grants, cells, proof, chain);
      assert Rooted(owner, Grants(MergedAll(cells, proof)), chain[|chain| - 1]);
    }
  }

  lemma OneGrantEach(cells: Cells, g: Grant, h: Grant)
    requires Canonical(cells) && g in Grants(cells) && h in Grants(cells) && g.target == h.target
    ensures g == h
  {
    CanonicalTarget(cells, g);
    CanonicalTarget(cells, h);
  }

  /** The chain that a member's proof retraces. */
  lemma MemberChain(truth: Truth, s: State, owner: PeerId, newest: map<Text, Frame>) returns (chain: seq<Grant>)
    requires TruthOk(truth) && Faithful(truth, s) && Unreclaimed(truth, s.log) && AreNewest(s.log, newest)
    requires Canonical(s.cells) && IsMember(owner, Grants(s.cells), s.id) && s.id != owner
    ensures IsChain(owner, Grants(s.cells), chain) && DistinctTargets(chain) && chain[|chain| - 1].target == s.id
    ensures MakesAll(Walk(owner, newest, s.id, {}), chain)
  {
    var grants := Grants(s.cells);
    forall g | g in grants ensures Written(newest, g) {
      NewestIsShown(truth, s, newest, g);
    }
    forall g, h | g in grants && h in grants && g.target == h.target ensures g == h {
      OneGrantEach(s.cells, g, h);
    }
    var g :| Rooted(owner, grants, g) && g.target == s.id;
    var long :| IsChain(owner, grants, long) && long[|long| - 1] == g;
    chain := ShortChain(owner, grants, long);
    WalkRetraces(owner, grants, newest, chain, {});
  }

  // ---- what a proof cannot do --------------------------------------------

  /** Frames at or below a stamp or a floor already held change nothing that is shown. */
  lemma {:induction false} StaleFramesShowNothing(cells: Cells, frames: seq<Frame>, key: Key)
    requires forall f :: f in frames ==> Outcome(CellAt(cells, f.key), Stamped(f)) != Applied
    ensures CellAt(MergedAll(cells, frames), key) == CellAt(cells, key)
  {
    if frames != [] {
      var last := frames[|frames| - 1];
      StaleFramesShowNothing(cells, frames[..|frames| - 1], key);
      StaleFramesShowNothing(cells, frames[..|frames| - 1], last.key);
    }
  }

  /** A stale proof never changes the decision about anybody, nor whether there is one. */
  lemma StaleProofIsNeutral(owner: PeerId, cells: Cells, frames: seq<Frame>, p: PeerId)
    requires forall f :: f in frames ==> Outcome(CellAt(cells, f.key), Stamped(f)) != Applied
    ensures Judged(owner, MergedAll(cells, frames), p) == Judged(owner, cells, p)
  {
    forall key ensures Visible(MergedAll(cells, frames), key) == Visible(cells, key) {
      StaleFramesShowNothing(cells, frames, key);
    }
    SameRecordsSameJudgement(owner, MergedAll(cells, frames), cells, p);
  }

  /** Whatever has been delivered is stale: replaying an old invitation cannot undo a revocation. */
  lemma DeliveredIsStale(truth: Truth, r: State, f: Frame)
    requires TruthOk(truth) && Faithful(truth, r) && Got(truth, r.log, f)
    ensures Outcome(CellAt(r.cells, f.key), Stamped(f)) != Applied
  {
    assert CellOk(truth, r.log, f.key, CellAt(r.cells, f.key));
    var w :| IsWinner(truth, r.log, f.key, w) && Reflects(CellAt(r.cells, f.key), w);
    assert StampAtMost(f.stamp, w.stamp);
  }

  /** A receiver that has delivered no membership frame the prover lacks holds nothing newer. */
  lemma BehindHoldsNothingNewer(truth: Truth, s: State, r: State, f: Frame)
    requires TruthOk(truth) && Faithful(truth, r) && IsWinner(truth, s.log, f.key, f) && f.op != Delete
    requires forall g :: Got(truth, r.log, g) && g.key == f.key ==> Got(truth, s.log, g)
    ensures NothingNewer(r.cells, f)
  {
    var c := CellAt(r.cells, f.key);
    assert CellOk(truth, r.log, f.key, c);
    if w :| IsWinner(truth, r.log, f.key, w) && Reflects(c, w) {
      assert StampAtMost(w.stamp, f.stamp);
      StampTotal(w.stamp, f.stamp);
      if w.stamp == f.stamp {
        StampsDistinct(truth, w, f);
      }
    }
  }

  lemma {:induction false} WalkIsNewest(owner: PeerId, newest: map<Text, Frame>, peer: PeerId, visited: set<Text>,
                                        f: Frame)
    requires f in Walk(owner, newest, peer, visited)
    ensures f in newest.Values
    decreases newest.Keys - visited
  {
    var id := RecordId(peer);
    if f != newest[id] {
      WalkIsNewest(owner, newest, newest[id].stamp.peer, visited + {id}, f);
    }
  }

  /** Each frame of a member's proof is the winner of its record at the prover. */
  lemma ProofIsWinning(truth: Truth, s: State, newest: map<Text, Frame>, f: Frame, g: Grant)
    requires TruthOk(truth) && Faithful(truth, s) && Unreclaimed(truth, s.log) && AreNewest(s.log, newest)
    requires Canonical(s.cells) && g in Grants(s.cells) && f in newest.Values && Makes(f, g)
    ensures IsWinner(truth, s.log, f.key, f)
  {
    NewestIsShown(truth, s, newest, g);
    var id :| id in newest && newest[id] == f;
    assert newest[id].key.id == id;
  }

  /** `r` has delivered no membership frame that `s` lacks. */
  ghost predicate BehindOnMembers(truth: Truth, r: Log, s: Log) {
    forall g :: Got(truth, r, g) && g.key.entity == MembersEntity() ==> Got(truth, s, g)
  }

  lemma BehindAccepts(truth: Truth, s: State, r: State, newest: map<Text, Frame>, f: Frame, g: Grant)
    requires TruthOk(truth) && Faithful(truth, s) && Faithful(truth, r)
    requires Unreclaimed(truth, s.log) && AreNewest(s.log, newest) && BehindOnMembers(truth, r.log, s.log)
    requires Canonical(s.cells) && g in Grants(s.cells) && f in newest.Values && Makes(f, g)
    ensures NothingNewer(r.cells, f)
  {
    ProofIsWinning(truth, s, newest, f, g);
    BehindHoldsNothingNewer(truth, s, r, f);
  }

  lemma MadeBy(owner: PeerId, grants: set<Grant>, chain: seq<Grant>, frames: seq<Frame>, f: Frame) returns (g: Grant)
    requires IsChain(owner, grants, chain) && MakesAll(frames, chain) && f in frames
    ensures g in grants && Makes(f, g)
  {
    var k :| 0 <= k < |frames| && frames[k] == f;
    assert MakesAt(frames, chain, k);
    g := chain[|chain| - 1 - k];
  }

  /** So between two faithful peers a member's proof is accepted by anyone who is behind it on membership. */
  lemma ProofAdmitsBehind(truth: Truth, s: State, r: State, owner: PeerId, newest: map<Text, Frame>)
    requires TruthOk(truth) && Faithful(truth, s) && Faithful(truth, r)
    requires Unreclaimed(truth, s.log) && AreNewest(s.log, newest) && BehindOnMembers(truth, r.log, s.log)
    requires Canonical(s.cells) && IsMember(owner, Grants(s.cells), s.id)
    ensures IsMember(owner, Grants(MergedAll(r.cells, Walk(owner, newest, s.id, {}))), s.id)
  {
    if s.id != owner {
      var chain := MemberChain(truth, s, owner, newest);
      var proof := Walk(owner, newest, s.id, {});
      forall f | f in proof ensures NothingNewer(r.cells, f) {
        WalkIsNewest(owner, newest, s.id, {}, f);
        var g := MadeBy(owner, Grants(s.cells), chain, proof, f);
        BehindAccepts(truth, s, r, newest, f, g);
      }
      ProofAdmits(truth, s, owner, newest, r.cells);
    }
  }

  /** In particular between any two peers of a run. */
  lemma ProofAdmitsInRun(run: seq<World>, steps: seq<Step>, i: nat, n: PeerId, m: PeerId, owner: PeerId,
                         newest: map<Text, Frame>)
    requires IsRun(run, steps) && i < |run| && n in run[i].peers && m in run[i].peers
    requires var s, r := run[i].peers[n], run[i].peers[m];
      && Unreclaimed(run[i].truth, s.log) && AreNewest(s.log, newest) && BehindOnMembers(run[i].truth, r.log, s.log)
      && Canonical(s.cells) && IsMember(owner, Grants(s.cells), n)
    ensures IsMember(owner, Grants(MergedAll(run[i].peers[m].cells, Walk(owner, newest, n, {}))), n)
  {
    RunHolds(run, steps, i);
    assert Sound(run[i].truth, n, run[i].peers[n], run[i].seen[n]);
    assert Sound(run[i].truth, m, run[i].peers[m], run[i].seen[m]);
    ProofAdmitsBehind(run[i].truth, run[i].peers[n], run[i].peers[m], owner, newest);
  }
}
