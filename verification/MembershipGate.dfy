/** The membership view of a node: authorization, proofs and the reads a store filters with them. */
module MembershipGate {
  import opened Bytes
  import opened Text
  import opened Clock
  import opened Wire
  import opened Lww
  import opened ReplLog
  import opened Collections
  import opened Sync
  import opened Pull
  import opened Authority
  import opened RecordIds
  import opened Membership
  import opened MembershipProof
  import opened Endings
  import Sorting

  /** A membership record with a valid signature. */
  predicate Counts(f: Frame, verify: Auth) {
    f.key.entity == MembersEntity() && verify(f)
  }

  function Counting(verify: Auth): Frame -> bool {
    f => Counts(f, verify)
  }

  /** The presented frames that count. */
  function Verified(presented: seq<Frame>, verify: Auth): seq<Frame> {
    Sorting.Filter(presented, Counting(verify))
  }

  function GrantUnder(cells: Cells, key: Key): Option<Grant> {
    if key.entity == MembersEntity() then GrantAt(cells, key.id) else None
  }

  /** The grants found when the records are visited in this order. */
  function GrantList(cells: Cells, keys: seq<Key>): seq<Grant> {
    if keys == [] then []
    else
      var made := GrantUnder(cells, keys[|keys| - 1]);
      GrantList(cells, keys[..|keys| - 1]) + if made.Some? then [made.value] else []
  }

  lemma {:induction false} GrantIsListed(cells: Cells, keys: seq<Key>, k: nat)
    requires k < |keys| && GrantUnder(cells, keys[k]).Some?
    ensures GrantUnder(cells, keys[k]).value in GrantList(cells, keys)
  {
    if k < |keys| - 1 {
      GrantIsListed(cells, keys[..|keys| - 1], k);
    }
  }

  lemma {:induction false} ListedIsGrant(cells: Cells, keys: seq<Key>, g: Grant) returns (k: nat)
    requires g in GrantList(cells, keys)
    ensures k < |keys| && GrantUnder(cells, keys[k]) == Some(g)
  {
    var front := keys[..|keys| - 1];
    if g in GrantList(cells, front) {
      k := ListedIsGrant(cells, front, g);
    } else {
      k := |keys| - 1;
    }
  }

  lemma GrantFound(cells: Cells, keys: seq<Key>, g: Grant)
    requires Enumerates(keys, cells.Keys) && g in Grants(cells)
    ensures g in GrantList(cells, keys)
  {
    var key :| key in cells && GrantUnder(cells, key) == Some(g);
    var k :| 0 <= k < |keys| && keys[k] == key;
    GrantIsListed(cells, keys, k);
  }

  lemma FoundIsGrant(cells: Cells, keys: seq<Key>, g: Grant)
    requires Enumerates(keys, cells.Keys) && g in GrantList(cells, keys)
    ensures g in Grants(cells)
  {
    var k := ListedIsGrant(cells, keys, g);
    assert keys[k] in cells;
  }

  /** Whatever the order, the same set. */
  lemma ListedGrants(cells: Cells, keys: seq<Key>)
    requires Enumerates(keys, cells.Keys)
    ensures SetOf(GrantList(cells, keys)) == Grants(cells)
  {
    forall g | g in Grants(cells) ensures g in GrantList(cells, keys) {
      GrantFound(cells, keys, g);
    }
    forall g | g in GrantList(cells, keys) ensures g in Grants(cells) {
      FoundIsGrant(cells, keys, g);
    }
  }

  lemma GrantListNext(cells: Cells, keys: seq<Key>, i: nat)
    requires i < |keys|
    ensures var made := GrantUnder(cells, keys[i]);
      GrantList(cells, keys[..i + 1]) == GrantList(cells, keys[..i]) + if made.Some? then [made.value] else []
  {
    PrefixSnoc(keys, i);
  }

  lemma UnreadableKey(cells: Cells, key: Key)
    requires Unreadable(cells, key)
    ensures !Readable(cells)
  {
    assert key == MemberKey(key.id);
  }

  lemma AllKeysRead(cells: Cells, keys: seq<Key>)
    requires Enumerates(keys, cells.Keys) && forall j :: 0 <= j < |keys| ==> !Unreadable(cells, keys[j])
    ensures Readable(cells)
  {
    forall id: Text | Visible(cells, MemberKey(id)).Some? ensures !ParseId(id).Panics? {
      assert MemberKey(id) in cells.Keys;
      var j :| 0 <= j < |keys| && keys[j] == MemberKey(id);
      assert !Unreadable(cells, keys[j]);
    }
  }

  ghost predicate Beaten(newest: map<Text, Frame>, f: Frame) {
    f.key.id in newest && StampAtMost(f.stamp, newest[f.key.id].stamp)
  }

  lemma NewestOfHeld(log: Log, order: seq<PeerId>, frames: seq<Frame>, newest: map<Text, Frame>)
    requires Enumerates(order, log.observed.Keys) && frames == EntityFramesIn(log, MembersEntity(), order)
    requires forall id :: id in newest ==> newest[id] in frames && newest[id].key.id == id
    requires forall f :: f in frames ==> Beaten(newest, f)
    ensures AreNewest(log, newest)
  {
    forall f | HeldMember(log, f) ensures f.key.id in newest && StampAtMost(f.stamp, newest[f.key.id].stamp) {
      var o: PeerId :| f in Held(log, o);
      assert o in log.observed.Keys;
      var i :| 0 <= i < |order| && order[i] == o;
      EntityFramesInHas(log, MembersEntity(), order, f);
      assert Beaten(newest, f);
    }
    forall id | id in newest ensures HeldMember(log, newest[id]) {
      EntityFramesInHas(log, MembersEntity(), order, newest[id]);
    }
  }

  lemma ClimbOne(owner: PeerId, newest: map<Text, Frame>, peer: PeerId, visited: set<Text>, chain: seq<Frame>)
    requires RecordId(peer) !in visited && RecordId(peer) in newest
    ensures var f := newest[RecordId(peer)];
      chain + Walk(owner, newest, peer, visited) ==
      if f.stamp.peer == owner then chain + [f]
      else chain + [f] + Walk(owner, newest, f.stamp.peer, visited + {RecordId(peer)})
  {
  }

  /** A session's queue: frames sent to it, and whether anyone still receives. */
  datatype Outbox = Outbox(open: bool, sent: seq<Frame>)

  /** New frames go to every session; sessions that nobody receives any more are dropped. */
  function FannedOut(sessions: seq<Outbox>, frames: seq<Frame>): seq<Outbox> {
    if frames == [] || sessions == [] then sessions
    else
      var last := sessions[|sessions| - 1];
      var front := FannedOut(sessions[..|sessions| - 1], frames);
      if last.open then front + [last.(sent := last.sent + frames)] else front
  }

  function IsOpen(): Outbox -> bool {
    (o: Outbox) => o.open
  }

  /** Every open session gets all the frames behind what it was sent before; the others are gone. */
  lemma {:induction false} FannedOutExactly(sessions: seq<Outbox>, frames: seq<Frame>)
    requires frames != []
    ensures var kept, after := Sorting.Filter(sessions, IsOpen()), FannedOut(sessions, frames);
      |after| == |kept| && forall i :: 0 <= i < |kept| ==> after[i] == Outbox(true, kept[i].sent + frames)
  {
    if sessions != [] {
      FannedOutExactly(sessions[..|sessions| - 1], frames);
      assert forall o :: o in sessions && IsOpen()(o) ==> o.open;
    }
  }

  /** Exactly the presented membership records with a valid signature count, in the order presented. */
  lemma VerifiedExactly(presented: seq<Frame>, verify: Auth, f: Frame)
    ensures f in Verified(presented, verify) <==>
      f in presented && f.key.entity == OfAscii("_members") && verify(f)
  {
    EntityName();
    Sorting.FilterIn(presented, Counting(verify), f);
  }

  lemma FannedOutNothing(sessions: seq<Outbox>)
    ensures FannedOut(sessions, []) == sessions
  {
  }

  class Gate {
    const state: SyncState
    const owner: PeerId
    var sessions: seq<Outbox>

    constructor (state: SyncState, owner: PeerId)
      ensures this.state == state && this.owner == owner && sessions == []
    {
      this.state, this.owner, sessions := state, owner, [];
    }

    /** State as if `extra` had been merged on top; the node itself is left alone. */
    method Including(extra: seq<Frame>) returns (cells: Cells)
      ensures cells == MergedAll(state.applier.cells, extra)
    {
      var scratch := new Applier();
      scratch.cells := state.applier.cells;
      for i := 0 to |extra|
        invariant scratch.cells == MergedAll(state.applier.cells, extra[..i])
      {
        PrefixSnoc(extra, i);
        var _ := scratch.Merge(Stamped(extra[i]));
      }
      assert extra[..|extra|] == extra;
      cells := scratch.cells;
    }

    /** The grants of the shown records; an id that cuts a character panics. */
    method Records(cells: Cells) returns (r: Ending<seq<Grant>>)
      ensures !r.NeverReturns? && (r.Panicked? <==> !Readable(cells))
      ensures r.Returned? ==> SetOf(r.value) == Grants(cells)
    {
      var records: seq<Grant> := [];
      var keys := Listed(cells.Keys);
      for i := 0 to |keys|
        invariant records == GrantList(cells, keys[..i])
        invariant forall j :: 0 <= j < i ==> !Unreadable(cells, keys[j])
      {
        var made := GrantOf(cells, keys[i]);
        if made.Panicked? {
          UnreadableKey(cells, keys[i]);
          return Panicked;
        }
        GrantListNext(cells, keys, i);
        records := records + if made.value.Some? then [made.value.value] else [];
      }
      assert keys[..|keys|] == keys;
      ListedGrants(cells, keys);
      AllKeysRead(cells, keys);
      return Returned(records);
    }

    method GrantOf(cells: Cells, key: Key) returns (made: Ending<Option<Grant>>)
      ensures made == if Unreadable(cells, key) then Panicked else Returned(GrantUnder(cells, key))
    {
      if key.entity != MembersEntity() || Visible(cells, key).None? {
        return Returned(None);
      }
      assert key == MemberKey(key.id);
      var target := PeerFromRecordId(key.id);
      match target {
        case Panics => return Panicked;
        case NotAPeer => return Returned(None);
        case Peer(_) => return Returned(GrantAt(cells, key.id));
      }
    }

    method AuthorizedWith(extra: seq<Frame>) returns (r: Ending<Roles>)
      ensures IsRuling(owner, MergedAll(state.applier.cells, extra), r)
    {
      var cells := Including(extra);
      var records := Records(cells);
      if records.Panicked? {
        return Panicked;
      }
      r := AuthorizedMembers(owner, records.value);
    }

    method IsMemberNow(peer: PeerId) returns (r: Ending<bool>)
      ensures r == Judged(owner, state.applier.cells, peer)
    {
      r := Decide([], peer);
    }

    method Decide(extra: seq<Frame>, peer: PeerId) returns (r: Ending<bool>)
      ensures r == Judged(owner, MergedAll(state.applier.cells, extra), peer)
    {
      var roles := AuthorizedWith(extra);
      match roles {
        case Panicked => return Panicked;
        case NeverReturns => return NeverReturns;
        case Returned(table) =>
          AuthorityKeys(owner, Grants(MergedAll(state.applier.cells, extra)), table, peer);
          return Returned(peer in table);
      }
    }

    method Newest(frames: seq<Frame>) returns (newest: map<Text, Frame>)
      ensures forall id :: id in newest ==> newest[id] in frames && newest[id].key.id == id
      ensures forall f :: f in frames ==> Beaten(newest, f)
    {
      newest := map[];
      for i := 0 to |frames|
        invariant forall id :: id in newest ==> newest[id] in frames && newest[id].key.id == id
        invariant forall j :: 0 <= j < i ==> Beaten(newest, frames[j])
      {
        var f := frames[i];
        if !(f.key.id in newest && StampAtMost(f.stamp, newest[f.key.id].stamp)) {
          if f.key.id in newest {
            StampTotal(f.stamp, newest[f.key.id].stamp);
          }
          newest := newest[f.key.id := f];
        }
      }
    }

    /** The chain of records from this node up to the owner. */
    method Proof() returns (chain: seq<Frame>, ghost newest: map<Text, Frame>)
      ensures AreNewest(state.log.View(), newest)
      ensures chain == Walk(owner, newest, state.id, {})
    {
      var frames, order := state.log.FramesForEntity(MembersEntity());
      var winners := Newest(frames);
      NewestOfHeld(state.log.View(), order, frames, winners);
      newest := winners;
      chain := Climb(winners, state.id);
    }

    method Climb(newest: map<Text, Frame>, start: PeerId) returns (chain: seq<Frame>)
      ensures chain == Walk(owner, newest, start, {})
    {
      chain := [];
      var visited: set<Text> := {};
      var peer := start;
      var id := MemberRecordId(peer);
      while id !in visited && id in newest
        invariant id == RecordId(peer)
        invariant chain + Walk(owner, newest, peer, visited) == Walk(owner, newest, start, {})
        decreases newest.Keys - visited
      {
        var f := newest[id];
        ClimbOne(owner, newest, peer, visited, chain);
        visited := visited + {id};
        chain := chain + [f];
        if f.stamp.peer == owner {
          return;
        }
        peer := f.stamp.peer;
        id := MemberRecordId(peer);
      }
    }

    /**
     * Admit exactly the peers that the records held plus the verified frames make members. The frames are
     * offered to the log, and to live sessions, only on admission.
     */
    method VerifyProof(key: PeerId, presented: seq<Frame>, verify: Auth, wall: nat, auth: Auth, io: nat -> AppendResult)
      returns (r: Ending<bool>)
      modifies this, state, state.clock, state.log, state.applier
      ensures r == Judged(owner, MergedAll(old(state.applier.cells), Verified(presented, verify)), key)
      ensures r == Returned(true) ==>
        (state.View(), sessions) ==
          NodeAfter(old(state.View()), old(sessions), Verified(presented, verify), wall, auth, io)
      ensures r != Returned(true) ==> state.View() == old(state.View()) && sessions == old(sessions)
    {
      var verified := Checked(presented, verify);
      r := Decide(verified, key);
      if r == Returned(true) {
        var _ := Ingest(verified, wall, auth, io);
      }
    }

    method Checked(presented: seq<Frame>, verify: Auth) returns (verified: seq<Frame>)
      ensures verified == Verified(presented, verify)
    {
      verified := [];
      for i := 0 to |presented|
        invariant verified == Verified(presented[..i], verify)
      {
        PrefixSnoc(presented, i);
        if Counts(presented[i], verify) {
          verified := verified + [presented[i]];
        }
      }
      assert presented[..|presented|] == presented;
    }

    /** Frames go through the received-frame path; those appended go on to the live sessions. */
    method Ingest(frames: seq<Frame>, wall: nat, auth: Auth, io: nat -> AppendResult) returns (n: nat)
      modifies this, state, state.clock, state.log, state.applier
      ensures (state.View(), sessions) == NodeAfter(old(state.View()), old(sessions), frames, wall, auth, io)
      ensures var appended := Ingested(old(state.View()), frames, wall, auth, io).1;
        n == |appended| && Gained(old(state.log.View()), state.log.View(), frames, auth, appended)
    {
      var applied: seq<Frame> := [];
      for i := 0 to |frames|
        invariant (state.View(), applied) == Ingested(old(state.View()), frames[..i], wall, auth, io)
        invariant sessions == old(sessions)
      {
        PrefixSnoc(frames, i);
        var outcome := state.Receive(frames[i], wall, auth(frames[i]), io(i));
        if outcome == Appended {
          applied := applied + [frames[i]];
        }
      }
      assert frames[..|frames|] == frames;
      FannedOutNothing(sessions);
      if applied != [] {
        FanOut(applied);
      }
      n := |applied|;
      IngestedLog(old(state.View()), frames, wall, auth, io);
    }

    method FanOut(frames: seq<Frame>)
      requires frames != []
      modifies this`sessions
      ensures sessions == FannedOut(old(sessions), frames)
    {
      var kept: seq<Outbox> := [];
      for i := 0 to |sessions|
        invariant sessions == old(sessions) && kept == FannedOut(sessions[..i], frames)
      {
        PrefixSnoc(sessions, i);
        if sessions[i].open {
          kept := kept + [sessions[i].(sent := sessions[i].sent + frames)];
        }
      }
      assert sessions[..|sessions|] == sessions;
      sessions := kept;
    }
  }

  /** The record is shown and its id panics when it is read. */
  predicate Unreadable(cells: Cells, key: Key) {
    key.entity == MembersEntity() && Visible(cells, key).Some? && ParseId(key.id).Panics?
  }

  /** How deriving the authorized set ends, and what it is. */
  ghost predicate IsRuling(owner: PeerId, cells: Cells, r: Ending<Roles>) {
    match r
    case Panicked => !Readable(cells)
    case NeverReturns => Readable(cells) && !RootsAgree(owner, Grants(cells))
    case Returned(roles) =>
      Readable(cells) && RootsAgree(owner, Grants(cells)) && IsAuthority(owner, Grants(cells), roles)
  }

  function NodeAfter(s: State, sessions: seq<Outbox>, frames: seq<Frame>, wall: nat, auth: Auth,
                     io: nat -> AppendResult)
    : (State, seq<Outbox>)
  {
    var (t, appended) := Ingested(s, frames, wall, auth, io);
    (t, FannedOut(sessions, appended))
  }

  /** `Store` reads: filtered by the authors' membership when the store has an owner. */
  class FilteredStore {
    const gate: Gate
    const owned: bool

    constructor (gate: Gate, owned: bool)
      ensures this.gate == gate && this.owned == owned
    {
      this.gate, this.owned := gate, owned;
    }

    function Owner(): Option<PeerId> {
      if owned then Some(gate.owner) else None
    }

    method Read<V>(key: Key, parse: seq<byte> -> Option<V>) returns (r: Ending<Option<V>>)
      ensures r == ReadEnding(Owner(), gate.state.applier.cells, key, parse)
    {
      var shown := Visible(gate.state.applier.cells, key);
      if shown.None? {
        return Returned(None);
      }
      if owned {
        var member := gate.IsMemberNow(shown.value.1);
        match member {
          case Panicked => return Panicked;
          case NeverReturns => return NeverReturns;
          case Returned(yes) =>
            if !yes {
              return Returned(None);
            }
        }
      }
      return Returned(parse(shown.value.0));
    }

    /** Every record of an entity that `Read` would show, each once; membership is looked at even if there is none. */
    method Entries<V(==,!new)>(entity: Text, parse: seq<byte> -> Option<V>) returns (r: Ending<seq<(Text, V)>>)
      ensures var cells := gate.state.applier.cells;
        && (r.Panicked? <==> owned && !Readable(cells))
        && (r.NeverReturns? <==> owned && Readable(cells) && !RootsAgree(gate.owner, Grants(cells)))
        && (r.Returned? ==>
              && (forall id, v :: (id, v) in r.value <==>
                    ReadEnding(Owner(), cells, Key(entity, id), parse) == Returned(Some(v)))
              && forall i, j :: 0 <= i < j < |r.value| ==> r.value[i].0 != r.value[j].0)
    {
      var cells := gate.state.applier.cells;
      var roles: Roles := map[];
      if owned {
        var ruling := gate.AuthorizedWith([]);
        match ruling {
          case Panicked => return Panicked;
          case NeverReturns => return NeverReturns;
          case Returned(table) => roles := table;
        }
      }
      forall key ensures ReadEnding(Owner(), cells, key, parse) == Returned(ReadWith(owned, roles, cells, key, parse)) {
        if owned && Visible(cells, key).Some? {
          AuthorityKeys(gate.owner, Grants(cells), roles, Visible(cells, key).value.1);
        }
      }
      var out := Select(entity, cells, roles, parse);
      r := Returned(out);
    }

    method Select<V(==,!new)>(entity: Text, cells: Cells, roles: Roles, parse: seq<byte> -> Option<V>)
      returns (out: seq<(Text, V)>)
      ensures forall id, v :: (id, v) in out <==> ReadWith(owned, roles, cells, Key(entity, id), parse) == Some(v)
      ensures forall i, j :: 0 <= i < j < |out| ==> out[i].0 != out[j].0
    {
      out := [];
      var keys := Listed(cells.Keys);
      for i := 0 to |keys|
        invariant forall e :: e in out ==>
          Key(entity, e.0) in keys[..i] && ReadWith(owned, roles, cells, Key(entity, e.0), parse) == Some(e.1)
        invariant forall j :: 0 <= j < i ==> Listing(entity, cells, roles, keys[j], out, parse)
        invariant forall a, b :: 0 <= a < b < |out| ==> out[a].0 != out[b].0
      {
        var key := keys[i];
        PrefixSnoc(keys, i);
        assert key !in keys[..i];
        if key.entity == entity {
          var shown := ReadWith(owned, roles, cells, key, parse);
          if shown.Some? {
            out := out + [(key.id, shown.value)];
          }
        }
      }
      forall id, v | ReadWith(owned, roles, cells, Key(entity, id), parse) == Some(v) ensures (id, v) in out {
        assert Key(entity, id) in cells.Keys;
        var j :| 0 <= j < |keys| && keys[j] == Key(entity, id);
        assert Listing(entity, cells, roles, keys[j], out, parse);
      }
    }

    ghost predicate Listing<V>(
      entity: Text, cells: Cells, roles: Roles, key: Key, out: seq<(Text, V)>, parse: seq<byte> -> Option<V>)
    {
      var r := ReadWith(owned, roles, cells, key, parse);
      key.entity == entity && r.Some? ==> (key.id, r.value) in out
    }
  }

  function ReadWith<V>(owned: bool, roles: Roles, cells: Cells, key: Key, parse: seq<byte> -> Option<V>): Option<V> {
    var shown := Visible(cells, key);
    if shown.None? || (owned && shown.value.1 !in roles) then None else parse(shown.value.0)
  }
}
