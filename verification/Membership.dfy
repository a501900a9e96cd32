/** Who may write: membership records, the reads they filter, and the proofs peers present. */
module Membership {
  import opened Bytes
  import opened Text
  import opened Clock
  import opened Wire
  import opened Lww
  import opened ReplLog
  import opened Authority
  import opened RecordIds
  import opened Runs
  import opened Convergence
  import opened Sync
  import opened Events
  import opened Endings

  /** The reserved entity `_members`. */
  function MembersEntity(): Text {
    AsciiIsText([0x5F, 0x6D, 0x65, 0x6D, 0x62, 0x65, 0x72, 0x73]);
    [0x5F, 0x6D, 0x65, 0x6D, 0x62, 0x65, 0x72, 0x73]
  }

  function MemberKey(id: Text): Key {
    Key(MembersEntity(), id)
  }

  function RoleOf(data: seq<byte>): Option<Role> {
    if data == [] then None
    else if data[0] == 0 then Some(Owner)
    else if data[0] == 1 then Some(Admin)
    else if data[0] == 2 then Some(Member)
    else None
  }

  /** The grant a record makes, if it is shown, its id names a peer and its first byte a role. */
  function GrantIn(id: Text, shown: Option<(seq<byte>, PeerId)>): Option<Grant> {
    if shown.None? || !ParseId(id).Peer? || RoleOf(shown.value.0).None? then None
    else Some(Grant(ParseId(id).bytes, shown.value.1, RoleOf(shown.value.0).value))
  }

  function GrantAt(cells: Cells, id: Text): Option<Grant> {
    GrantIn(id, Visible(cells, MemberKey(id)))
  }

  function Grants(cells: Cells): set<Grant> {
    set key | key in cells && key.entity == MembersEntity() && GrantAt(cells, key.id).Some?
      :: GrantAt(cells, key.id).value
  }

  lemma GrantsAt(cells: Cells, g: Grant)
    ensures g in Grants(cells) <==> exists id :: GrantAt(cells, id) == Some(g)
  {
    if id :| GrantAt(cells, id) == Some(g) {
      assert MemberKey(id) in cells && MemberKey(id).id == id;
    }
  }

  lemma EntityName()
    ensures MembersEntity() == OfAscii("_members")
  {
    var name := "_members";
    assert OfAscii(name)[0] == 0x5F && OfAscii(name)[1] == 0x6D && OfAscii(name)[2] == 0x65 && OfAscii(name)[3] == 0x6D;
    assert OfAscii(name)[4] == 0x62 && OfAscii(name)[5] == 0x65 && OfAscii(name)[6] == 0x72 && OfAscii(name)[7] == 0x73;
  }

  /** What a shown record under a peer's own id grants: its first byte names the role, its author is the granter. */
  lemma RecordGrants(cells: Cells, peer: PeerId, data: seq<byte>, author: PeerId)
    requires Visible(cells, Key(OfAsciiText("_members"), RecordId(peer))) == Some((data, author))
    ensures GrantAt(cells, RecordId(peer)) ==
      if data == [] then None
      else if data[0] == 0 then Some(Grant(peer, author, Owner))
      else if data[0] == 1 then Some(Grant(peer, author, Admin))
      else if data[0] == 2 then Some(Grant(peer, author, Member))
      else None
  {
    EntityName();
    RecordIdRoundTrip(peer);
  }

  function OfAsciiText(s: string): Text
    requires forall i :: 0 <= i < |s| ==> s[i] < '\U{80}'
  {
    AsciiIsText(OfAscii(s));
    OfAscii(s)
  }

  /** No shown record makes the reader panic. */
  ghost predicate Readable(cells: Cells) {
    forall id: Text :: Visible(cells, MemberKey(id)).Some? ==> !ParseId(id).Panics?
  }

  /** Every grant sits under its target's own record id, as invitations write it. */
  ghost predicate Canonical(cells: Cells) {
    forall id: Text :: GrantAt(cells, id).Some? ==> id == RecordId(GrantAt(cells, id).value.target)
  }

  /** The same visible records make the same grants. */
  lemma SameRecordsSameGrants(a: Cells, b: Cells)
    requires forall key :: Visible(a, key) == Visible(b, key)
    ensures Grants(a) == Grants(b)
  {
    forall g ensures g in Grants(a) <==> g in Grants(b) {
      GrantsAt(a, g);
      GrantsAt(b, g);
      assert forall id :: GrantAt(a, id) == GrantAt(b, id);
    }
  }

  lemma CanonicalTarget(cells: Cells, g: Grant)
    requires Canonical(cells)
    ensures g in Grants(cells) <==> GrantAt(cells, RecordId(g.target)) == Some(g)
  {
    GrantsAt(cells, g);
  }

  /** With canonical ids a target has one record, so the authorization loop always ends. */
  lemma CanonicalRootsAgree(owner: PeerId, cells: Cells)
    requires Canonical(cells)
    ensures RootsAgree(owner, Grants(cells))
  {
    forall g, h | Rooted(owner, Grants(cells), g) && Rooted(owner, Grants(cells), h) && g.target == h.target
      ensures g.role == h.role
    {
      RootedIsGrant(owner, Grants(cells), g);
      RootedIsGrant(owner, Grants(cells), h);
      CanonicalTarget(cells, g);
      CanonicalTarget(cells, h);
    }
  }

  lemma RootedIsGrant(owner: PeerId, grants: set<Grant>, g: Grant)
    requires Rooted(owner, grants, g)
    ensures g in grants
  {
    var chain :| IsChain(owner, grants, chain) && chain[|chain| - 1] == g;
    assert chain[|chain| - 1] in grants;
  }

  /** Ids are not unique without that: a plus sign reads like a leading zero. */
  lemma TwoSpellings(peer: PeerId)
    requires peer[0] < 16
    ensures var other := [0x2B] + RecordId(peer)[1..];
      Ascii(other) && ValidUtf8(other) && other != RecordId(peer) && ParseId(other) == Peer(peer)
  {
    var other := [0x2B] + RecordId(peer)[1..];
    AsciiIsText(other);
    RecordIdRoundTrip(peer);
    HexPair(peer, 0);
    DigitRoundTrip(0);
    DigitRoundTrip(peer[0]);
    SamePairs(RecordId(peer), other, |other| / 2);
  }

  lemma {:induction false} SamePairs(a: seq<byte>, b: seq<byte>, n: nat)
    requires |a| == |b| && 0 < n && 2 * n <= |a| && a[1..] == b[1..] && Ascii(a) && Ascii(b)
    requires PairValue(a[0], a[1]) == PairValue(b[0], b[1])
    ensures ParsePairs(a, n) == ParsePairs(b, n)
  {
    assert a[1] == a[1..][0] && b[1] == b[1..][0];
    if n == 1 {
      assert ParsePairs(a, 0) == ParsePairs(b, 0);
    } else {
      SamePairs(a, b, n - 1);
      assert a[2 * n - 2] == a[1..][2 * n - 3] && b[2 * n - 2] == b[1..][2 * n - 3];
      assert a[2 * n - 1] == a[1..][2 * n - 2] && b[2 * n - 1] == b[1..][2 * n - 2];
    }
  }

  // ---- filtered reads ----------------------------------------------------

  /** How asking whether `p` is a member ends: a shown id may panic, and conflicting grants never settle. */
  ghost function Judged(owner: PeerId, cells: Cells, p: PeerId): Ending<bool> {
    if !Readable(cells) then Panicked
    else if !RootsAgree(owner, Grants(cells)) then NeverReturns
    else Returned(IsMember(owner, Grants(cells), p))
  }

  /** How a filtered read ends; membership is looked at only for a record that is visible. */
  ghost function ReadEnding<V>(owner: Option<PeerId>, cells: Cells, key: Key, parse: seq<byte> -> Option<V>)
    : Ending<Option<V>>
  {
    var shown := Visible(cells, key);
    if shown.None? then Returned(None)
    else if owner.None? then Returned(parse(shown.value.0))
    else
      match Judged(owner.value, cells, shown.value.1)
      case Panicked => Panicked
      case NeverReturns => NeverReturns
      case Returned(member) => Returned(if member then parse(shown.value.0) else None)
  }

  lemma SameRecordsSameReading(a: Cells, b: Cells)
    requires forall key :: Visible(a, key) == Visible(b, key)
    ensures Readable(a) <==> Readable(b)
  {
    assert forall id: Text :: Visible(a, MemberKey(id)) == Visible(b, MemberKey(id));
  }

  lemma SameRecordsSameJudgement(owner: PeerId, a: Cells, b: Cells, p: PeerId)
    requires forall key :: Visible(a, key) == Visible(b, key)
    ensures Judged(owner, a, p) == Judged(owner, b, p)
  {
    SameRecordsSameGrants(a, b);
    SameRecordsSameReading(a, b);
  }

  lemma SameRecordsSameReads<V>(owner: Option<PeerId>, a: Cells, b: Cells, key: Key, parse: seq<byte> -> Option<V>)
    requires forall key :: Visible(a, key) == Visible(b, key)
    ensures ReadEnding(owner, a, key, parse) == ReadEnding(owner, b, key, parse)
  {
    if owner.Some? && Visible(a, key).Some? {
      SameRecordsSameJudgement(owner.value, a, b, Visible(a, key).value.1);
    }
  }

  /** Two peers of a run with equal cursors and one owner read the same, whichever moments they are read at. */
  lemma FilteredReadsAgree<V>(run: seq<World>, steps: seq<Step>, i: nat, j: nat, n: PeerId, m: PeerId,
                              owner: Option<PeerId>, key: Key, parse: seq<byte> -> Option<V>)
    requires IsRun(run, steps) && i <= j < |run| && n in run[i].peers && m in run[j].peers
    requires forall o: PeerId :: Cursor(run[i].peers[n].log, o) == Cursor(run[j].peers[m].log, o)
    ensures ReadEnding(owner, run[i].peers[n].cells, key, parse) == ReadEnding(owner, run[j].peers[m].cells, key, parse)
  {
    var a, b := run[i].peers[n].cells, run[j].peers[m].cells;
    forall k ensures Visible(a, k) == Visible(b, k) {
      StrongConvergence(run, steps, i, j, n, m, k);
    }
    SameRecordsSameReads(owner, a, b, key, parse);
  }

  /** A visible record reads as its parsed bytes, unless the store has an owner and the author is not a member. */
  lemma ReadsExactly<V>(owner: Option<PeerId>, cells: Cells, key: Key, parse: seq<byte> -> Option<V>, data: seq<byte>,
                        author: PeerId)
    requires Visible(cells, key) == Some((data, author))
    requires owner.Some? ==> Readable(cells) && RootsAgree(owner.value, Grants(cells))
    ensures ReadEnding(owner, cells, key, parse) ==
      Returned(if owner.Some? && !IsMember(owner.value, Grants(cells), author) then None else parse(data))
  {
  }

  lemma OtherKey(cells: Cells, w: Lww.Write, key: Key)
    requires w.key != key
    ensures Visible(Merged(cells, w), key) == Visible(cells, key)
  {
  }

  /** The same membership records make the same grants and are as readable. */
  lemma SameMembers(a: Cells, b: Cells)
    requires forall id: Text :: Visible(a, MemberKey(id)) == Visible(b, MemberKey(id))
    ensures Grants(a) == Grants(b) && (Readable(a) <==> Readable(b))
  {
    forall g ensures g in Grants(a) <==> g in Grants(b) {
      GrantsAt(a, g);
      GrantsAt(b, g);
      assert forall id :: GrantAt(a, id) == GrantAt(b, id);
    }
  }

  /** Records of other entities do not touch membership. */
  lemma OtherEntity(cells: Cells, w: Lww.Write)
    requires w.key.entity != MembersEntity()
    ensures Grants(Merged(cells, w)) == Grants(cells) && (Readable(Merged(cells, w)) <==> Readable(cells))
  {
    var next := Merged(cells, w);
    forall id: Text ensures Visible(next, MemberKey(id)) == Visible(cells, MemberKey(id)) {
      OtherKey(cells, w, MemberKey(id));
    }
    SameMembers(next, cells);
  }

  lemma WriteKeepsMembers(s: State, wall: nat, op: Op, key: Key, data: seq<byte>, sig: Option<Signature>,
                          io: AppendResult)
    requires key.entity != MembersEntity() && Written(s, wall, op, key, data, sig, io).1.Ok?
    ensures var t := Written(s, wall, op, key, data, sig, io).0;
      Grants(t.cells) == Grants(s.cells) && (Readable(t.cells) <==> Readable(s.cells))
  {
    OtherEntity(s.cells, Stamped(NewFrame(s, wall, op, key, data, sig)));
  }

  lemma ReadsBothWays<V>(cells: Cells, key: Key, data: seq<byte>, author: PeerId, owner: PeerId,
                         parse: seq<byte> -> Option<V>)
    requires Visible(cells, key) == Some((data, author)) && Readable(cells) && RootsAgree(owner, Grants(cells))
    ensures ReadEnding(None, cells, key, parse) == Returned(parse(data))
    ensures ReadEnding(Some(owner), cells, key, parse) ==
      Returned(if IsMember(owner, Grants(cells), author) then parse(data) else None)
  {
    ReadsExactly(None, cells, key, parse, data, author);
    ReadsExactly(Some(owner), cells, key, parse, data, author);
  }

  /** What a peer writes it reads back, in a store with an owner exactly when the peer is a member. */
  lemma WrittenIsRead<V>(s: State, wall: nat, op: Op, key: Key, data: seq<byte>, sig: Option<Signature>,
                         io: AppendResult, owner: PeerId, parse: seq<byte> -> Option<V>)
    requires Dominates(s) && !TickOverflows(s.clock, wall) && op != Delete && key.entity != MembersEntity()
    requires Written(s, wall, op, key, data, sig, io).1.Ok? && Readable(s.cells) && RootsAgree(owner, Grants(s.cells))
    ensures var t := Written(s, wall, op, key, data, sig, io).0;
      && ReadEnding(None, t.cells, key, parse) == Returned(parse(data))
      && ReadEnding(Some(owner), t.cells, key, parse) ==
           Returned(if IsMember(owner, Grants(s.cells), s.id) then parse(data) else None)
  {
    var t := Written(s, wall, op, key, data, sig, io).0;
    LocalWriteWins(s, wall, op, key, data, sig, io);
    WriteKeepsMembers(s, wall, op, key, data, sig, io);
    ReadsBothWays(t.cells, key, data, s.id, owner, parse);
  }
}
