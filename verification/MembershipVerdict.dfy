/** What verifying a presented proof comes to, for every set of presented frames. */
module MembershipVerdict {
  import opened Bytes
  import opened Text
  import opened Clock
  import opened Wire
  import opened Lww
  import opened ReplLog
  import opened Pull
  import opened Runs
  import opened Convergence
  import opened Authority
  import opened RecordIds
  import opened Membership
  import opened MembershipProof
  import opened MembershipGate
  import opened Endings
  import Sorting

  // ---- the frame that decides a record -----------------------------------

  /** The first of the frames with the highest stamp for a key. */
  function Top(frames: seq<Frame>, key: Key): Option<Frame> {
    if frames == [] then None
    else
      var top, last := Top(frames[..|frames| - 1], key), frames[|frames| - 1];
      if last.key == key && (top.None? || !StampAtMost(last.stamp, top.value.stamp)) then Some(last) else top
  }

  function DecidedBy(c: Cell, top: Option<Frame>): Cell {
    if top.None? then c else MergeCell(c, Stamped(top.value))
  }

  lemma OlderAddsNothing(c: Cell, top: Frame, f: Frame)
    requires StampAtMost(f.stamp, top.stamp)
    ensures MergeCell(MergeCell(c, Stamped(top)), Stamped(f)) == MergeCell(c, Stamped(top))
  {
  }

  lemma NewerDecides(c: Cell, top: Frame, f: Frame)
    requires !StampAtMost(f.stamp, top.stamp)
    ensures MergeCell(MergeCell(c, Stamped(top)), Stamped(f)) == MergeCell(c, Stamped(f))
  {
    StampTotal(f.stamp, top.stamp);
  }

  /** Merging a list comes to merging the newest frame of each key. */
  lemma {:induction false} MergedIsTop(cells: Cells, frames: seq<Frame>, key: Key)
    ensures CellAt(MergedAll(cells, frames), key) == DecidedBy(CellAt(cells, key), Top(frames, key))
  {
    if frames != [] {
      var front, last := frames[..|frames| - 1], frames[|frames| - 1];
      MergedIsTop(cells, front, key);
      var top := Top(front, key);
      if last.key == key && top.Some? {
        if StampAtMost(last.stamp, top.value.stamp) {
          OlderAddsNothing(CellAt(cells, key), top.value, last);
        } else {
          NewerDecides(CellAt(cells, key), top.value, last);
        }
      }
    }
  }

  lemma {:induction false} TopIsPresented(frames: seq<Frame>, key: Key)
    requires Top(frames, key).Some?
    ensures Top(frames, key).value in frames && Top(frames, key).value.key == key
  {
    var front := frames[..|frames| - 1];
    if Top(frames, key) == Top(front, key) {
      TopIsPresented(front, key);
    }
  }

  // ---- when verifying panics ---------------------------------------------

  /** The frame decides its record, shows it, and the record's id cannot be read. */
  predicate Brings(cells: Cells, frames: seq<Frame>, f: Frame) {
    && f.key.entity == MembersEntity() && ParseId(f.key.id).Panics? && f.op != Delete
    && Top(frames, f.key) == Some(f) && Outcome(CellAt(cells, f.key), Stamped(f)) == Applied
  }

  /** An unreadable id is already shown and no frame replaces its record. */
  predicate Leaves(cells: Cells, frames: seq<Frame>, id: Text) {
    var top := Top(frames, MemberKey(id));
    && ParseId(id).Panics? && Visible(cells, MemberKey(id)).Some?
    && (top.None? || Outcome(CellAt(cells, MemberKey(id)), Stamped(top.value)) != Applied)
  }

  lemma BringsIsShown(cells: Cells, frames: seq<Frame>, f: Frame)
    requires Brings(cells, frames, f)
    ensures !Readable(MergedAll(cells, frames))
  {
    MergedIsTop(cells, frames, f.key);
    assert Visible(MergedAll(cells, frames), MemberKey(f.key.id)).Some?;
  }

  lemma LeavesIsShown(cells: Cells, frames: seq<Frame>, id: Text)
    requires Leaves(cells, frames, id)
    ensures !Readable(MergedAll(cells, frames))
  {
    MergedIsTop(cells, frames, MemberKey(id));
    assert Visible(MergedAll(cells, frames), MemberKey(id)).Some?;
  }

  lemma ShownIsBroughtOrLeft(cells: Cells, frames: seq<Frame>, id: Text)
    requires Visible(MergedAll(cells, frames), MemberKey(id)).Some? && ParseId(id).Panics?
    ensures Leaves(cells, frames, id) || exists f :: f in frames && Brings(cells, frames, f)
  {
    var key := MemberKey(id);
    MergedIsTop(cells, frames, key);
    var top := Top(frames, key);
    if top.Some? && Outcome(CellAt(cells, key), Stamped(top.value)) == Applied {
      TopIsPresented(frames, key);
      assert Brings(cells, frames, top.value);
    }
  }

  /**
   * Verification panics exactly when a verified frame shows a record under an unreadable id, as the newest frame
   * presented for it and newer than what is held, or when such a record is already shown and none replaces it.
   */
  lemma ProofPanicsExactly(owner: PeerId, cells: Cells, presented: seq<Frame>, verify: Auth, p: PeerId)
    ensures var frames := Verified(presented, verify);
      Judged(owner, MergedAll(cells, frames), p).Panicked? <==>
      || (exists f :: f in frames && Brings(cells, frames, f))
      || (exists id: Text :: Leaves(cells, frames, id))
  {
    var frames := Verified(presented, verify);
    if f :| f in frames && Brings(cells, frames, f) {
      BringsIsShown(cells, frames, f);
    }
    if id: Text :| Leaves(cells, frames, id) {
      LeavesIsShown(cells, frames, id);
    }
    if !Readable(MergedAll(cells, frames)) {
      var id: Text :| Visible(MergedAll(cells, frames), MemberKey(id)).Some? && ParseId(id).Panics?;
      ShownIsBroughtOrLeft(cells, frames, id);
    }
  }

  lemma OneFrame(f: Frame)
    ensures Top([f], f.key) == Some(f)
  {
    assert [f][..0] == [];
  }

  /** One verified frame is enough, wherever its record is not yet held. */
  lemma UnreadableFramePanics(owner: PeerId, cells: Cells, f: Frame, verify: Auth, p: PeerId)
    requires ParseId(f.key.id).Panics? && Counts(f, verify) && f.op != Delete && f.key !in cells
    ensures Judged(owner, MergedAll(cells, Verified([f], verify)), p) == Panicked
  {
    AllVerify([f], verify);
    OneFrame(f);
    BringsIsShown(cells, [f], f);
  }

  /** Such frames exist. */
  lemma CutIdStopsVerification(owner: PeerId, cells: Cells, f: Frame, rest: seq<byte>, verify: Auth, p: PeerId)
    requires |rest| == 61 && Ascii(rest) && f.key.id == [0x30, 0xC3, 0xA9] + rest
    requires Counts(f, verify) && f.op != Delete && f.key !in cells
    ensures Judged(owner, MergedAll(cells, Verified([f], verify)), p) == Panicked
  {
    CutIdPanics(rest);
    UnreadableFramePanics(owner, cells, f, verify, p);
  }

  // ---- when it admits -----------------------------------------------------

  lemma AllVerify(frames: seq<Frame>, verify: Auth)
    requires forall f :: f in frames ==> Counts(f, verify)
    ensures Verified(frames, verify) == frames
  {
    Sorting.FilterAll(frames, Counting(verify));
  }

  /** The frame is a membership record under some peer's own id. */
  ghost predicate OwnId(f: Frame) {
    f.key.entity == MembersEntity() && exists q: PeerId :: f.key.id == RecordId(q)
  }

  lemma {:induction false} WalkHasOwnIds(owner: PeerId, log: Log, newest: map<Text, Frame>, peer: PeerId,
                                         visited: set<Text>, f: Frame)
    requires AreNewest(log, newest) && f in Walk(owner, newest, peer, visited)
    ensures OwnId(f)
    decreases newest.Keys - visited
  {
    var id := RecordId(peer);
    if f != newest[id] {
      WalkHasOwnIds(owner, log, newest, newest[id].stamp.peer, visited + {id}, f);
    }
  }

  /** Merging frames under peers' own ids shows no other kind of id. */
  lemma OwnIdsKeep(cells: Cells, frames: seq<Frame>, id: Text)
    requires forall f :: f in frames ==> OwnId(f)
    ensures (exists q: PeerId :: id == RecordId(q)) ||
      CellAt(MergedAll(cells, frames), MemberKey(id)) == CellAt(cells, MemberKey(id))
  {
    if f :| f in frames && f.key == MemberKey(id) {
      assert OwnId(f);
    } else {
      UntouchedByMerge(cells, frames, MemberKey(id));
    }
  }

  lemma OwnIdsStayReadable(cells: Cells, frames: seq<Frame>)
    requires Readable(cells) && forall f :: f in frames ==> OwnId(f)
    ensures Readable(MergedAll(cells, frames))
  {
    forall id: Text | Visible(MergedAll(cells, frames), MemberKey(id)).Some? ensures !ParseId(id).Panics? {
      OwnIdsKeep(cells, frames, id);
      if q: PeerId :| id == RecordId(q) {
        RecordIdRoundTrip(q);
      } else {
        assert Visible(cells, MemberKey(id)).Some?;
      }
    }
  }

  lemma OwnIdNames(q: PeerId, shown: Option<(seq<byte>, PeerId)>)
    ensures GrantIn(RecordId(q), shown).Some? ==> GrantIn(RecordId(q), shown).value.target == q
  {
    RecordIdRoundTrip(q);
  }

  lemma OwnIdsStayCanonical(cells: Cells, frames: seq<Frame>)
    requires Canonical(cells) && forall f :: f in frames ==> OwnId(f)
    ensures Canonical(MergedAll(cells, frames))
  {
    var merged := MergedAll(cells, frames);
    forall id: Text | GrantAt(merged, id).Some? ensures id == RecordId(GrantAt(merged, id).value.target) {
      OwnIdsKeep(cells, frames, id);
      if GrantAt(merged, id) != GrantAt(cells, id) {
        var q: PeerId :| id == RecordId(q);
        OwnIdNames(q, Visible(merged, MemberKey(id)));
      }
    }
  }

  /** Presented to a receiver that shows canonical records, frames under own ids lead to a decision. */
  lemma OwnIdsAreJudged(owner: PeerId, cells: Cells, frames: seq<Frame>, verify: Auth, p: PeerId)
    requires Readable(cells) && Canonical(cells) && forall f :: f in frames ==> OwnId(f) && verify(f)
    ensures Judged(owner, MergedAll(cells, Verified(frames, verify)), p) ==
      Returned(IsMember(owner, Grants(MergedAll(cells, frames)), p))
  {
    AllVerify(frames, verify);
    OwnIdsStayReadable(cells, frames);
    OwnIdsStayCanonical(cells, frames);
    CanonicalRootsAgree(owner, MergedAll(cells, frames));
  }

  /** At any point of any run, the proof a member makes is admitted by whoever is behind it on membership. */
  lemma ProofIsAdmittedInRun(run: seq<World>, steps: seq<Step>, i: nat, n: PeerId, m: PeerId, owner: PeerId,
                             newest: map<Text, Frame>, verify: Auth)
    requires IsRun(run, steps) && i < |run| && n in run[i].peers && m in run[i].peers
    requires var s, r := run[i].peers[n], run[i].peers[m];
      && Unreclaimed(run[i].truth, s.log) && AreNewest(s.log, newest) && BehindOnMembers(run[i].truth, r.log, s.log)
      && Canonical(s.cells) && IsMember(owner, Grants(s.cells), n)
      && Canonical(r.cells) && Readable(r.cells)
    requires forall f :: f in Walk(owner, newest, n, {}) ==> verify(f)
    ensures Judged(owner, MergedAll(run[i].peers[m].cells, Verified(Walk(owner, newest, n, {}), verify)), n) ==
      Returned(true)
  {
    var proof := Walk(owner, newest, n, {});
    forall f | f in proof ensures OwnId(f) {
      WalkHasOwnIds(owner, run[i].peers[n].log, newest, n, {}, f);
    }
    ProofAdmitsInRun(run, steps, i, n, m, owner, newest);
    OwnIdsAreJudged(owner, run[i].peers[m].cells, proof, verify, n);
  }
}
