/** The authorized member set: a fixpoint over membership grants, rooted at the genesis owner. */
module Authority {
  import opened Bytes
  import opened Clock
  import opened Endings

  datatype Role = Owner | Admin | Member

  /** `granter` authored a record that gives `target` a role. */
  datatype Grant = Grant(target: PeerId, granter: PeerId, role: Role)

  type Roles = map<PeerId, Role>

  function SetOf(records: seq<Grant>): set<Grant> {
    set g | g in records
  }

  function TargetsOf(records: seq<Grant>): set<PeerId> {
    set g | g in records :: g.target
  }

  predicate CanAdmin(r: Role) {
    r != Member
  }

  // ---- what the set should be --------------------------------------------

  predicate Linked(g: Grant, h: Grant) {
    h.granter == g.target && CanAdmin(g.role)
  }

  /** A delegation chain: the owner grants the first link, each target that may administer grants the next. */
  predicate IsChain(owner: PeerId, grants: set<Grant>, chain: seq<Grant>) {
    && chain != [] && chain[0].granter == owner
    && (forall i :: 0 <= i < |chain| ==> chain[i] in grants && chain[i].target != owner)
    && forall i :: 0 < i < |chain| ==> Linked(chain[i - 1], chain[i])
  }

  ghost predicate Rooted(owner: PeerId, grants: set<Grant>, g: Grant) {
    exists chain :: IsChain(owner, grants, chain) && chain[|chain| - 1] == g
  }

  ghost predicate IsMember(owner: PeerId, grants: set<Grant>, p: PeerId) {
    p == owner || exists g :: Rooted(owner, grants, g) && g.target == p
  }

  /** The owner, plus every peer some rooted grant names, at the role it names. */
  ghost predicate IsAuthority(owner: PeerId, grants: set<Grant>, roles: Roles) {
    && owner in roles && roles[owner] == Owner
    && (forall p :: p in roles && p != owner ==> Backed(owner, grants, p, roles[p]))
    && (forall g :: Rooted(owner, grants, g) ==> g.target in roles && roles[g.target] == g.role)
  }

  ghost predicate Backed(owner: PeerId, grants: set<Grant>, p: PeerId, role: Role) {
    exists g :: Rooted(owner, grants, g) && g.target == p && g.role == role
  }

  /** No two rooted grants give one peer different roles. */
  ghost predicate RootsAgree(owner: PeerId, grants: set<Grant>) {
    forall g, h :: Rooted(owner, grants, g) && Rooted(owner, grants, h) && g.target == h.target ==> g.role == h.role
  }

  lemma AuthorityKeys(owner: PeerId, grants: set<Grant>, roles: Roles, p: PeerId)
    requires IsAuthority(owner, grants, roles)
    ensures p in roles <==> IsMember(owner, grants, p)
  {
    if p in roles && p != owner {
      assert Backed(owner, grants, p, roles[p]);
    }
  }

  /** The set depends on nothing but the owner and the set of grants. */
  lemma AuthorityUnique(owner: PeerId, grants: set<Grant>, a: Roles, b: Roles)
    requires IsAuthority(owner, grants, a) && IsAuthority(owner, grants, b)
    ensures a == b
  {
    forall p ensures p in a <==> p in b {
      AuthorityKeys(owner, grants, a, p);
      AuthorityKeys(owner, grants, b, p);
    }
    forall p | p in a ensures a[p] == b[p] {
      if p != owner {
        assert Backed(owner, grants, p, a[p]);
      }
    }
  }

  /** The table lists the granter as an owner or an admin. */
  predicate MayGrant(roles: Roles, granter: PeerId) {
    granter in roles && (roles[granter] == Owner || roles[granter] == Admin)
  }

  ghost predicate Granted(grants: set<Grant>, roles: Roles, p: PeerId, role: Role) {
    exists g :: g in grants && g.target == p && g.role == role && MayGrant(roles, g.granter)
  }

  /** A peer other than the owner has a role exactly when an owner or an admin of the table grants it. */
  lemma GrantedExactly(owner: PeerId, grants: set<Grant>, roles: Roles, p: PeerId, role: Role)
    requires IsAuthority(owner, grants, roles) && p != owner
    ensures p in roles && roles[p] == role <==> Granted(grants, roles, p, role)
  {
    if p in roles && roles[p] == role {
      assert Backed(owner, grants, p, role);
      var g :| Rooted(owner, grants, g) && g.target == p && g.role == role;
      GranterIsListed(owner, grants, roles, g);
    }
    if g :| g in grants && g.target == p && g.role == role && MayGrant(roles, g.granter) {
      AllowedIsRooted(owner, grants, roles, g);
    }
  }

  lemma GranterIsListed(owner: PeerId, grants: set<Grant>, roles: Roles, g: Grant)
    requires IsAuthority(owner, grants, roles) && Rooted(owner, grants, g)
    ensures g in grants && MayGrant(roles, g.granter)
  {
    var chain :| IsChain(owner, grants, chain) && chain[|chain| - 1] == g;
    assert chain[|chain| - 1] in grants;
    if |chain| > 1 {
      var front := chain[..|chain| - 1];
      var h := chain[|chain| - 2];
      assert Linked(h, g);
      forall i | 0 < i < |front| ensures Linked(front[i - 1], front[i]) {
        assert Linked(chain[i - 1], chain[i]);
      }
      assert IsChain(owner, grants, front) && front[|front| - 1] == h;
      assert Rooted(owner, grants, h);
    }
  }

  /** A plain member admits nobody. */
  lemma MembersDoNotGrant(owner: PeerId, p: PeerId, q: PeerId)
    requires owner != p && owner != q && p != q
    ensures IsAuthority(owner, {Grant(p, owner, Member), Grant(q, p, Member)}, map[owner := Owner, p := Member])
  {
    var g, k := Grant(p, owner, Member), Grant(q, p, Member);
    DirectGrant(owner, {g, k}, g);
    QuietIsAuthority(owner, {g, k}, map[owner := Owner, p := Member]);
  }

  /** With the same records an admin does. */
  lemma AdminsGrant(owner: PeerId, p: PeerId, q: PeerId)
    requires owner != p && owner != q && p != q
    ensures IsAuthority(owner, {Grant(p, owner, Admin), Grant(q, p, Member)},
                        map[owner := Owner, p := Admin, q := Member])
  {
    var h, k := Grant(p, owner, Admin), Grant(q, p, Member);
    DirectGrant(owner, {h, k}, h);
    AllowedIsRooted(owner, {h, k}, map[owner := Owner, p := Admin], k);
    assert Backed(owner, {h, k}, q, Member);
    QuietIsAuthority(owner, {h, k}, map[owner := Owner, p := Admin, q := Member]);
  }

  lemma DirectGrant(owner: PeerId, grants: set<Grant>, g: Grant)
    requires g in grants && g.granter == owner && g.target != owner
    ensures Backed(owner, grants, g.target, g.role)
  {
    assert IsChain(owner, grants, [g]) && [g][0] == g;
    assert Rooted(owner, grants, g);
  }

  // ---- the loop ----------------------------------------------------------

  predicate Allows(owner: PeerId, roles: Roles, g: Grant) {
    g.target != owner && g.granter in roles && CanAdmin(roles[g.granter])
  }

  predicate Changes(owner: PeerId, roles: Roles, g: Grant) {
    Allows(owner, roles, g) && !(g.target in roles && roles[g.target] == g.role)
  }

  function Stepped(owner: PeerId, roles: Roles, g: Grant): Roles {
    if Changes(owner, roles, g) then roles[g.target := g.role] else roles
  }

  /** One pass over the records, and whether it changed anything. */
  function Swept(owner: PeerId, records: seq<Grant>, roles: Roles): (Roles, bool) {
    if records == [] then (roles, false)
    else
      var (r, changed) := Swept(owner, records[..|records| - 1], roles);
      var g := records[|records| - 1];
      (Stepped(owner, r, g), changed || Changes(owner, r, g))
  }

  /** The table after `n` passes, and whether the last one changed anything. */
  function Passes(owner: PeerId, records: seq<Grant>, n: nat): (Roles, bool) {
    if n == 0 then (map[owner := Owner], true) else Swept(owner, records, Passes(owner, records, n - 1).0)
  }

  /** Everything in the table is rooted. */
  ghost predicate AllBacked(owner: PeerId, grants: set<Grant>, roles: Roles) {
    && owner in roles && roles[owner] == Owner
    && forall p :: p in roles && p != owner ==> Backed(owner, grants, p, roles[p])
  }

  /** No grant of `grants` has anything left to do. */
  predicate Quiet(owner: PeerId, grants: set<Grant>, roles: Roles) {
    forall g :: g in grants ==> !Changes(owner, roles, g)
  }

  lemma AllowedIsRooted(owner: PeerId, grants: set<Grant>, roles: Roles, g: Grant)
    requires AllBacked(owner, grants, roles) && g in grants && Allows(owner, roles, g)
    ensures Rooted(owner, grants, g)
  {
    if g.granter == owner {
      assert IsChain(owner, grants, [g]) && [g][|[g]| - 1] == g;
    } else {
      assert Backed(owner, grants, g.granter, roles[g.granter]);
      var h :| Rooted(owner, grants, h) && h.target == g.granter && h.role == roles[g.granter];
      var chain :| IsChain(owner, grants, chain) && chain[|chain| - 1] == h;
      ChainSnoc(owner, grants, chain, g);
    }
  }

  lemma ChainSnoc(owner: PeerId, grants: set<Grant>, chain: seq<Grant>, g: Grant)
    requires IsChain(owner, grants, chain) && g in grants && g.target != owner && Linked(chain[|chain| - 1], g)
    ensures Rooted(owner, grants, g)
  {
    var longer := chain + [g];
    forall i | 0 < i < |longer| ensures Linked(longer[i - 1], longer[i]) {
      assert i < |chain| ==> Linked(chain[i - 1], chain[i]);
    }
    assert IsChain(owner, grants, longer) && longer[|longer| - 1] == g;
  }

  lemma StepKeepsBacked(owner: PeerId, grants: set<Grant>, roles: Roles, g: Grant)
    requires AllBacked(owner, grants, roles) && g in grants
    ensures AllBacked(owner, grants, Stepped(owner, roles, g))
  {
    if Changes(owner, roles, g) {
      AllowedIsRooted(owner, grants, roles, g);
      assert Backed(owner, grants, g.target, g.role);
    }
  }

  lemma EntryAgrees(owner: PeerId, grants: set<Grant>, roles: Roles, g: Grant)
    requires AllBacked(owner, grants, roles) && RootsAgree(owner, grants) && Rooted(owner, grants, g)
    requires g.target in roles && g.target != owner
    ensures roles[g.target] == g.role
  {
    assert Backed(owner, grants, g.target, roles[g.target]);
  }

  /** When the roots agree an entry is never rewritten. */
  lemma StepOnlyAdds(owner: PeerId, grants: set<Grant>, roles: Roles, g: Grant)
    requires AllBacked(owner, grants, roles) && g in grants && RootsAgree(owner, grants) && Changes(owner, roles, g)
    ensures g.target !in roles
  {
    AllowedIsRooted(owner, grants, roles, g);
    if g.target in roles {
      EntryAgrees(owner, grants, roles, g);
    }
  }

  lemma {:induction false} SweepKeepsBacked(owner: PeerId, grants: set<Grant>, records: seq<Grant>, roles: Roles)
    requires AllBacked(owner, grants, roles) && forall g :: g in records ==> g in grants
    ensures AllBacked(owner, grants, Swept(owner, records, roles).0)
  {
    if records != [] {
      var front := records[..|records| - 1];
      SweepKeepsBacked(owner, grants, front, roles);
      StepKeepsBacked(owner, grants, Swept(owner, front, roles).0, records[|records| - 1]);
    }
  }

  /** A pass that reports no change left the table alone and no record had anything to do. */
  lemma {:induction false} SilentSweep(owner: PeerId, records: seq<Grant>, roles: Roles)
    requires !Swept(owner, records, roles).1
    ensures Swept(owner, records, roles).0 == roles
    ensures forall g :: g in records ==> !Changes(owner, roles, g)
  {
    if records != [] {
      SilentSweep(owner, records[..|records| - 1], roles);
      assert records == records[..|records| - 1] + [records[|records| - 1]];
    }
  }

  lemma {:induction false} SweepGrows(owner: PeerId, grants: set<Grant>, records: seq<Grant>, roles: Roles)
    requires AllBacked(owner, grants, roles) && RootsAgree(owner, grants) && forall g :: g in records ==> g in grants
    ensures var (next, changed) := Swept(owner, records, roles);
      roles.Keys <= next.Keys && (changed ==> roles.Keys < next.Keys)
  {
    if records != [] {
      var front, g := records[..|records| - 1], records[|records| - 1];
      SweepGrows(owner, grants, front, roles);
      SweepKeepsBacked(owner, grants, front, roles);
      if Changes(owner, Swept(owner, front, roles).0, g) {
        StepOnlyAdds(owner, grants, Swept(owner, front, roles).0, g);
      }
    }
  }

  /** A quiet table lists every rooted grant. */
  lemma {:induction false} QuietCovers(owner: PeerId, grants: set<Grant>, roles: Roles, chain: seq<Grant>)
    requires owner in roles && roles[owner] == Owner && Quiet(owner, grants, roles) && IsChain(owner, grants, chain)
    ensures var g := chain[|chain| - 1]; g.target in roles && roles[g.target] == g.role
  {
    var g := chain[|chain| - 1];
    if |chain| > 1 {
      var front := chain[..|chain| - 1];
      forall i | 0 < i < |front| ensures Linked(front[i - 1], front[i]) {
        assert Linked(chain[i - 1], chain[i]);
      }
      QuietCovers(owner, grants, roles, front);
      assert Linked(chain[|chain| - 2], chain[|chain| - 1]);
    }
    assert Allows(owner, roles, g) && !Changes(owner, roles, g);
  }

  lemma QuietIsAuthority(owner: PeerId, grants: set<Grant>, roles: Roles)
    requires AllBacked(owner, grants, roles) && Quiet(owner, grants, roles)
    ensures IsAuthority(owner, grants, roles) && RootsAgree(owner, grants)
  {
    forall g | Rooted(owner, grants, g) ensures g.target in roles && roles[g.target] == g.role {
      var chain :| IsChain(owner, grants, chain) && chain[|chain| - 1] == g;
      QuietCovers(owner, grants, roles, chain);
    }
  }

  lemma SweptNext(owner: PeerId, records: seq<Grant>, i: nat, roles: Roles)
    requires i < |records|
    ensures var (r, changed) := Swept(owner, records[..i], roles);
      Swept(owner, records[..i + 1], roles) == (Stepped(owner, r, records[i]), changed || Changes(owner, r, records[i]))
  {
    PrefixSnoc(records, i);
  }

  /** One pass of the loop. */
  method Sweep(owner: PeerId, records: seq<Grant>, roles: Roles) returns (authorized: Roles, changed: bool)
    ensures (authorized, changed) == Swept(owner, records, roles)
  {
    authorized, changed := roles, false;
    for i := 0 to |records|
      invariant (authorized, changed) == Swept(owner, records[..i], roles)
    {
      SweptNext(owner, records, i, roles);
      var next, moved := Consider(owner, authorized, records[i]);
      authorized, changed := next, changed || moved;
    }
    assert records[..|records|] == records;
  }

  /** One record: does its granter have the say, and does it say anything new? */
  method Consider(owner: PeerId, roles: Roles, g: Grant) returns (next: Roles, moved: bool)
    ensures next == Stepped(owner, roles, g) && moved == Changes(owner, roles, g)
  {
    if g.target == owner {
      return roles, false;
    }
    var granterCanAdmin := g.granter in roles && CanAdmin(roles[g.granter]);
    if granterCanAdmin && !(g.target in roles && roles[g.target] == g.role) {
      return roles[g.target := g.role], true;
    }
    return roles, false;
  }

  /** Everybody in a backed table is the owner or some record's target. */
  lemma BackedBounded(owner: PeerId, records: seq<Grant>, roles: Roles)
    requires AllBacked(owner, SetOf(records), roles)
    ensures roles.Keys <= {owner} + TargetsOf(records)
  {
    var grants := SetOf(records);
    forall p | p in roles && p != owner ensures p in TargetsOf(records) {
      assert Backed(owner, grants, p, roles[p]);
      var h :| Rooted(owner, grants, h) && h.target == p;
      var chain :| IsChain(owner, grants, chain) && chain[|chain| - 1] == h;
      assert chain[|chain| - 1] in grants;
    }
  }

  lemma Shrinks(all: set<PeerId>, before: set<PeerId>, after: set<PeerId>)
    requires before <= after <= all
    ensures |all - after| <= |all - before| && (before < after ==> |all - after| < |all - before|)
  {
    Smaller(all - after, all - before);
    if before < after {
      var x :| x in after && x !in before;
      Smaller(all - after, all - before - {x});
    }
  }

  lemma {:induction false} Smaller(a: set<PeerId>, b: set<PeerId>)
    requires a <= b
    ensures |a| <= |b|
  {
    if a != {} {
      var x :| x in a;
      Smaller(a - {x}, b - {x});
    }
  }

  // ---- when the loop ends ------------------------------------------------

  lemma {:induction false} PassesBacked(owner: PeerId, records: seq<Grant>, n: nat)
    ensures AllBacked(owner, SetOf(records), Passes(owner, records, n).0)
  {
    if n > 0 {
      PassesBacked(owner, records, n - 1);
      SweepKeepsBacked(owner, SetOf(records), records, Passes(owner, records, n - 1).0);
    }
  }

  /** Each pass that changes something adds a peer, so there is a silent pass after at most one per target. */
  lemma {:induction false} PassesAdd(owner: PeerId, records: seq<Grant>, n: nat)
    requires RootsAgree(owner, SetOf(records))
    requires forall k :: 0 < k <= n ==> Passes(owner, records, k).1
    ensures |Passes(owner, records, n).0.Keys| > n
  {
    if n > 0 {
      var grants := SetOf(records);
      PassesAdd(owner, records, n - 1);
      PassesBacked(owner, records, n - 1);
      SweepGrows(owner, grants, records, Passes(owner, records, n - 1).0);
      assert Passes(owner, records, n).1;
      var a, b := Passes(owner, records, n - 1).0.Keys, Passes(owner, records, n).0.Keys;
      Shrinks(b, a, b);
      assert |b - a| > 0 && |b| == |a| + |b - a| by {
        assert b == a + (b - a);
      }
    } else {
      assert Passes(owner, records, 0).0.Keys == {owner};
    }
  }

  ghost predicate Ends(owner: PeerId, records: seq<Grant>) {
    exists n: nat :: n > 0 && !Passes(owner, records, n).1
  }

  /** The loop ends exactly when no two rooted grants disagree about a peer's role. */
  lemma LoopEndsExactlyWhenRootsAgree(owner: PeerId, records: seq<Grant>)
    ensures Ends(owner, records) <==> RootsAgree(owner, SetOf(records))
  {
    if Ends(owner, records) {
      var n: nat :| n > 0 && !Passes(owner, records, n).1;
      SilentPass(owner, records, n);
    } else {
      TooManyPasses(owner, records, |TargetsOf(records)| + 1);
    }
  }

  /** A pass that changes nothing has found the authority. */
  lemma SilentPass(owner: PeerId, records: seq<Grant>, n: nat)
    requires n > 0 && !Passes(owner, records, n).1
    ensures IsAuthority(owner, SetOf(records), Passes(owner, records, n).0) && RootsAgree(owner, SetOf(records))
  {
    var roles := Passes(owner, records, n - 1).0;
    PassesBacked(owner, records, n - 1);
    SilentSweep(owner, records, roles);
    QuietIsAuthority(owner, SetOf(records), roles);
  }

  /** Two records that give one peer two roles keep the loop going for ever. */
  lemma ConflictNeverEnds(owner: PeerId, peer: PeerId)
    requires peer != owner
    ensures !Ends(owner, [Grant(peer, owner, Admin), Grant(peer, owner, Member)])
  {
    var g, h := Grant(peer, owner, Admin), Grant(peer, owner, Member);
    var grants := SetOf([g, h]);
    assert IsChain(owner, grants, [g]) && [g][0] == g;
    assert IsChain(owner, grants, [h]) && [h][0] == h;
    LoopEndsExactlyWhenRootsAgree(owner, [g, h]);
  }

  /**
   * `authorized_members`. A loop that still changes something after one pass per target never ends, so the
   * method stops counting there and reports that; the source does not return.
   */
  method AuthorizedMembers(owner: PeerId, records: seq<Grant>) returns (r: Ending<Roles>)
    ensures !r.Panicked? && (r.NeverReturns? <==> !Ends(owner, records))
    ensures r.NeverReturns? <==> !RootsAgree(owner, SetOf(records))
    ensures r.Returned? ==> IsAuthority(owner, SetOf(records), r.value)
  {
    LoopEndsExactlyWhenRootsAgree(owner, records);
    var authorized, changed, n: nat := map[owner := Owner], true, 0;
    var bound := |TargetsOf(records)| + 1;
    while changed && n < bound
      invariant n <= bound && (authorized, changed) == Passes(owner, records, n)
      invariant forall k :: 0 < k < n ==> Passes(owner, records, k).1
      decreases bound - n
    {
      authorized, changed := Sweep(owner, records, authorized);
      n := n + 1;
    }
    if changed {
      TooManyPasses(owner, records, n);
      return NeverReturns;
    }
    SilentPass(owner, records, n);
    return Returned(authorized);
  }

  lemma TooManyPasses(owner: PeerId, records: seq<Grant>, n: nat)
    requires n > |TargetsOf(records)| && forall k :: 0 < k <= n ==> Passes(owner, records, k).1
    ensures !RootsAgree(owner, SetOf(records))
  {
    if RootsAgree(owner, SetOf(records)) {
      PassesAdd(owner, records, n);
      PassesBacked(owner, records, n);
      BackedBounded(owner, records, Passes(owner, records, n).0);
      Smaller(Passes(owner, records, n).0.Keys, {owner} + TargetsOf(records));
    }
  }
}
