/**
 * What the default grant and inheritance tables of `app/services/rbac.py`
 * give each built-in role once `effective_permission_codes` follows the
 * inheritance edges: Organisation Admin holds every permission, Compliance
 * Manager the four document and audit codes, Auditor three and Member two.
 */
module RbacDefaults {
  import opened Wrappers
  import opened Text
  import opened Rbac
  import opened RbacSeed

  /** The codes the Auditor role effectively holds: its own grants and Member's. */
  const AuditorClosure: seq<string> := [DocumentsView, DocumentsUpload, AuditsExport]

  /** The set `s` holds exactly the codes listed in `codes`. */
  ghost predicate Exactly(s: set<string>, codes: seq<string>) {
    forall c :: c in s <==> c in codes
  }

  // ---------------------------------------------------------------------
  // Codes of the default grants

  /** Every permission code is plain: nothing for `strip()` to remove. */
  lemma CodesArePlain()
    ensures forall c :: c in PermissionCodes ==> Plain(c)
  {
    assert Plain(DocumentsView) && Plain(DocumentsUpload) && Plain(DocumentsDelete);
    assert Plain(AuditsExport) && Plain(OrgManage) && Plain(DepartmentsManage);
    assert Plain(UsersInvite) && Plain(UsersManage) && Plain(RolesManage);
  }

  /** The codes of a list of plain permission codes are its members. */
  lemma PlainCodes(codes: seq<string>)
    requires forall c :: c in codes ==> c in PermissionCodes
    ensures forall c :: c in CodesIn(codes) <==> c in codes
  {
    CodesArePlain();
    forall i | 0 <= i < |codes| ensures Plain(codes[i]) {
      assert codes[i] in codes;
    }
    CodesInPlain(codes);
  }

  /** A plain code held by a role is one of its stripped codes. */
  lemma {:induction false} HeldCode(perms: seq<string>, c: string)
    requires c in perms && Plain(c)
    ensures c in CodesIn(perms)
  {
    var n := |perms| - 1;
    if perms[n] == c {
      StripNoOp(c);
    } else {
      assert c in perms[..n];
      HeldCode(perms[..n], c);
    }
  }

  // ---------------------------------------------------------------------
  // Any fully seeded organisation

  /** A role that holds `codes` (all plain) has them among its codes. */
  lemma HoldsCodes(r: Role, codes: seq<string>)
    requires Holds(r.permissions, codes)
    requires forall c :: c in codes ==> c in PermissionCodes
    ensures forall c :: c in codes ==> c in RoleCodes(r)
  {
    CodesArePlain();
    forall c | c in codes ensures c in RoleCodes(r) {
      HeldCode(r.permissions, c);
    }
  }

  /** Codes of a role reached from `a` are codes `a` effectively holds. */
  lemma ReachedCodes(t: RoleTable, a: int, x: int, c: string)
    requires Reaches(t, a, x) && x in t && c in RoleCodes(t[x])
    ensures c in EffectiveCodes(t, a)
  {
    assert x in ReachSet(t, a);
    CodesOfMember(t, ReachSet(t, a), c);
  }

  /**
   * A role inheriting (through a second role) from a third, the three
   * holding the admin, manager and member grants, effectively holds every
   * permission code, whatever other grants and edges they have.
   */
  lemma ChainHoldsAll(t: RoleTable, a: int, m: int, me: int)
    requires Live(t, a) && Live(t, m) && Live(t, me)
    requires m in t[a].inherits && me in t[m].inherits
    requires Holds(t[a].permissions, AdminGrants) && Holds(t[m].permissions, ManagerGrants)
    ensures forall c :: c in PermissionCodes ==> c in EffectiveCodes(t, a)
  {
    ReachesSelf(t, m);
    ReachesStep(t, a, m, m);
    ReachesSelf(t, a);
    HoldsCodes(t[a], AdminGrants);
    HoldsCodes(t[m], ManagerGrants);
    forall c | c in PermissionCodes ensures c in EffectiveCodes(t, a) {
      if c in AdminGrants {
        ReachedCodes(t, a, a, c);
      } else {
        ReachedCodes(t, a, m, c);
      }
    }
  }

  /**
   * In an organisation holding every default grant and inheritance edge,
   * the Organisation Admin role effectively holds every permission code.
   */
  lemma SeededAdminHoldsAll(s: Store, org: int, a: nat)
    requires FullySeeded(s, org) && FindRole(s.rows, org, OrgAdmin) == Some(a)
    ensures forall c :: c in PermissionCodes ==> c in EffectiveCodes(TableOf(s.rows), a + 1)
  {
    var rows := s.rows;
    var m := FindRole(rows, org, ComplianceManager).value;
    var me := FindRole(rows, org, Member).value;
    HasGrantsAt(rows, org, OrgAdmin, AdminGrants, a);
    HasGrantsAt(rows, org, ComplianceManager, ManagerGrants, m);
    HasEdgeAt(rows, org, OrgAdmin, ComplianceManager, a, m);
    HasEdgeAt(rows, org, ComplianceManager, Member, m, me);
    RowsHoldAll(rows, a, m, me);
  }

  /** `ChainHoldsAll` on the table of a row list. */
  lemma RowsHoldAll(rows: seq<Role>, a: nat, m: nat, me: nat)
    requires a < |rows| && m < |rows| && me < |rows|
    requires m + 1 in rows[a].inherits && me + 1 in rows[m].inherits
    requires Holds(rows[a].permissions, AdminGrants) && Holds(rows[m].permissions, ManagerGrants)
    ensures forall c :: c in PermissionCodes ==> c in EffectiveCodes(TableOf(rows), a + 1)
  {
    var t := TableOf(rows);
    assert t[a + 1] == rows[a] && t[m + 1] == rows[m] && me + 1 in t;
    ChainHoldsAll(t, a + 1, m + 1, me + 1);
  }

  // ---------------------------------------------------------------------
  // A fresh organisation: the exact closures

  /** The four rows seeding appends for an organisation with none of them, at positions n..n+3. */
  function FreshRows(org: int, n: nat): seq<Role> {
    [Role(org, OrgAdmin, true, AdminGrants, [n + 2]),
     Role(org, ComplianceManager, true, ManagerGrants, [n + 4]),
     Role(org, Auditor, true, AuditorGrants, [n + 4]),
     Role(org, Member, true, MemberGrants, [])]
  }

  predicate NoSystemRole(rows: seq<Role>, org: int) {
    && FindRole(rows, org, OrgAdmin).None? && FindRole(rows, org, ComplianceManager).None?
    && FindRole(rows, org, Auditor).None? && FindRole(rows, org, Member).None?
  }

  function Blank(org: int, name: string): Role {
    Role(org, name, true, [], [])
  }

  /** Appending a row with another name does not change where a name is found. */
  lemma FindPastOther(rows: seq<Role>, r: Role, org: int, name: string)
    requires !Named(r, org, name)
    ensures FindRole(rows + [r], org, name) == FindRole(rows, org, name)
  {
    assert (rows + [r])[..|rows|] == rows;
  }

  lemma CreateFresh(rows: seq<Role>, org: int)
    requires NoSystemRole(rows, org)
    ensures CreateSystemRoles(rows, org).0 ==
      rows + [Blank(org, OrgAdmin), Blank(org, ComplianceManager), Blank(org, Auditor), Blank(org, Member)]
    ensures CreateSystemRoles(rows, org).1 == Ids(|rows|)
  {
    SystemRolesDistinct();
    var r1 := rows + [Blank(org, OrgAdmin)];
    FindPastOther(rows, Blank(org, OrgAdmin), org, ComplianceManager);
    FindPastOther(rows, Blank(org, OrgAdmin), org, Auditor);
    FindPastOther(rows, Blank(org, OrgAdmin), org, Member);
    var r2 := r1 + [Blank(org, ComplianceManager)];
    FindPastOther(r1, Blank(org, ComplianceManager), org, Auditor);
    FindPastOther(r1, Blank(org, ComplianceManager), org, Member);
    var r3 := r2 + [Blank(org, Auditor)];
    FindPastOther(r2, Blank(org, Auditor), org, Member);
    assert r3 + [Blank(org, Member)] ==
      rows + [Blank(org, OrgAdmin), Blank(org, ComplianceManager), Blank(org, Auditor), Blank(org, Member)];
  }

  lemma Snoc<T>(s: seq<T>)
    requires s != []
    ensures s == s[..|s| - 1] + [s[|s| - 1]]
  {
  }

  /** Granting distinct, available codes to a role with none gives exactly those codes. */
  lemma {:induction false} GrantedFresh(codes: seq<string>, available: set<string>)
    requires UniqueCodes(codes) && forall c :: c in codes ==> c in available
    ensures Granted([], codes, available) == codes
  {
    if codes != [] {
      var init := codes[..|codes| - 1];
      assert forall i :: 0 <= i < |init| ==> init[i] == codes[i];
      GrantedFresh(init, available);
      Snoc(codes);
    }
  }

  lemma AvailableAll(s: Store)
    ensures var perms := AddPermissions(s.perms);
      forall c :: c in PermissionCodes ==> c in (set c | c in perms && c in PermissionCodes)
  {
  }

  lemma GrantsUnique()
    ensures UniqueCodes(MemberGrants) && UniqueCodes(AuditorGrants)
    ensures UniqueCodes(ManagerGrants) && UniqueCodes(AdminGrants)
  {
    PermissionCodesDistinct();
    var p := PermissionCodes;
    assert MemberGrants == [p[0], p[1]];
    assert AuditorGrants == [p[0], p[3]];
    assert ManagerGrants == p[..4];
    assert AdminGrants == p[4..];
  }

  lemma GrantsFresh(available: set<string>)
    requires forall c :: c in PermissionCodes ==> c in available
    ensures Granted([], MemberGrants, available) == MemberGrants
    ensures Granted([], AuditorGrants, available) == AuditorGrants
    ensures Granted([], ManagerGrants, available) == ManagerGrants
    ensures Granted([], AdminGrants, available) == AdminGrants
  {
    GrantsUnique();
    GrantedFresh(MemberGrants, available);
    GrantedFresh(AuditorGrants, available);
    GrantedFresh(ManagerGrants, available);
    GrantedFresh(AdminGrants, available);
  }

  /** Seeding an organisation with no built-in role appends exactly `FreshRows`. */
  lemma SeedFresh(s: Store, org: int)
    requires NoSystemRole(s.rows, org)
    ensures SeedAll(s, org).rows == s.rows + FreshRows(org, |s.rows|)
  {
    var perms := AddPermissions(s.perms);
    CreateFresh(s.rows, org);
    var available := set c | c in perms && c in PermissionCodes;
    AvailableAll(s);
    GrantFreshRows(s.rows, org, available);
    LinkFreshRows(s.rows, org);
  }

  function Ids(n: nat): SystemIds {
    SystemIds(n, n + 1, n + 2, n + 3)
  }

  /** The four fresh roles with their grants and no inheritance yet. */
  function GrantedRows(org: int): seq<Role> {
    [Role(org, OrgAdmin, true, AdminGrants, []), Role(org, ComplianceManager, true, ManagerGrants, []),
     Role(org, Auditor, true, AuditorGrants, []), Role(org, Member, true, MemberGrants, [])]
  }

  lemma GrantFreshRows(pre: seq<Role>, org: int, available: set<string>)
    requires forall c :: c in PermissionCodes ==> c in available
    ensures GrantDefaults(pre + [Blank(org, OrgAdmin), Blank(org, ComplianceManager), Blank(org, Auditor), Blank(org, Member)],
                          Ids(|pre|), available) == pre + GrantedRows(org)
  {
    GrantsFresh(available);
    GrantFour(pre, Blank(org, OrgAdmin), Blank(org, ComplianceManager), Blank(org, Auditor), Blank(org, Member), available,
              AdminGrants, ManagerGrants, AuditorGrants, MemberGrants);
  }

  /** Grants `ga`, `gm`, `gau` and `gme` (in the order seeding grants them) on four roles with no permissions yet. */
  lemma GrantFour(pre: seq<Role>, a: Role, m: Role, au: Role, me: Role, available: set<string>,
                  ga: seq<string>, gm: seq<string>, gau: seq<string>, gme: seq<string>)
    requires a.permissions == [] && m.permissions == [] && au.permissions == [] && me.permissions == []
    requires Granted([], gme, available) == gme && Granted([], gau, available) == gau
    requires Granted([], gm, available) == gm && Granted([], ga, available) == ga
    ensures var n := |pre|;
      GrantTo(GrantTo(GrantTo(GrantTo(pre + [a, m, au, me], n + 3, gme, available),
        n + 2, gau, available), n + 1, gm, available), n, ga, available) ==
      pre + [a.(permissions := ga), m.(permissions := gm), au.(permissions := gau), me.(permissions := gme)]
  {
    var me', au' := me.(permissions := gme), au.(permissions := gau);
    var m', a' := m.(permissions := gm), a.(permissions := ga);
    var n := |pre|;
    var r0, r1, r2, r3 := pre + [a, m, au, me], pre + [a, m, au, me'], pre + [a, m, au', me'], pre + [a, m', au', me'];
    assert GrantTo(r0, n + 3, gme, available) == r1 by {
      GrantAt(pre, [a, m, au, me], 3, gme, available, me');
      Update4(a, m, au, me, me');
    }
    assert GrantTo(r1, n + 2, gau, available) == r2 by {
      GrantAt(pre, [a, m, au, me'], 2, gau, available, au');
      Update4(a, m, au, me', au');
    }
    assert GrantTo(r2, n + 1, gm, available) == r3 by {
      GrantAt(pre, [a, m, au', me'], 1, gm, available, m');
      Update4(a, m, au', me', m');
    }
    GrantFirst(pre, a, m', au', me', ga, available);
  }

  lemma GrantFirst(pre: seq<Role>, a: Role, m: Role, au: Role, me: Role, codes: seq<string>, available: set<string>)
    requires a.permissions == [] && Granted([], codes, available) == codes
    ensures GrantTo(pre + [a, m, au, me], |pre|, codes, available) == pre + [a.(permissions := codes), m, au, me]
  {
    GrantAt(pre, [a, m, au, me], 0, codes, available, a.(permissions := codes));
    Update4(a, m, au, me, a.(permissions := codes));
  }

  lemma GrantAt(pre: seq<Role>, tail: seq<Role>, j: nat, codes: seq<string>, available: set<string>, v: Role)
    requires j < |tail| && tail[j].permissions == [] && Granted([], codes, available) == codes
    requires v == tail[j].(permissions := codes)
    ensures GrantTo(pre + tail, |pre| + j, codes, available) == pre + tail[j := v]
  {
    assert (pre + tail)[|pre| + j] == tail[j];
    UpdateTail(pre, tail, j, v);
  }

  lemma LinkAt(pre: seq<Role>, tail: seq<Role>, j: nat, k: nat, v: Role)
    requires j < |tail| && tail[j].inherits == [] && v == tail[j].(inherits := [|pre| + k + 1])
    ensures LinkTo(pre + tail, |pre| + j, |pre| + k) == pre + tail[j := v]
  {
    LinkEmpty(pre + tail, |pre| + j, |pre| + k);
    UpdateTail(pre, tail, j, v);
  }

  lemma LinkFreshRows(pre: seq<Role>, org: int)
    ensures LinkAll(pre + GrantedRows(org), Ids(|pre|), Inheritance) == pre + FreshRows(org, |pre|)
  {
    var g := GrantedRows(org);
    LinkFour(pre, g[0], g[1], g[2], g[3]);
    assert g == [g[0], g[1], g[2], g[3]];
    LinkAllDefaults(pre + g, Ids(|pre|));
  }

  /** The default inheritance edges on four roles with no edges yet, appended after `pre`. */
  lemma LinkFour(pre: seq<Role>, a: Role, m: Role, au: Role, me: Role)
    requires a.inherits == [] && m.inherits == [] && au.inherits == []
    ensures var n := |pre|;
      LinkTo(LinkTo(LinkTo(pre + [a, m, au, me], n, n + 1), n + 1, n + 3), n + 2, n + 3) ==
      pre + [a.(inherits := [n + 2]), m.(inherits := [n + 4]), au.(inherits := [n + 4]), me]
  {
    var n := |pre|;
    var a', m', au' := a.(inherits := [n + 2]), m.(inherits := [n + 4]), au.(inherits := [n + 4]);
    var r0, r1, r2 := pre + [a, m, au, me], pre + [a', m, au, me], pre + [a', m', au, me];
    assert LinkTo(r0, n, n + 1) == r1 by {
      LinkAt(pre, [a, m, au, me], 0, 1, a');
      Update4(a, m, au, me, a');
    }
    assert LinkTo(r1, n + 1, n + 3) == r2 by {
      LinkAt(pre, [a', m, au, me], 1, 3, m');
      Update4(a', m, au, me, m');
    }
    assert LinkTo(r2, n + 2, n + 3) == pre + [a', m', au', me] by {
      LinkAt(pre, [a', m', au, me], 2, 3, au');
      Update4(a', m', au, me, au');
    }
  }

  lemma LinkEmpty(rows: seq<Role>, i: nat, j: nat)
    requires i < |rows| && rows[i].inherits == []
    ensures LinkTo(rows, i, j) == rows[i := rows[i].(inherits := [j + 1])]
  {
    assert [] + [j + 1] == [j + 1];
  }

  lemma Update4<T>(w: T, x: T, y: T, z: T, v: T)
    ensures [w, x, y, z][0 := v] == [v, x, y, z]
    ensures [w, x, y, z][1 := v] == [w, v, y, z]
    ensures [w, x, y, z][2 := v] == [w, x, v, z]
    ensures [w, x, y, z][3 := v] == [w, x, y, v]
  {
  }

  /** Updating a row past `pre` updates the tail. */
  lemma UpdateTail<T>(pre: seq<T>, tail: seq<T>, j: nat, x: T)
    requires j < |tail|
    ensures (pre + tail)[|pre| + j := x] == pre + tail[j := x]
  {
  }

  /** The roles of `s` form a set the walk cannot leave. */
  lemma ReachSetIs(t: RoleTable, a: int, s: set<int>)
    requires Closed(t, s) && a in s
    requires forall x :: x in s ==> x in t && Reaches(t, a, x)
    ensures ReachSet(t, a) == s
  {
    ClosedHoldsReach(t, s, a);
    forall x | x in s ensures x in ReachSet(t, a) {
      assert x in t.Keys && Reaches(t, a, x);
    }
  }

  lemma CodesOfThree(t: RoleTable, x: int, y: int, z: int)
    requires x in t && y in t && z in t
    ensures CodesOf(t, {x, y, z}) == RoleCodes(t[x]) + RoleCodes(t[y]) + RoleCodes(t[z])
  {
    assert CodesOf(t, {}) == {};
    CodesOfAdd(t, {}, x);
    assert {} + {x} == {x};
    CodesOfAdd(t, {x}, y);
    assert {x} + {y} == {x, y};
    CodesOfAdd(t, {x, y}, z);
    assert {x, y} + {z} == {x, y, z};
  }

  lemma CodesOfTwo(t: RoleTable, x: int, y: int)
    requires x in t && y in t
    ensures CodesOf(t, {x, y}) == RoleCodes(t[x]) + RoleCodes(t[y])
  {
    assert CodesOf(t, {}) == {};
    CodesOfAdd(t, {}, x);
    assert {} + {x} == {x};
    CodesOfAdd(t, {x}, y);
    assert {x} + {y} == {x, y};
  }

  lemma CodesOfOne(t: RoleTable, x: int)
    requires x in t
    ensures CodesOf(t, {x}) == RoleCodes(t[x])
  {
    assert CodesOf(t, {}) == {};
    CodesOfAdd(t, {}, x);
    assert {} + {x} == {x};
  }

  /** The roles of a freshly seeded organisation in the table, and their edges. */
  lemma FreshTable(pre: seq<Role>, org: int)
    ensures var n, t := |pre|, TableOf(pre + FreshRows(org, |pre|));
      && n + 1 in t && n + 2 in t && n + 3 in t && n + 4 in t
      && t[n + 1] == FreshRows(org, n)[0] && t[n + 2] == FreshRows(org, n)[1]
      && t[n + 3] == FreshRows(org, n)[2] && t[n + 4] == FreshRows(org, n)[3]
  {
    var n, rows := |pre|, pre + FreshRows(org, |pre|);
    assert rows[n] == FreshRows(org, n)[0] && rows[n + 1] == FreshRows(org, n)[1];
    assert rows[n + 2] == FreshRows(org, n)[2] && rows[n + 3] == FreshRows(org, n)[3];
  }

  /**
   * The reachable sets of the default inheritance shape: `a` inherits from
   * `m`, `m` and `au` from `me`, and `me` from nothing.
   */
  lemma DefaultReach(t: RoleTable, a: int, m: int, au: int, me: int)
    requires Live(t, a) && Live(t, m) && Live(t, au) && Live(t, me)
    requires t[a].inherits == [m] && t[m].inherits == [me] && t[au].inherits == [me] && t[me].inherits == []
    ensures ReachSet(t, a) == {a, m, me}
    ensures ReachSet(t, m) == {m, me}
    ensures ReachSet(t, au) == {au, me}
    ensures ReachSet(t, me) == {me}
  {
    ReachesSelf(t, me);
    ReachesSelf(t, au);
    ReachesSelf(t, m);
    ReachesSelf(t, a);
    ReachesStep(t, au, me, me);
    ReachesStep(t, m, me, me);
    ReachesStep(t, a, m, m);
    ReachesStep(t, a, m, me);
    ReachSetIs(t, a, {a, m, me});
    ReachSetIs(t, m, {m, me});
    ReachSetIs(t, au, {au, me});
    ReachSetIs(t, me, {me});
  }

  /**
   * The effective codes of the four roles of a freshly seeded organisation:
   * all nine codes for Organisation Admin, the four document and audit codes
   * for Compliance Manager, view, upload and export for Auditor, and view and
   * upload for Member.
   */
  lemma FreshClosures(pre: seq<Role>, org: int)
    ensures var n, t := |pre|, TableOf(pre + FreshRows(org, |pre|));
      && Exactly(EffectiveCodes(t, n + 1), PermissionCodes)
      && Exactly(EffectiveCodes(t, n + 2), ManagerGrants)
      && Exactly(EffectiveCodes(t, n + 3), AuditorClosure)
      && Exactly(EffectiveCodes(t, n + 4), MemberGrants)
  {
    var n, t := |pre|, TableOf(pre + FreshRows(org, |pre|));
    FreshTable(pre, org);
    DefaultReach(t, n + 1, n + 2, n + 3, n + 4);
    AdminClosure(t, n + 1, n + 2, n + 4);
    ManagerClosure(t, n + 2, n + 4);
    AuditorClosureIs(t, n + 3, n + 4);
    MemberClosure(t, n + 4);
  }

  lemma AdminClosure(t: RoleTable, a: int, m: int, me: int)
    requires a in t && m in t && me in t && ReachSet(t, a) == {a, m, me}
    requires t[a].permissions == AdminGrants && t[m].permissions == ManagerGrants && t[me].permissions == MemberGrants
    ensures Exactly(EffectiveCodes(t, a), PermissionCodes)
  {
    PlainCodes(AdminGrants);
    PlainCodes(ManagerGrants);
    PlainCodes(MemberGrants);
    CodesOfThree(t, a, m, me);
  }

  lemma ManagerClosure(t: RoleTable, m: int, me: int)
    requires m in t && me in t && ReachSet(t, m) == {m, me}
    requires t[m].permissions == ManagerGrants && t[me].permissions == MemberGrants
    ensures Exactly(EffectiveCodes(t, m), ManagerGrants)
  {
    PlainCodes(ManagerGrants);
    PlainCodes(MemberGrants);
    CodesOfTwo(t, m, me);
  }

  lemma AuditorClosureIs(t: RoleTable, au: int, me: int)
    requires au in t && me in t && ReachSet(t, au) == {au, me}
    requires t[au].permissions == AuditorGrants && t[me].permissions == MemberGrants
    ensures Exactly(EffectiveCodes(t, au), AuditorClosure)
  {
    PlainCodes(AuditorGrants);
    PlainCodes(MemberGrants);
    CodesOfTwo(t, au, me);
  }

  lemma MemberClosure(t: RoleTable, me: int)
    requires me in t && ReachSet(t, me) == {me} && t[me].permissions == MemberGrants
    ensures Exactly(EffectiveCodes(t, me), MemberGrants)
  {
    PlainCodes(MemberGrants);
    CodesOfOne(t, me);
  }

  /**
   * `ensure_rbac_seeded_for_org` on an organisation with none of the
   * built-in roles: the four roles are appended, and their closures are
   * exactly the default ones.
   */
  lemma SeededFreshOrg(s: Store, org: int)
    requires org != 0 && NoSystemRole(s.rows, org)
    ensures var s', n := EnsureSeededState(s, org), |s.rows|;
      && s'.rows == s.rows + FreshRows(org, n)
      && Exactly(EffectiveCodes(TableOf(s'.rows), n + 1), PermissionCodes)
      && Exactly(EffectiveCodes(TableOf(s'.rows), n + 2), ManagerGrants)
      && Exactly(EffectiveCodes(TableOf(s'.rows), n + 3), AuditorClosure)
      && Exactly(EffectiveCodes(TableOf(s'.rows), n + 4), MemberGrants)
  {
    assert SystemRows(s.rows, org) == {} by {
      forall i | i in SystemRows(s.rows, org) ensures false {
        var nm := s.rows[i].name;
        assert Named(s.rows[i], org, nm);
        FindRoleSpec(s.rows, org, nm);
      }
    }
    SeedFresh(s, org);
    FreshClosures(s.rows, org);
  }
}
