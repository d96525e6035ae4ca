/**
 * Seeding of the global permission table and of the four built-in roles of
 * an organisation (`ensure_rbac_seeded_for_org`), over an in-memory store:
 * the permission codes in insertion order and the role rows, where the role
 * at position `i` has id `i + 1`.
 */
module RbacSeed {
  import opened Wrappers
  import opened Text
  import opened Rbac

  const OrgAdmin: string := "Organisation Admin"
  const ComplianceManager: string := "Compliance Manager"
  const Auditor: string := "Auditor"
  const Member: string := "Member"

  /** The built-in role names, in the order the fast exit lists them. */
  const SystemRoles: set<string> := {OrgAdmin, ComplianceManager, Auditor, Member}

  /** The permission codes, the keys of `PERMISSIONS`. */
  const DocumentsView: string := "documents.view"
  const DocumentsUpload: string := "documents.upload"
  const DocumentsDelete: string := "documents.delete"
  const AuditsExport: string := "audits.export"
  const OrgManage: string := "org.manage"
  const DepartmentsManage: string := "departments.manage"
  const UsersInvite: string := "users.invite"
  const UsersManage: string := "users.manage"
  const RolesManage: string := "roles.manage"

  /** The keys of `PERMISSIONS`, in declaration order. */
  const PermissionCodes: seq<string> := [
    DocumentsView, DocumentsUpload, DocumentsDelete, AuditsExport,
    OrgManage, DepartmentsManage, UsersInvite, UsersManage, RolesManage]

  /** `DEFAULT_ROLE_GRANTS`. */
  const MemberGrants: seq<string> := [DocumentsView, DocumentsUpload]
  const AuditorGrants: seq<string> := [DocumentsView, AuditsExport]
  const ManagerGrants: seq<string> := [DocumentsView, DocumentsUpload, DocumentsDelete, AuditsExport]
  const AdminGrants: seq<string> := [OrgManage, DepartmentsManage, UsersInvite, UsersManage, RolesManage]

  /** `DEFAULT_ROLE_INHERITANCE`: (role, role it inherits from). */
  const Inheritance: seq<(string, string)> := [(OrgAdmin, ComplianceManager), (ComplianceManager, Member), (Auditor, Member)]

  datatype Store = Store(perms: seq<string>, rows: seq<Role>)

  /** The role table the permission walk sees: id `i + 1` for row `i`. */
  function TableOf(rows: seq<Role>): (t: RoleTable)
    ensures forall i :: 0 <= i < |rows| ==> i + 1 in t && t[i + 1] == rows[i]
    ensures forall id :: id in t ==> 1 <= id <= |rows|
  {
    map id | 1 <= id <= |rows| :: RowOf(rows, id)
  }

  function RowOf(rows: seq<Role>, id: int): Role
    requires 1 <= id <= |rows|
  {
    rows[id - 1]
  }

  predicate UniqueCodes(codes: seq<string>) {
    forall i, j :: 0 <= i < j < |codes| ==> codes[i] != codes[j]
  }

  /** The `(organization_id, name)` unique constraint of `rbac_roles`. */
  predicate UniqueNames(rows: seq<Role>) {
    forall i, j :: 0 <= i < j < |rows| ==> rows[i].orgId != rows[j].orgId || rows[i].name != rows[j].name
  }

  predicate ValidStore(s: Store) {
    UniqueCodes(s.perms) && UniqueNames(s.rows)
  }

  lemma PermissionCodesDistinct()
    ensures UniqueCodes(PermissionCodes)
  {
  }

  lemma SystemRolesDistinct()
    ensures OrgAdmin != ComplianceManager && OrgAdmin != Auditor && OrgAdmin != Member
    ensures ComplianceManager != Auditor && ComplianceManager != Member && Auditor != Member
    ensures |SystemRoles| == 4
  {
    assert OrgAdmin[0] != ComplianceManager[0];
  }

  // ---------------------------------------------------------------------
  // Permissions (lines 79-96)

  /** The codes of `codes` not in `existing`, in order. */
  function Missing(codes: seq<string>, existing: set<string>): (r: seq<string>)
    ensures forall c :: c in r <==> c in codes && c !in existing
    ensures UniqueCodes(codes) ==> UniqueCodes(r)
  {
    if codes == [] then []
    else
      var rest := Missing(codes[..|codes| - 1], existing);
      var c := codes[|codes| - 1];
      assert UniqueCodes(codes) ==> UniqueCodes(codes[..|codes| - 1]) && c !in codes[..|codes| - 1];
      if c in existing then rest else rest + [c]
  }

  /** The permission table after the loop over `PERMISSIONS`. */
  function AddPermissions(perms: seq<string>): (r: seq<string>)
    ensures |perms| <= |r| && r[..|perms|] == perms
    ensures forall c :: c in PermissionCodes ==> c in r
    ensures forall c :: c in r ==> c in perms || c in PermissionCodes
    ensures UniqueCodes(perms) ==> UniqueCodes(r)
    ensures (forall c :: c in PermissionCodes ==> c in perms) ==> r == perms
  {
    var missing := Missing(PermissionCodes, set c | c in perms && c in PermissionCodes);
    assert UniqueCodes(perms) ==> UniqueCodes(perms + missing) by {
      PermissionCodesDistinct();
      if UniqueCodes(perms) { UniqueAppend(perms, missing); }
    }
    assert (forall c :: c in PermissionCodes ==> c in perms) ==> missing == [] by {
      if |missing| > 0 { assert missing[0] in missing; }
    }
    perms + missing
  }

  lemma UniqueAppend(a: seq<string>, b: seq<string>)
    requires UniqueCodes(a) && UniqueCodes(b) && forall c :: c in b ==> c !in a
    ensures UniqueCodes(a + b)
  {
    forall i, j | 0 <= i < j < |a + b| ensures (a + b)[i] != (a + b)[j] {
      if j < |a| {
        assert (a + b)[i] == a[i] && (a + b)[j] == a[j];
      } else if i < |a| {
        assert (a + b)[i] == a[i] && (a + b)[j] == b[j - |a|] && b[j - |a|] in b;
      } else {
        assert (a + b)[i] == b[i - |a|] && (a + b)[j] == b[j - |a|];
      }
    }
  }

  // ---------------------------------------------------------------------
  // Roles (lines 98-117)

  predicate Named(r: Role, org: int, name: string) {
    r.orgId == org && r.name == name
  }

  /** `existing_roles.get(name)`: the row of the organisation with that name (the last one, as the dict keeps). */
  function FindRole(rows: seq<Role>, org: int, name: string): (r: Option<nat>)
    ensures r.Some? ==> r.value < |rows| && Named(rows[r.value], org, name)
  {
    if rows == [] then None
    else if Named(rows[|rows| - 1], org, name) then Some(|rows| - 1)
    else FindRole(rows[..|rows| - 1], org, name)
  }

  /** The row found is the last with that name, and none is found only when no row has it. */
  lemma {:induction false} FindRoleSpec(rows: seq<Role>, org: int, name: string)
    ensures var r := FindRole(rows, org, name);
      && (r.Some? ==> forall i :: r.value < i < |rows| ==> !Named(rows[i], org, name))
      && (r.None? <==> forall i :: 0 <= i < |rows| ==> !Named(rows[i], org, name))
  {
    if rows != [] && !Named(rows[|rows| - 1], org, name) {
      var init := rows[..|rows| - 1];
      FindRoleSpec(init, org, name);
      assert forall i :: 0 <= i < |init| ==> init[i] == rows[i];
    }
  }

  /** Under the unique constraint, the row found is the only one with that name. */
  lemma FindUnique(rows: seq<Role>, org: int, name: string, i: nat)
    requires UniqueNames(rows) && i < |rows| && Named(rows[i], org, name)
    ensures FindRole(rows, org, name) == Some(i)
  {
    FindRoleSpec(rows, org, name);
  }

  /** `get_or_create_role`: the rows afterwards and the position of the role. */
  function GetOrCreate(rows: seq<Role>, org: int, name: string): (res: (seq<Role>, nat))
    ensures res.1 < |res.0| && Named(res.0[res.1], org, name)
    ensures |rows| <= |res.0| <= |rows| + 1 && res.0[..|rows|] == rows
    ensures FindRole(rows, org, name).Some? ==> res.0 == rows
    ensures UniqueNames(rows) ==> UniqueNames(res.0)
  {
    match FindRole(rows, org, name)
    case Some(i) => (rows, i)
    case None =>
      FindRoleSpec(rows, org, name);
      (rows + [Role(org, name, true, [], [])], |rows|)
  }

  /** The positions of the four built-in roles. */
  datatype SystemIds = SystemIds(admin: nat, manager: nat, auditor: nat, member: nat)

  predicate IdsOk(rows: seq<Role>, org: int, ids: SystemIds) {
    && ids.admin < |rows| && Named(rows[ids.admin], org, OrgAdmin)
    && ids.manager < |rows| && Named(rows[ids.manager], org, ComplianceManager)
    && ids.auditor < |rows| && Named(rows[ids.auditor], org, Auditor)
    && ids.member < |rows| && Named(rows[ids.member], org, Member)
  }

  /** Lines 114-117. */
  function CreateSystemRoles(rows: seq<Role>, org: int): (res: (seq<Role>, SystemIds))
    ensures IdsOk(res.0, org, res.1)
    ensures |rows| <= |res.0| <= |rows| + 4 && res.0[..|rows|] == rows
    ensures UniqueNames(rows) ==> UniqueNames(res.0)
  {
    var (r1, a) := GetOrCreate(rows, org, OrgAdmin);
    var (r2, m) := GetOrCreate(r1, org, ComplianceManager);
    var (r3, au) := GetOrCreate(r2, org, Auditor);
    var (r4, me) := GetOrCreate(r3, org, Member);
    PrefixTrans(r2, r3, r4);
    PrefixTrans(r1, r2, r4);
    PrefixTrans(rows, r1, r4);
    (r4, SystemIds(a, m, au, me))
  }

  /** Extending an extension of `a` extends `a`, and keeps its rows. */
  lemma PrefixTrans(a: seq<Role>, b: seq<Role>, c: seq<Role>)
    requires |a| <= |b| && b[..|a|] == a
    requires |b| <= |c| && c[..|b|] == b
    ensures |a| <= |c| && c[..|a|] == a
    ensures forall i :: 0 <= i < |a| ==> c[i] == a[i]
  {
    assert c[..|a|] == b[..|a|];
  }

  // ---------------------------------------------------------------------
  // Grants and inheritance (lines 119-149)

  /** The same rows, names and organisations, with permissions and inheritance only added. */
  ghost predicate Grows(rows: seq<Role>, rows': seq<Role>) {
    && |rows'| == |rows|
    && (forall i :: 0 <= i < |rows| ==> rows'[i].orgId == rows[i].orgId && rows'[i].name == rows[i].name)
    && (forall i, c :: 0 <= i < |rows| && c in rows[i].permissions ==> c in rows'[i].permissions)
    && (forall i, x :: 0 <= i < |rows| && x in rows[i].inherits ==> x in rows'[i].inherits)
  }

  lemma GrowsTrans(a: seq<Role>, b: seq<Role>, c: seq<Role>)
    requires Grows(a, b) && Grows(b, c)
    ensures Grows(a, c)
  {
  }

  /** Growing rows keep the role each name is found at, and the unique constraint. */
  lemma GrowsKeepsFind(rows: seq<Role>, rows': seq<Role>, org: int, name: string)
    requires Grows(rows, rows')
    ensures FindRole(rows', org, name) == FindRole(rows, org, name)
    ensures UniqueNames(rows) ==> UniqueNames(rows')
  {
    var a, b := FindRole(rows, org, name), FindRole(rows', org, name);
    if a.Some? && b.Some? {
      assert Named(rows'[a.value], org, name);
      assert Named(rows[b.value], org, name);
    } else if a.Some? {
      assert Named(rows'[a.value], org, name);
    } else if b.Some? {
      assert Named(rows[b.value], org, name);
    }
  }

  /** A role's permission list after `grant(role, codes)`. */
  function Granted(have: seq<string>, codes: seq<string>, available: set<string>): (r: seq<string>)
    ensures forall c :: c in r <==> c in have || (c in codes && c in available)
    ensures |have| <= |r| && r[..|have|] == have
    ensures UniqueCodes(have) ==> UniqueCodes(r)
    ensures (forall c :: c in codes && c in available ==> c in have) ==> r == have
  {
    if codes == [] then have
    else
      var rest := Granted(have, codes[..|codes| - 1], available);
      var c := codes[|codes| - 1];
      if c !in available || c in rest then rest else rest + [c]
  }

  function GrantTo(rows: seq<Role>, i: nat, codes: seq<string>, available: set<string>): (r: seq<Role>)
    requires i < |rows|
    ensures Grows(rows, r)
    ensures forall c :: c in codes && c in available ==> c in r[i].permissions
    ensures forall k :: 0 <= k < |rows| && k != i ==> r[k] == rows[k]
    ensures (forall c :: c in codes && c in available ==> c in rows[i].permissions) ==> r == rows
  {
    rows[i := rows[i].(permissions := Granted(rows[i].permissions, codes, available))]
  }

  /** Appends `x` unless present. */
  function AddOnce(xs: seq<int>, x: int): (r: seq<int>)
    ensures x in r && forall y :: y in r <==> y in xs || y == x
    ensures x in xs ==> r == xs
  {
    if x in xs then xs else xs + [x]
  }

  /** `by_name`: the four built-in roles by name. */
  function ByName(ids: SystemIds, name: string): Option<nat> {
    if name == OrgAdmin then Some(ids.admin)
    else if name == ComplianceManager then Some(ids.manager)
    else if name == Auditor then Some(ids.auditor)
    else if name == Member then Some(ids.member)
    else None
  }

  predicate IdsIn(ids: SystemIds, n: nat) {
    ids.admin < n && ids.manager < n && ids.auditor < n && ids.member < n
  }

  /** Role `i` inherits from the role at position `j`. */
  function LinkTo(rows: seq<Role>, i: nat, j: nat): (r: seq<Role>)
    requires i < |rows|
    ensures Grows(rows, r) && j + 1 in r[i].inherits
    ensures forall k :: 0 <= k < |rows| && k != i ==> r[k] == rows[k]
    ensures j + 1 in rows[i].inherits ==> r == rows
  {
    rows[i := rows[i].(inherits := AddOnce(rows[i].inherits, j + 1))]
  }

  /** The inheritance loop over `edges`. */
  function LinkAll(rows: seq<Role>, ids: SystemIds, edges: seq<(string, string)>): (r: seq<Role>)
    requires IdsIn(ids, |rows|)
    ensures |r| == |rows|
  {
    if edges == [] then rows
    else
      var rest := LinkAll(rows, ids, edges[..|edges| - 1]);
      var (from, to) := edges[|edges| - 1];
      match (ByName(ids, from), ByName(ids, to))
      case (Some(i), Some(j)) => LinkTo(rest, i, j)
      case _ => rest
  }

  function GrantDefaults(rows: seq<Role>, ids: SystemIds, available: set<string>): seq<Role>
    requires IdsIn(ids, |rows|)
  {
    var r1 := GrantTo(rows, ids.member, MemberGrants, available);
    var r2 := GrantTo(r1, ids.auditor, AuditorGrants, available);
    var r3 := GrantTo(r2, ids.manager, ManagerGrants, available);
    GrantTo(r3, ids.admin, AdminGrants, available)
  }

  /** The full seeding after the fast exit (lines 79-151). */
  function SeedAll(s: Store, org: int): Store {
    var perms := AddPermissions(s.perms);
    var (rows, ids) := CreateSystemRoles(s.rows, org);
    var available := set c | c in perms && c in PermissionCodes;
    Store(perms, LinkAll(GrantDefaults(rows, ids, available), ids, Inheritance))
  }

  /** The number of the organisation's rows named like a built-in role (lines 65-72). */
  function CountSystem(rows: seq<Role>, org: int): nat {
    |set i | 0 <= i < |rows| && rows[i].orgId == org && rows[i].name in SystemRoles|
  }

  /** The store after `ensure_rbac_seeded_for_org(org)`. */
  function EnsureSeededState(s: Store, org: int): Store {
    if org == 0 then s
    else if CountSystem(s.rows, org) >= 4 then s
    else SeedAll(s, org)
  }

  // ---------------------------------------------------------------------
  // What seeding leaves behind

  /** Every code of `codes` is among `perms`. */
  predicate Holds(perms: seq<string>, codes: seq<string>) {
    forall c :: c in codes ==> c in perms
  }

  /** Role `name` of the organisation exists and holds every code of `codes`. */
  predicate HasGrants(rows: seq<Role>, org: int, name: string, codes: seq<string>) {
    match FindRole(rows, org, name)
    case None => false
    case Some(i) => Holds(rows[i].permissions, codes)
  }

  /** Role `from` of the organisation inherits from its role `to`. */
  predicate HasEdge(rows: seq<Role>, org: int, from: string, to: string) {
    match FindRole(rows, org, from)
    case None => false
    case Some(i) =>
      match FindRole(rows, org, to)
      case None => false
      case Some(j) => j + 1 in rows[i].inherits
  }

  /** Every permission, built-in role, default grant and inheritance edge is present. */
  predicate FullySeeded(s: Store, org: int) {
    && (forall c :: c in PermissionCodes ==> c in s.perms)
    && HasGrants(s.rows, org, Member, MemberGrants)
    && HasGrants(s.rows, org, Auditor, AuditorGrants)
    && HasGrants(s.rows, org, ComplianceManager, ManagerGrants)
    && HasGrants(s.rows, org, OrgAdmin, AdminGrants)
    && HasEdge(s.rows, org, OrgAdmin, ComplianceManager)
    && HasEdge(s.rows, org, ComplianceManager, Member)
    && HasEdge(s.rows, org, Auditor, Member)
  }

  lemma ByNameSystem(ids: SystemIds)
    ensures ByName(ids, OrgAdmin) == Some(ids.admin)
    ensures ByName(ids, ComplianceManager) == Some(ids.manager)
    ensures ByName(ids, Auditor) == Some(ids.auditor)
    ensures ByName(ids, Member) == Some(ids.member)
  {
    SystemRolesDistinct();
  }

  /** The inheritance loop adds exactly the three default edges, in order. */
  lemma LinkAllDefaults(rows: seq<Role>, ids: SystemIds)
    requires IdsIn(ids, |rows|)
    ensures LinkAll(rows, ids, Inheritance) ==
      LinkTo(LinkTo(LinkTo(rows, ids.admin, ids.manager), ids.manager, ids.member), ids.auditor, ids.member)
  {
    ByNameSystem(ids);
    var e := Inheritance;
    assert e[..1][..0] == [] && e[..2][..1] == e[..1] && e[..3] == e;
    var l0 := LinkAll(rows, ids, e[..0]);
    assert l0 == rows;
    var l1 := LinkAll(rows, ids, e[..1]);
    assert l1 == LinkTo(rows, ids.admin, ids.manager) by {
      assert e[..1][0] == (OrgAdmin, ComplianceManager);
    }
    var l2 := LinkAll(rows, ids, e[..2]);
    assert l2 == LinkTo(l1, ids.manager, ids.member) by {
      assert e[..2][1] == (ComplianceManager, Member);
    }
    assert LinkAll(rows, ids, e) == LinkTo(l2, ids.auditor, ids.member) by {
      assert e[2] == (Auditor, Member);
    }
  }

  /** The four built-in roles are where their names are found. */
  lemma CreatedRolesFound(rows: seq<Role>, org: int)
    requires UniqueNames(rows)
    ensures var (rs, ids) := CreateSystemRoles(rows, org);
      && FindRole(rs, org, OrgAdmin) == Some(ids.admin)
      && FindRole(rs, org, ComplianceManager) == Some(ids.manager)
      && FindRole(rs, org, Auditor) == Some(ids.auditor)
      && FindRole(rs, org, Member) == Some(ids.member)
  {
    var (rs, ids) := CreateSystemRoles(rows, org);
    FindUnique(rs, org, OrgAdmin, ids.admin);
    FindUnique(rs, org, ComplianceManager, ids.manager);
    FindUnique(rs, org, Auditor, ids.auditor);
    FindUnique(rs, org, Member, ids.member);
  }

  /** The default grants and edges, at the positions of the four roles. */
  ghost predicate SeededAt(rows: seq<Role>, ids: SystemIds)
    requires IdsIn(ids, |rows|)
  {
    && (Holds(rows[ids.member].permissions, MemberGrants))
    && (Holds(rows[ids.auditor].permissions, AuditorGrants))
    && (Holds(rows[ids.manager].permissions, ManagerGrants))
    && (Holds(rows[ids.admin].permissions, AdminGrants))
    && ids.manager + 1 in rows[ids.admin].inherits
    && ids.member + 1 in rows[ids.manager].inherits
    && ids.member + 1 in rows[ids.auditor].inherits
  }

  /** `HasGrants` at the row the name is found at. */
  lemma HasGrantsAt(rows: seq<Role>, org: int, name: string, codes: seq<string>, i: nat)
    requires FindRole(rows, org, name) == Some(i)
    ensures i < |rows|
    ensures HasGrants(rows, org, name, codes) <==> Holds(rows[i].permissions, codes)
  {
  }

  /** `HasEdge` at the rows the two names are found at. */
  lemma HasEdgeAt(rows: seq<Role>, org: int, from: string, to: string, i: nat, j: nat)
    requires FindRole(rows, org, from) == Some(i) && FindRole(rows, org, to) == Some(j)
    ensures i < |rows|
    ensures HasEdge(rows, org, from, to) <==> j + 1 in rows[i].inherits
  {
  }

  lemma SeededAtFull(s: Store, org: int, ids: SystemIds)
    requires UniqueNames(s.rows) && IdsOk(s.rows, org, ids) && SeededAt(s.rows, ids)
    requires forall c :: c in PermissionCodes ==> c in s.perms
    ensures FullySeeded(s, org)
  {
    var rows, a, m, au, me := s.rows, ids.admin, ids.manager, ids.auditor, ids.member;
    FindUnique(rows, org, OrgAdmin, a);
    FindUnique(rows, org, ComplianceManager, m);
    FindUnique(rows, org, Auditor, au);
    FindUnique(rows, org, Member, me);
    HasGrantsAt(rows, org, Member, MemberGrants, me);
    HasGrantsAt(rows, org, Auditor, AuditorGrants, au);
    HasGrantsAt(rows, org, ComplianceManager, ManagerGrants, m);
    HasGrantsAt(rows, org, OrgAdmin, AdminGrants, a);
    HasEdgeAt(rows, org, OrgAdmin, ComplianceManager, a, m);
    HasEdgeAt(rows, org, ComplianceManager, Member, m, me);
    HasEdgeAt(rows, org, Auditor, Member, au, me);
  }

  lemma FullySeededAt(s: Store, org: int, ids: SystemIds)
    requires FullySeeded(s, org) && IdsIn(ids, |s.rows|)
    requires FindRole(s.rows, org, OrgAdmin) == Some(ids.admin)
    requires FindRole(s.rows, org, ComplianceManager) == Some(ids.manager)
    requires FindRole(s.rows, org, Auditor) == Some(ids.auditor)
    requires FindRole(s.rows, org, Member) == Some(ids.member)
    ensures SeededAt(s.rows, ids)
  {
    var rows, a, m, au, me := s.rows, ids.admin, ids.manager, ids.auditor, ids.member;
    HasGrantsAt(rows, org, Member, MemberGrants, me);
    HasGrantsAt(rows, org, Auditor, AuditorGrants, au);
    HasGrantsAt(rows, org, ComplianceManager, ManagerGrants, m);
    HasGrantsAt(rows, org, OrgAdmin, AdminGrants, a);
    HasEdgeAt(rows, org, OrgAdmin, ComplianceManager, a, m);
    HasEdgeAt(rows, org, ComplianceManager, Member, m, me);
    HasEdgeAt(rows, org, Auditor, Member, au, me);
  }

  lemma GrowsKeepsSeeded(rows: seq<Role>, rows': seq<Role>, org: int, ids: SystemIds)
    requires Grows(rows, rows') && IdsOk(rows, org, ids)
    ensures IdsOk(rows', org, ids)
    ensures SeededAt(rows, ids) ==> SeededAt(rows', ids)
  {
  }

  lemma GrantDefaultsSpec(rows: seq<Role>, ids: SystemIds, available: set<string>)
    requires IdsIn(ids, |rows|)
    requires forall c :: c in PermissionCodes ==> c in available
    ensures var g := GrantDefaults(rows, ids, available);
      && Grows(rows, g)
      && (Holds(g[ids.member].permissions, MemberGrants))
      && (Holds(g[ids.auditor].permissions, AuditorGrants))
      && (Holds(g[ids.manager].permissions, ManagerGrants))
      && (Holds(g[ids.admin].permissions, AdminGrants))
  {
    var g1 := GrantTo(rows, ids.member, MemberGrants, available);
    var g2 := GrantTo(g1, ids.auditor, AuditorGrants, available);
    var g3 := GrantTo(g2, ids.manager, ManagerGrants, available);
    var g4 := GrantTo(g3, ids.admin, AdminGrants, available);
    GrowsTrans(rows, g1, g2);
    GrowsTrans(rows, g2, g3);
    GrowsTrans(rows, g3, g4);
    GrowsTrans(g1, g2, g3);
    GrowsTrans(g1, g3, g4);
    GrowsTrans(g2, g3, g4);
  }

  lemma LinkDefaultsSpec(rows: seq<Role>, ids: SystemIds)
    requires IdsIn(ids, |rows|)
    ensures var l := LinkAll(rows, ids, Inheritance);
      && Grows(rows, l)
      && ids.manager + 1 in l[ids.admin].inherits
      && ids.member + 1 in l[ids.manager].inherits
      && ids.member + 1 in l[ids.auditor].inherits
  {
    LinkAllDefaults(rows, ids);
    var l1 := LinkTo(rows, ids.admin, ids.manager);
    var l2 := LinkTo(l1, ids.manager, ids.member);
    var l3 := LinkTo(l2, ids.auditor, ids.member);
    GrowsTrans(rows, l1, l2);
    GrowsTrans(rows, l2, l3);
    GrowsTrans(l1, l2, l3);
  }

  /** Seeding keeps the store valid and leaves the organisation fully seeded. */
  lemma SeedAllEstablishes(s: Store, org: int)
    requires ValidStore(s)
    ensures ValidStore(SeedAll(s, org)) && FullySeeded(SeedAll(s, org), org)
  {
    var perms := AddPermissions(s.perms);
    var (rows, ids) := CreateSystemRoles(s.rows, org);
    var available := set c | c in perms && c in PermissionCodes;
    var g := GrantDefaults(rows, ids, available);
    GrantDefaultsSpec(rows, ids, available);
    var l := LinkAll(g, ids, Inheritance);
    LinkDefaultsSpec(g, ids);
    GrowsKeepsSeeded(rows, g, org, ids);
    GrowsKeepsSeeded(g, l, org, ids);
    assert SeededAt(l, ids) by {
      assert Holds(l[ids.member].permissions, MemberGrants);
      assert Holds(l[ids.auditor].permissions, AuditorGrants);
      assert Holds(l[ids.manager].permissions, ManagerGrants);
      assert Holds(l[ids.admin].permissions, AdminGrants);
    }
    GrowsKeepsFind(rows, g, org, OrgAdmin);
    GrowsKeepsFind(g, l, org, OrgAdmin);
    assert SeedAll(s, org) == Store(perms, l);
    SeededAtFull(Store(perms, l), org, ids);
  }

  lemma SeededAtNoOp(rows: seq<Role>, ids: SystemIds, available: set<string>)
    requires IdsIn(ids, |rows|) && SeededAt(rows, ids)
    ensures GrantDefaults(rows, ids, available) == rows
    ensures LinkAll(rows, ids, Inheritance) == rows
  {
    GrantDefaultsNoOp(rows, ids, available);
    LinkDefaultsNoOp(rows, ids);
  }

  lemma GrantDefaultsNoOp(rows: seq<Role>, ids: SystemIds, available: set<string>)
    requires IdsIn(ids, |rows|) && SeededAt(rows, ids)
    ensures GrantDefaults(rows, ids, available) == rows
  {
    assert GrantTo(rows, ids.member, MemberGrants, available) == rows;
    assert GrantTo(rows, ids.auditor, AuditorGrants, available) == rows;
    assert GrantTo(rows, ids.manager, ManagerGrants, available) == rows;
    assert GrantTo(rows, ids.admin, AdminGrants, available) == rows;
  }

  lemma LinkDefaultsNoOp(rows: seq<Role>, ids: SystemIds)
    requires IdsIn(ids, |rows|) && SeededAt(rows, ids)
    ensures LinkAll(rows, ids, Inheritance) == rows
  {
    LinkToNoOp(rows, ids.admin, ids.manager);
    LinkToNoOp(rows, ids.manager, ids.member);
    LinkToNoOp(rows, ids.auditor, ids.member);
    LinkAllDefaults(rows, ids);
  }

  lemma LinkToNoOp(rows: seq<Role>, i: nat, j: nat)
    requires i < |rows| && j + 1 in rows[i].inherits
    ensures LinkTo(rows, i, j) == rows
  {
  }

  /** On a fully seeded organisation the full seeding changes nothing. */
  lemma SeedAllNoOp(s: Store, org: int)
    requires ValidStore(s) && FullySeeded(s, org)
    ensures SeedAll(s, org) == s
  {
    var perms := AddPermissions(s.perms);
    var (rows, ids) := CreateSystemRoles(s.rows, org);
    assert rows == s.rows;
    CreatedRolesFound(s.rows, org);
    FullySeededAt(s, org, ids);
    var available := set c | c in perms && c in PermissionCodes;
    SeededAtNoOp(rows, ids, available);
  }

  /** Running `ensure_rbac_seeded_for_org` twice is the same as running it once. */
  lemma EnsureSeededIdempotent(s: Store, org: int)
    requires ValidStore(s)
    ensures EnsureSeededState(EnsureSeededState(s, org), org) == EnsureSeededState(s, org)
  {
    if org != 0 && CountSystem(s.rows, org) < 4 {
      SeedAllEstablishes(s, org);
      var s' := SeedAll(s, org);
      if CountSystem(s'.rows, org) < 4 {
        SeedAllNoOp(s', org);
      }
    }
  }

  // ---------------------------------------------------------------------
  // The fast exit (lines 56-77)

  lemma SubsetCard<T>(a: set<T>, b: set<T>)
    requires a <= b
    ensures |a| <= |b|
  {
    assert b == a + (b - a);
  }

  lemma SubsetSameCard<T>(a: set<T>, b: set<T>)
    requires a <= b && |b| <= |a|
    ensures a == b
  {
    assert b == a + (b - a);
    assert |b - a| == 0;
    assert b - a == {};
  }

  /** The rows of the organisation named like a built-in role. */
  function SystemRows(rows: seq<Role>, org: int): set<int> {
    set i | 0 <= i < |rows| && rows[i].orgId == org && rows[i].name in SystemRoles
  }

  /** Once the four built-in roles exist, seeding takes the fast exit and changes nothing. */
  lemma FastExitWhenPresent(s: Store, org: int)
    requires FindRole(s.rows, org, OrgAdmin).Some? && FindRole(s.rows, org, ComplianceManager).Some?
    requires FindRole(s.rows, org, Auditor).Some? && FindRole(s.rows, org, Member).Some?
    ensures CountSystem(s.rows, org) >= 4
    ensures EnsureSeededState(s, org) == s
  {
    var rows := s.rows;
    var a, m := FindRole(rows, org, OrgAdmin).value, FindRole(rows, org, ComplianceManager).value;
    var au, me := FindRole(rows, org, Auditor).value, FindRole(rows, org, Member).value;
    var four := {a, m, au, me};
    assert |four| == 4 by {
      SystemRolesDistinct();
      assert rows[a].name == OrgAdmin && rows[m].name == ComplianceManager;
      assert rows[au].name == Auditor && rows[me].name == Member;
    }
    assert four <= SystemRows(rows, org) by {
      assert Named(rows[a], org, OrgAdmin) && Named(rows[m], org, ComplianceManager);
      assert Named(rows[au], org, Auditor) && Named(rows[me], org, Member);
    }
    SubsetCard(four, SystemRows(rows, org));
  }

  /** Distinct rows of one set have distinct names: as many names as rows. */
  lemma {:induction false} NamesCard(rows: seq<Role>, ix: set<int>)
    requires forall i :: i in ix ==> 0 <= i < |rows|
    requires forall i, j :: i in ix && j in ix && i != j ==> rows[i].name != rows[j].name
    ensures |set i | i in ix :: rows[i].name| == |ix|
    decreases ix
  {
    if |ix| > 0 {
      var x := Pick(ix);
      var rest := ix - {x};
      NamesCard(rows, rest);
      assert (set i | i in ix :: rows[i].name) == (set i | i in rest :: rows[i].name) + {rows[x].name};
      assert rows[x].name !in (set i | i in rest :: rows[i].name);
    }
  }

  /** Under the unique constraint, the fast exit is taken only when all four built-in roles exist. */
  lemma FastExitMeansPresent(rows: seq<Role>, org: int)
    requires UniqueNames(rows) && CountSystem(rows, org) >= 4
    ensures FindRole(rows, org, OrgAdmin).Some? && FindRole(rows, org, ComplianceManager).Some?
    ensures FindRole(rows, org, Auditor).Some? && FindRole(rows, org, Member).Some?
  {
    var ix := SystemRows(rows, org);
    var names := set i | i in ix :: rows[i].name;
    NamesCard(rows, ix);
    SystemRolesDistinct();
    SubsetSameCard(names, SystemRoles);
    forall n | n in SystemRoles ensures FindRole(rows, org, n).Some? {
      assert n in names;
      var i :| i in ix && rows[i].name == n;
      assert Named(rows[i], org, n);
      FindRoleSpec(rows, org, n);
    }
  }
}
