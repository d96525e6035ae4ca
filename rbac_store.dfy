/**
 * `ensure_rbac_seeded_for_org` and `choose_default_role_id_for_membership`
 * as they run: step by step against a store whose permission and role
 * tables they append to, each step proved to compute the corresponding
 * function of `RbacSeed`.
 */
module RbacStore {
  import opened Wrappers
  import opened Text
  import opened Rbac
  import opened RbacSeed

  /** The two membership columns `choose_default_role_id_for_membership` reads. */
  datatype LegacyMembership = LegacyMembership(orgId: int, role: Option<string>)

  /** The built-in role a legacy membership falls back to. */
  function DefaultRoleName(role: Option<string>): (name: string)
    ensures name == OrgAdmin <==> IsLegacyAdmin(role)
    ensures name == OrgAdmin || name == Member
  {
    SystemRolesDistinct();
    if IsLegacyAdmin(role) then OrgAdmin else Member
  }

  /** The permission table and the role table, with their association lists. */
  class Database {
    var perms: seq<string>
    var rows: seq<Role>

    function State(): Store
      reads this
    {
      Store(perms, rows)
    }

    ghost predicate Valid()
      reads this
    {
      ValidStore(State())
    }

    constructor (s: Store)
      ensures State() == s
    {
      perms := s.perms;
      rows := s.rows;
    }

    /** The loop over `PERMISSIONS` (lines 79-96): codes not yet present are added, in order. */
    method AddMissingPermissions()
      modifies this
      ensures perms == AddPermissions(old(perms)) && rows == old(rows)
    {
      var existing := set c | c in perms && c in PermissionCodes;
      ghost var start := perms;
      var i := 0;
      while i < |PermissionCodes|
        invariant 0 <= i <= |PermissionCodes|
        invariant perms == start + Missing(PermissionCodes[..i], existing)
        invariant rows == old(rows)
      {
        var code := PermissionCodes[i];
        assert PermissionCodes[..i + 1][..i] == PermissionCodes[..i];
        if code !in existing {
          perms := perms + [code];
        }
        i := i + 1;
      }
      assert PermissionCodes[..i] == PermissionCodes;
    }

    /** `get_or_create_role` (lines 104-112): the position of the role, created if missing. */
    method GetOrCreateRole(org: int, name: string) returns (i: nat)
      modifies this
      ensures (rows, i) == GetOrCreate(old(rows), org, name) && perms == old(perms)
    {
      match FindRole(rows, org, name)
      case Some(k) =>
        i := k;
      case None =>
        rows := rows + [Role(org, name, true, [], [])];
        i := |rows| - 1;
    }

    /** `grant` (lines 126-133): each available code not yet held is appended to the role's permissions. */
    method Grant(i: nat, codes: seq<string>, available: set<string>)
      requires i < |rows|
      modifies this
      ensures rows == GrantTo(old(rows), i, codes, available) && perms == old(perms)
    {
      ghost var start := rows;
      var j := 0;
      while j < |codes|
        invariant 0 <= j <= |codes| && |rows| == |start|
        invariant rows == start[i := start[i].(permissions := Granted(start[i].permissions, codes[..j], available))]
        invariant perms == old(perms)
      {
        var code := codes[j];
        assert codes[..j + 1][..j] == codes[..j];
        if code in available && code !in rows[i].permissions {
          rows := rows[i := rows[i].(permissions := rows[i].permissions + [code])];
        }
        j := j + 1;
      }
      assert codes[..j] == codes;
    }

    /** One edge (lines 146-149): role `i` gets parent id `j + 1` unless it already has it. */
    method AddInherit(i: nat, j: nat)
      requires i < |rows|
      modifies this
      ensures rows == LinkTo(old(rows), i, j) && perms == old(perms)
    {
      if j + 1 !in rows[i].inherits {
        LinkToAppends(rows, i, j);
        rows := rows[i := rows[i].(inherits := rows[i].inherits + [j + 1])];
      }
    }

    /** The loop over `DEFAULT_ROLE_INHERITANCE` (lines 141-149), over any edge list: missing edges are appended. */
    method LinkEdges(ids: SystemIds, edges: seq<(string, string)>)
      requires IdsIn(ids, |rows|)
      modifies this
      ensures rows == LinkAll(old(rows), ids, edges) && perms == old(perms)
    {
      ghost var start := rows;
      var k := 0;
      while k < |edges|
        invariant 0 <= k <= |edges| && |rows| == |start|
        invariant rows == LinkAll(start, ids, edges[..k])
        invariant perms == old(perms)
      {
        var r, inh := ByName(ids, edges[k].0), ByName(ids, edges[k].1);
        LinkAllStep(start, ids, edges, k);
        if r.Some? && inh.Some? {
          ByNameIn(ids, |rows|, edges[k].0);
          AddInherit(r.value, inh.value);
        }
        k := k + 1;
      }
      assert edges[..k] == edges;
    }

    /** `ensure_rbac_seeded_for_org` (lines 49-151). */
    method EnsureSeeded(org: int)
      requires Valid()
      modifies this
      ensures Valid()
      ensures State() == EnsureSeededState(old(State()), org)
    {
      if org == 0 {
        return;
      }
      if CountSystem(rows, org) >= 4 {
        return;
      }
      ghost var s := State();
      AddMissingPermissions();
      ghost var rows0 := rows;
      var a := GetOrCreateRole(org, OrgAdmin);
      var m := GetOrCreateRole(org, ComplianceManager);
      var au := GetOrCreateRole(org, Auditor);
      var me := GetOrCreateRole(org, Member);
      var ids := SystemIds(a, m, au, me);
      assert (rows, ids) == CreateSystemRoles(rows0, org);
      var available := set c | c in perms && c in PermissionCodes;
      Grant(me, MemberGrants, available);
      Grant(au, AuditorGrants, available);
      Grant(m, ManagerGrants, available);
      Grant(a, AdminGrants, available);
      LinkEdges(ids, Inheritance);
      assert State() == SeedAll(s, org);
      SeedAllEstablishes(s, org);
    }

    /** `choose_default_role_id_for_membership` (lines 154-174): the id of the role a legacy membership maps to. */
    method ChooseDefaultRoleId(mem: Option<LegacyMembership>) returns (id: Option<int>)
      requires Valid()
      modifies this
      ensures Valid()
      ensures mem.None? || mem.value.orgId == 0 ==> id.None? && State() == old(State())
      ensures mem.Some? && mem.value.orgId != 0 ==>
        && State() == EnsureSeededState(old(State()), mem.value.orgId)
        && id.Some? && 1 <= id.value <= |rows|
        && Named(rows[id.value - 1], mem.value.orgId, DefaultRoleName(mem.value.role))
    {
      if mem.None? || mem.value.orgId == 0 {
        return None;
      }
      var org := mem.value.orgId;
      ghost var s := State();
      EnsureSeeded(org);
      var name := DefaultRoleName(mem.value.role);
      SeededHasRoles(s, org);
      match FindRole(rows, org, name)
      case Some(k) =>
        id := Some(k + 1);
      case None =>
        assert false;
    }
  }

  /** One more edge of the inheritance loop. */
  lemma LinkAllStep(rows: seq<Role>, ids: SystemIds, edges: seq<(string, string)>, k: nat)
    requires IdsIn(ids, |rows|) && k < |edges|
    ensures var before := LinkAll(rows, ids, edges[..k]);
      var r, inh := ByName(ids, edges[k].0), ByName(ids, edges[k].1);
      LinkAll(rows, ids, edges[..k + 1]) == if r.Some? && inh.Some? then LinkTo(before, r.value, inh.value) else before
  {
    assert edges[..k + 1][..k] == edges[..k];
  }

  lemma ByNameIn(ids: SystemIds, n: nat, name: string)
    requires IdsIn(ids, n)
    ensures ByName(ids, name).Some? ==> ByName(ids, name).value < n
  {
  }

  /** A missing edge is appended at the end of the association list. */
  lemma LinkToAppends(rows: seq<Role>, i: nat, j: nat)
    requires i < |rows| && j + 1 !in rows[i].inherits
    ensures LinkTo(rows, i, j) == rows[i := rows[i].(inherits := rows[i].inherits + [j + 1])]
  {
  }

  /** After `ensure_rbac_seeded_for_org`, the organisation has all four built-in roles. */
  lemma SeededHasRoles(s: Store, org: int)
    requires ValidStore(s) && org != 0
    ensures var s' := EnsureSeededState(s, org);
      && FindRole(s'.rows, org, OrgAdmin).Some? && FindRole(s'.rows, org, ComplianceManager).Some?
      && FindRole(s'.rows, org, Auditor).Some? && FindRole(s'.rows, org, Member).Some?
  {
    if CountSystem(s.rows, org) >= 4 {
      FastExitMeansPresent(s.rows, org);
    } else {
      SeedAllEstablishes(s, org);
    }
  }
}
