/**
 * Role-based access control: the role table, the cycle-safe walk of
 * `RBACRole.effective_permission_codes`, proved equal to the permission
 * codes of every role reachable through `inherits`, and `User.has_permission`
 * with its per-request cache of role permission codes.
 */
module Rbac {
  import opened Wrappers
  import opened Text

  /**
   * One row of `rbac_roles` with its two association lists: the codes of
   * its permissions (codes are unique, so a permission is identified by its
   * code) and the ids of the roles it inherits from.
   */
  datatype Role = Role(orgId: int, name: string, isSystem: bool, permissions: seq<string>, inherits: seq<int>)

  type RoleTable = map<int, Role>

  /** A role the walk enters: it has a (non-zero) id and exists. */
  predicate Live(t: RoleTable, id: int) { id != 0 && id in t }

  /** A chain of live roles, each inheriting from the next. */
  ghost predicate IsChain(t: RoleTable, p: seq<int>) {
    && |p| >= 1
    && (forall i :: 0 <= i < |p| ==> Live(t, p[i]))
    && (forall i :: 0 <= i < |p| - 1 ==> p[i + 1] in t[p[i]].inherits)
  }

  ghost predicate Reaches(t: RoleTable, a: int, b: int) {
    exists p :: IsChain(t, p) && p[0] == a && p[|p| - 1] == b
  }

  /** The roles reachable from `a` through `inherits`, `a` included when it is live. */
  ghost function ReachSet(t: RoleTable, a: int): set<int> {
    set b | b in t.Keys && Reaches(t, a, b)
  }

  /** The stripped, non-empty permission codes of one role. */
  function RoleCodes(r: Role): set<string> {
    CodesIn(r.permissions)
  }

  /** The stripped, non-empty codes of a list of permissions. */
  function CodesIn(perms: seq<string>): set<string> {
    if perms == [] then {}
    else
      var c := Strip(perms[|perms| - 1]);
      CodesIn(perms[..|perms| - 1]) + (if c != "" then {c} else {})
  }

  /** A non-empty code with no whitespace at either end. */
  predicate Plain(p: string) {
    p != "" && !IsSpace(p[0]) && !IsSpace(p[|p| - 1])
  }

  /** Adding one permission at the end adds its stripped code, if any. */
  lemma CodesInSnoc(init: seq<string>, last: string)
    ensures CodesIn(init + [last]) == CodesIn(init) + (if Strip(last) != "" then {Strip(last)} else {})
  {
    assert (init + [last])[..|init|] == init;
  }

  /** Codes that need no stripping are their own stripped codes. */
  lemma {:induction false} CodesInPlain(perms: seq<string>)
    requires forall i :: 0 <= i < |perms| ==> Plain(perms[i])
    ensures forall c :: c in CodesIn(perms) <==> c in perms
  {
    if perms != [] {
      var n := |perms| - 1;
      var init, last := perms[..n], perms[n];
      assert perms == init + [last];
      assert Plain(last);
      assert forall i :: 0 <= i < |init| ==> Plain(init[i]) by {
        forall i | 0 <= i < |init| ensures Plain(init[i]) {
          assert init[i] == perms[i];
        }
      }
      CodesInPlain(init);
      StripNoOp(last);
      CodesInSnoc(init, last);
      forall c ensures c in CodesIn(perms) <==> c in perms {
        assert c in perms <==> c in init || c == last;
      }
    }
  }

  ghost function Pick<T>(s: set<T>): (x: T)
    requires s != {}
    ensures x in s
  {
    assert |s| > 0;
    var x :| x in s; x
  }

  /** The codes of a set of roles, one role at a time. */
  ghost function CodesOf(t: RoleTable, s: set<int>): set<string>
    decreases s
  {
    if s == {} then {}
    else
      var x := Pick(s);
      CodesOf(t, s - {x}) + (if x in t then RoleCodes(t[x]) else {})
  }

  /** A code of a set of roles is a code of one of its roles, whatever order they are taken in. */
  lemma {:induction false} CodesOfMember(t: RoleTable, s: set<int>, c: string)
    ensures c in CodesOf(t, s) <==> exists x :: x in s && x in t && c in RoleCodes(t[x])
    decreases s
  {
    if s != {} {
      var x := Pick(s);
      CodesOfMember(t, s - {x}, c);
      if exists y :: y in s && y in t && c in RoleCodes(t[y]) {
        var y :| y in s && y in t && c in RoleCodes(t[y]);
        if y != x {
          assert y in s - {x};
        }
      }
    }
  }

  /** The codes `effective_permission_codes` promises for role `a`. */
  ghost function EffectiveCodes(t: RoleTable, a: int): set<string> {
    CodesOf(t, ReachSet(t, a))
  }

  /** Every live role inherited by a role of `from` is in `into`. */
  ghost predicate ClosedInto(t: RoleTable, from: set<int>, into: set<int>) {
    forall x, c :: x in from && x in t && c in t[x].inherits && Live(t, c) ==> c in into
  }

  ghost predicate Closed(t: RoleTable, s: set<int>) {
    ClosedInto(t, s, s)
  }

  lemma CodesOfAdd(t: RoleTable, s: set<int>, x: int)
    requires x in t
    ensures CodesOf(t, s + {x}) == CodesOf(t, s) + RoleCodes(t[x])
  {
    forall c ensures c in CodesOf(t, s + {x}) <==> c in CodesOf(t, s) + RoleCodes(t[x]) {
      CodesOfMember(t, s + {x}, c);
      CodesOfMember(t, s, c);
    }
  }

  /** A chain can be extended at its front by an inheriting role. */
  lemma ReachesStep(t: RoleTable, a: int, b: int, x: int)
    requires Live(t, a) && b in t[a].inherits && Reaches(t, b, x)
    ensures Reaches(t, a, x)
  {
    var p :| IsChain(t, p) && p[0] == b && p[|p| - 1] == x;
    var q := [a] + p;
    assert forall i :: 0 <= i < |q| - 1 ==> q[i + 1] in t[q[i]].inherits by {
      forall i | 0 <= i < |q| - 1 ensures q[i + 1] in t[q[i]].inherits {
        if i > 0 { assert q[i] == p[i - 1] && q[i + 1] == p[i]; }
      }
    }
    assert IsChain(t, q);
  }

  /** Every role of `s` is reachable from `a`. */
  ghost predicate AllReached(t: RoleTable, a: int, s: set<int>) {
    forall x :: x in s ==> Reaches(t, a, x)
  }

  /** What the walk of a child adds is reachable from the parent. */
  lemma ReachedThroughChild(t: RoleTable, a: int, b: int, start: set<int>, mid: set<int>, end: set<int>)
    requires Live(t, a) && b in t[a].inherits
    requires AllReached(t, a, mid - start) && AllReached(t, b, end - mid)
    ensures AllReached(t, a, end - start)
  {
    forall x | x in end - start ensures Reaches(t, a, x) {
      if x !in mid {
        ReachesStep(t, a, b, x);
      }
    }
  }

  lemma ReachesSelf(t: RoleTable, a: int)
    requires Live(t, a)
    ensures Reaches(t, a, a)
  {
    assert IsChain(t, [a]);
  }

  /** A closed set holding `a` holds every role reachable from `a`. */
  lemma ClosedHoldsReach(t: RoleTable, s: set<int>, a: int)
    requires Closed(t, s) && a in s
    ensures ReachSet(t, a) <= s
  {
    forall b | b in ReachSet(t, a) ensures b in s {
      var p :| IsChain(t, p) && p[0] == a && p[|p| - 1] == b;
      ChainInside(t, s, p, |p| - 1);
    }
  }

  lemma {:induction false} ChainInside(t: RoleTable, s: set<int>, p: seq<int>, k: nat)
    requires Closed(t, s) && IsChain(t, p) && p[0] in s && k < |p|
    ensures p[k] in s
  {
    if k > 0 {
      ChainInside(t, s, p, k - 1);
      assert p[k] in t[p[k - 1]].inherits;
    }
  }

  /** No role is reachable from a role the walk does not enter. */
  lemma DeadReachesNothing(t: RoleTable, a: int)
    requires !Live(t, a)
    ensures ReachSet(t, a) == {}
  {
  }

  /** The stripped, non-empty codes of `perms`, gathered one permission at a time. */
  method CollectCodes(perms: seq<string>) returns (found: set<string>)
    ensures found == CodesIn(perms)
  {
    found := {};
    var i := 0;
    while i < |perms|
      invariant 0 <= i <= |perms|
      invariant found == CodesIn(perms[..i])
    {
      var c := Strip(perms[i]);
      ghost var next := perms[..i + 1];
      assert next[..i] == perms[..i] && next[i] == perms[i];
      if c != "" {
        found := found + {c};
        assert found == CodesIn(next);
      } else {
        assert found == CodesIn(next);
      }
      i := i + 1;
    }
    assert perms[..i] == perms;
  }

  /**
   * The state of one call of `effective_permission_codes`: the `seen_role_ids`
   * and `codes` sets the nested `walk` updates. `active` (the roles whose walk
   * is in progress) and `visits` (the order roles were entered) exist only for
   * the proof.
   */
  class PermissionWalk {
    const table: RoleTable
    var seen: set<int>
    var codes: set<string>
    ghost var active: set<int>
    ghost var visits: seq<int>

    ghost predicate Inv()
      reads this
    {
      && active <= seen
      && (forall x :: x in seen ==> Live(table, x))
      && ClosedInto(table, seen - active, seen)
      && codes == CodesOf(table, seen)
      && (forall i, j :: 0 <= i < j < |visits| ==> visits[i] != visits[j])
      && (forall x :: x in seen <==> x in visits)
    }

    constructor (t: RoleTable)
      ensures table == t && seen == {} && codes == {} && active == {} && visits == []
      ensures Inv()
    {
      table := t;
      seen := {};
      codes := {};
      active := {};
      visits := [];
    }

    /** Marks `rid` seen and adds the codes of its own permissions (lines 315-320). */
    method Enter(rid: int)
      requires Inv() && Live(table, rid) && rid !in seen
      modifies this
      ensures Inv()
      ensures seen == old(seen) + {rid} && active == old(active) + {rid}
      ensures visits == old(visits) + [rid]
    {
      CodesOfAdd(table, seen, rid);
      seen := seen + {rid};
      visits := visits + [rid];
      active := active + {rid};
      AddCodes(table[rid].permissions);
      assert seen - active == old(seen) - old(active);
    }

    /** The loop over the role's permissions (lines 317-320). */
    method AddCodes(perms: seq<string>)
      modifies this`codes
      ensures codes == old(codes) + CodesIn(perms)
    {
      var added := CollectCodes(perms);
      codes := codes + added;
    }

    /** Ends the walk of `rid` once every role it inherits from is seen. */
    method Leave(rid: int)
      requires Inv() && rid in active
      requires forall c :: c in table[rid].inherits && Live(table, c) ==> c in seen
      modifies this`active
      ensures Inv() && active == old(active) - {rid}
    {
      active := active - {rid};
    }

    /** The nested `walk` (lines 311-324). */
    method Walk(rid: int)
      requires Inv()
      modifies this
      decreases table.Keys - seen, 0
      ensures Inv()
      ensures active == old(active)
      ensures old(seen) <= seen
      ensures Live(table, rid) ==> rid in seen
      ensures AllReached(table, rid, seen - old(seen))
    {
      if !Live(table, rid) || rid in seen {
        return;
      }
      ghost var seen0 := seen;
      Enter(rid);
      ghost var entered := seen;
      WalkInherited(rid);
      assert AllReached(table, rid, seen - seen0) by {
        ReachesSelf(table, rid);
        assert seen - seen0 == {rid} + (seen - entered);
      }
      Leave(rid);
    }

    /** The loop of `walk` over the roles `rid` inherits from (lines 322-324). */
    method WalkInherited(rid: int)
      requires Inv() && Live(table, rid) && rid in active
      modifies this
      decreases table.Keys - seen, 1
      ensures Inv()
      ensures active == old(active)
      ensures old(seen) <= seen
      ensures forall c :: c in table[rid].inherits && Live(table, c) ==> c in seen
      ensures AllReached(table, rid, seen - old(seen))
    {
      var kids := table[rid].inherits;
      var j := 0;
      while j < |kids|
        invariant 0 <= j <= |kids|
        invariant Inv()
        invariant active == old(active)
        invariant old(seen) <= seen
        invariant forall k :: 0 <= k < j && Live(table, kids[k]) ==> kids[k] in seen
        invariant AllReached(table, rid, seen - old(seen))
      {
        ghost var before := seen;
        Walk(kids[j]);
        ReachedThroughChild(table, rid, kids[j], old(seen), before, seen);
        assert forall k :: 0 <= k <= j && Live(table, kids[k]) ==> kids[k] in seen by {
          assert before <= seen;
        }
        j := j + 1;
      }
    }
  }

  /** `RBACRole.effective_permission_codes` for the role with id `roleId` (lines 304-326). */
  method EffectivePermissionCodes(t: RoleTable, roleId: int) returns (codes: set<string>, ghost visits: seq<int>)
    ensures codes == EffectiveCodes(t, roleId)
    ensures forall i, j :: 0 <= i < j < |visits| ==> visits[i] != visits[j]
    ensures forall x :: x in visits <==> x in ReachSet(t, roleId)
  {
    var w := new PermissionWalk(t);
    w.Walk(roleId);
    codes := w.codes;
    visits := w.visits;
    if Live(t, roleId) {
      ClosedHoldsReach(t, w.seen, roleId);
    } else {
      DeadReachesNothing(t, roleId);
    }
    assert w.seen <= ReachSet(t, roleId) by {
      forall x | x in w.seen ensures x in ReachSet(t, roleId) {
        assert Live(t, x);
      }
    }
    assert w.seen == ReachSet(t, roleId);
  }

  // ---------------------------------------------------------------------
  // has_permission

  /** The active membership as `has_permission` sees it. */
  datatype Membership = Membership(
    rbacRoleId: Option<int>,     // the attached RBAC role's id (0 for an unsaved role), None without one
    legacyRole: Option<string>)  // the legacy `role` column

  const LegacyAdminNames: set<string> := {"admin", "organisation administrator", "organization administrator"}
  const LegacyMemberCodes: set<string> := {"documents.view", "documents.upload"}

  predicate IsLegacyAdmin(role: Option<string>) {
    Lower(Strip(role.GetOr(""))) in LegacyAdminNames
  }

  /** The decision `has_permission` makes. */
  ghost predicate HasPermissionSpec(t: RoleTable, code: string, m: Option<Membership>) {
    var c := Strip(code);
    && c != ""
    && m.Some?
    && match m.value.rbacRoleId
       case Some(rid) => c in EffectiveCodes(t, rid)
       case None => IsLegacyAdmin(m.value.legacyRole) || c in LegacyMemberCodes
  }

  /** The request-scoped `_role_permission_codes_cache`. */
  class RequestCache {
    const table: RoleTable
    var permCodes: map<int, set<string>>

    /** Every cached entry holds the effective codes of its role. */
    ghost predicate Valid()
      reads this
    {
      forall rid :: rid in permCodes ==> permCodes[rid] == EffectiveCodes(table, rid)
    }

    constructor (t: RoleTable)
      ensures table == t && permCodes == map[] && Valid()
    {
      table := t;
      permCodes := map[];
    }

    /** `User.has_permission` (lines 196-230) for the user's active membership `m`. */
    method HasPermission(code: string, m: Option<Membership>) returns (allowed: bool)
      requires Valid()
      modifies this
      ensures Valid()
      ensures allowed == HasPermissionSpec(table, code, m)
      ensures permCodes.Keys <= old(permCodes.Keys) + (if m.Some? && m.value.rbacRoleId.Some? then {m.value.rbacRoleId.value} else {})
    {
      var c := Strip(code);
      if c == "" {
        return false;
      }
      if m.None? {
        return false;
      }
      match m.value.rbacRoleId
      case Some(rid) =>
        var codes: set<string>;
        if rid != 0 && rid in permCodes {
          codes := permCodes[rid];
        } else {
          ghost var visits;
          codes, visits := EffectivePermissionCodes(table, rid);
          if rid != 0 {
            permCodes := permCodes[rid := codes];
          }
        }
        allowed := c in codes;
      case None =>
        if IsLegacyAdmin(m.value.legacyRole) {
          return true;
        }
        allowed := c in LegacyMemberCodes;
    }
  }

  /** Blank codes and missing memberships are always refused. */
  lemma RefusedWithoutCodeOrMembership(t: RoleTable, code: string, m: Option<Membership>)
    ensures IsBlank(code) ==> !HasPermissionSpec(t, code, m)
    ensures m.None? ==> !HasPermissionSpec(t, code, m)
  {
  }

  /** A legacy admin may do anything non-blank; other legacy roles only view and upload documents. */
  lemma LegacyFallback(t: RoleTable, code: string, legacy: Option<string>)
    ensures var m := Some(Membership(None, legacy));
      HasPermissionSpec(t, code, m) <==>
        !IsBlank(code) && (IsLegacyAdmin(legacy) || Strip(code) in LegacyMemberCodes)
  {
  }
}
