/**
 * The account records of `app/models.py` and the completeness predicates
 * and display helpers defined on them, plus the invite `_is_pending`
 * predicate. Nullable columns are `Option`s; a timestamp column is an
 * `Option<int>` (a set datetime is always truthy in Python).
 */
module Accounts {
  import opened Wrappers
  import opened Text

  /** The `organizations` columns the onboarding rules read and write. */
  datatype Organization = Organization(
    name: Option<string>,
    tradingName: Option<string>,
    abn: Option<string>,
    organizationType: Option<string>,
    contactEmail: Option<string>,
    address: Option<string>,
    industry: Option<string>,
    billingEmail: Option<string>,
    billingAddress: Option<string>,
    logoBlobName: Option<string>,
    logoContentType: Option<string>,
    operatesInAustralia: Option<bool>,
    declarationsAcceptedAt: Option<int>,
    declarationsAcceptedBy: Option<int>,
    dataProcessingAckAt: Option<int>,
    dataProcessingAckBy: Option<int>)

  /** The `users` columns read by the display helpers and the onboarding gate. */
  datatype User = User(
    email: Option<string>,
    fullName: Option<string>,
    firstName: Option<string>,
    lastName: Option<string>,
    passwordHash: Option<string>,
    emailVerified: bool,
    welcomeEmailSentAt: Option<int>,
    organizationId: Option<int>)

  /**
   * The `organization_memberships` columns read here. `rbacRoleName` is the
   * name of the attached RBAC role, `None` when no role is attached.
   */
  datatype Membership = Membership(
    role: Option<string>,
    rbacRoleName: Option<string>,
    invitedAt: Option<int>,
    inviteAcceptedAt: Option<int>,
    inviteRevokedAt: Option<int>)

  /** No whitespace at either end: what `strip()` leaves. */
  predicate Tidy(s: string) {
    s != [] ==> !IsSpace(s[0]) && !IsSpace(s[|s| - 1])
  }

  lemma StripTidy(s: string)
    ensures Tidy(Strip(s))
  {
    TrimKeepsEnds(s, IsSpace);
  }

  /** `bool((v or '').strip())`: a text column holding something besides whitespace. */
  predicate Filled(v: Option<string>) {
    !IsBlank(v.GetOr(""))
  }

  /** A filled column is one holding a non-whitespace character. */
  lemma FilledIffVisible(v: Option<string>)
    ensures Filled(v) <==> v.Some? && exists i :: 0 <= i < |v.value| && !IsSpace(v.value[i])
  {
    BlankIffAllSpace(v.GetOr(""));
  }

  predicate CoreDetailsComplete(o: Organization) {
    Filled(o.name) && Filled(o.abn) && Filled(o.organizationType)
    && Filled(o.contactEmail) && Filled(o.address) && Filled(o.industry)
  }

  predicate DeclarationsComplete(o: Organization) {
    o.operatesInAustralia == Some(true) && o.declarationsAcceptedAt.Some?
  }

  predicate DataPrivacyAckComplete(o: Organization) {
    o.dataProcessingAckAt.Some?
  }

  predicate BillingComplete(o: Organization) {
    Filled(o.billingEmail) && Filled(o.billingAddress)
  }

  predicate OnboardingComplete(o: Organization) {
    CoreDetailsComplete(o) && DeclarationsComplete(o) && DataPrivacyAckComplete(o)
  }

  /**
   * Onboarding completeness does not depend on the billing details: an
   * organisation may finish onboarding with billing deferred.
   */
  lemma OnboardingIgnoresBilling(o: Organization, email: Option<string>, address: Option<string>)
    ensures OnboardingComplete(o.(billingEmail := email, billingAddress := address)) == OnboardingComplete(o)
    ensures OnboardingComplete(o) && !BillingComplete(o) ==> OnboardingComplete(o.(billingEmail := None))
  {
  }

  /**
   * The declarations are complete only when the organisation explicitly
   * answered that it operates in Australia (an unanswered `None` or `False`
   * does not do) and the acceptance is stamped.
   */
  lemma DeclarationsNeedExplicitYes(o: Organization)
    ensures o.operatesInAustralia != Some(true) ==> !DeclarationsComplete(o) && !OnboardingComplete(o)
    ensures o.declarationsAcceptedAt.None? || o.dataProcessingAckAt.None? ==> !OnboardingComplete(o)
  {
  }

  /** The stripped, non-blank parts of `[first_name or '', last_name or '']`. */
  function NameParts(first: Option<string>, last: Option<string>): (parts: seq<string>)
    ensures |parts| <= 2
    ensures forall i :: 0 <= i < |parts| ==> parts[i] != [] && Tidy(parts[i])
    ensures parts == [] <==> !Filled(first) && !Filled(last)
  {
    var f, l := Strip(first.GetOr("")), Strip(last.GetOr(""));
    StripTidy(first.GetOr(""));
    StripTidy(last.GetOr(""));
    (if |f| > 0 then [f] else []) + (if |l| > 0 then [l] else [])
  }

  /** `User.display_name`. */
  function DisplayName(u: User): (r: string)
    ensures Tidy(r)
  {
    var name := Strip(u.fullName.GetOr(""));
    StripTidy(u.fullName.GetOr(""));
    StripTidy(u.email.GetOr(""));
    if |name| > 0 then name
    else
      var parts := NameParts(u.firstName, u.lastName);
      if |parts| > 0 then JoinEnds(parts); Join(parts, " ")
      else Strip(u.email.GetOr(""))
  }

  /** Joining non-empty parts without surrounding whitespace keeps the ends free of whitespace. */
  lemma JoinEnds(parts: seq<string>)
    requires 1 <= |parts| <= 2
    requires forall i :: 0 <= i < |parts| ==> parts[i] != [] && Tidy(parts[i])
    ensures Join(parts, " ") != [] && Tidy(Join(parts, " "))
  {
    if |parts| == 2 {
      assert Join(parts, " ") == parts[0] + " " + parts[1];
    }
  }

  /**
   * `display_name` prefers the full name, then the first and last names
   * joined by one space, then the e-mail.
   */
  lemma DisplayNameChoice(u: User)
    ensures Filled(u.fullName) ==> DisplayName(u) == Strip(u.fullName.value)
    ensures !Filled(u.fullName) && Filled(u.firstName) && Filled(u.lastName) ==>
      DisplayName(u) == Strip(u.firstName.value) + " " + Strip(u.lastName.value)
    ensures !Filled(u.fullName) && Filled(u.firstName) && !Filled(u.lastName) ==>
      DisplayName(u) == Strip(u.firstName.value)
    ensures !Filled(u.fullName) && !Filled(u.firstName) && Filled(u.lastName) ==>
      DisplayName(u) == Strip(u.lastName.value)
    ensures !Filled(u.fullName) && !Filled(u.firstName) && !Filled(u.lastName) ==>
      DisplayName(u) == Strip(u.email.GetOr(""))
  {
    if !Filled(u.fullName) {
      NamePartsCases(u.firstName, u.lastName);
      if Filled(u.firstName) && Filled(u.lastName) {
        JoinTwo(Strip(u.firstName.value), Strip(u.lastName.value));
      }
    }
  }

  /** Which stripped names `NameParts` keeps, in order. */
  lemma NamePartsCases(first: Option<string>, last: Option<string>)
    ensures Filled(first) && Filled(last) ==> NameParts(first, last) == [Strip(first.value), Strip(last.value)]
    ensures Filled(first) && !Filled(last) ==> NameParts(first, last) == [Strip(first.value)]
    ensures !Filled(first) && Filled(last) ==> NameParts(first, last) == [Strip(last.value)]
  {
  }

  lemma JoinTwo(a: string, b: string)
    ensures Join([a, b], " ") == a + " " + b
  {
    assert Join([a, b], " ") == a + " " + Join([b], " ");
  }

  /** The display name is empty only when all four columns are blank. */
  lemma DisplayNameEmpty(u: User)
    ensures DisplayName(u) == [] <==>
      !Filled(u.fullName) && !Filled(u.firstName) && !Filled(u.lastName) && !Filled(u.email)
  {
    var parts := NameParts(u.firstName, u.lastName);
    if !Filled(u.fullName) && |parts| > 0 {
      JoinEnds(parts);
    }
  }

  /** `OrganizationMembership.display_role_name`. */
  function DisplayRoleName(m: Membership): (r: string)
    ensures |r| > 0 && Tidy(r)
  {
    StripTidy(m.rbacRoleName.GetOr(""));
    StripTidy(m.role.GetOr(""));
    DefaultRoleTidy();
    if Filled(m.rbacRoleName) then Strip(m.rbacRoleName.GetOr(""))
    else
      // `(role or 'User').strip() or 'User'`: a missing role and a blank one both give 'User'.
      var legacy := Strip(m.role.GetOr(""));
      if |legacy| > 0 then legacy else "User"
  }

  /**
   * The attached RBAC role's name wins, then the legacy role, then 'User';
   * a blank name counts as missing.
   */
  lemma DisplayRoleNameChoice(m: Membership)
    ensures Filled(m.rbacRoleName) ==> DisplayRoleName(m) == Strip(m.rbacRoleName.value)
    ensures !Filled(m.rbacRoleName) && Filled(m.role) ==> DisplayRoleName(m) == Strip(m.role.value)
    ensures !Filled(m.rbacRoleName) && !Filled(m.role) ==> DisplayRoleName(m) == "User"
  {
  }

  lemma DefaultRoleTidy()
    ensures Tidy("User")
  {
    var u := "User";
    assert |u| == 4 && u[0] == 'U' && u[3] == 'r';
  }

  /** `_is_pending`: an invite that was sent, is still open, and whose user has set no password. */
  predicate IsPending(mem: Option<Membership>, user: Option<User>) {
    mem.Some? && user.Some?
    && mem.value.invitedAt.Some?
    && mem.value.inviteAcceptedAt.None?
    && mem.value.inviteRevokedAt.None?
    && user.value.passwordHash.GetOr("") == ""
  }

  /**
   * Accepting or revoking an invite, or the user setting a password, ends
   * the pending state; an invite sent to a password-less user is pending
   * until one of those happens.
   */
  lemma PendingTransitions(m: Membership, u: User, t: int, hash: string)
    ensures !IsPending(Some(m.(inviteAcceptedAt := Some(t))), Some(u))
    ensures !IsPending(Some(m.(inviteRevokedAt := Some(t))), Some(u))
    ensures hash != "" ==> !IsPending(Some(m), Some(u.(passwordHash := Some(hash))))
    ensures !IsPending(Some(m.(invitedAt := None)), Some(u))
    ensures !IsPending(None, Some(u)) && !IsPending(Some(m), None)
    ensures m.inviteAcceptedAt.None? && m.inviteRevokedAt.None? ==>
      IsPending(Some(m.(invitedAt := Some(t))), Some(u.(passwordHash := None)))
  {
  }
}
