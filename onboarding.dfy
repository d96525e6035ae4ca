/**
 * The onboarding flow: the `require_onboarding` gate in front of the main
 * blueprint (app/main/__init__.py) and the onboarding steps with their
 * small normalisers (app/onboarding/routes.py). Requests are reduced to
 * what the decisions read: the user, the endpoint, the submitted form and
 * the `skip` flag. `datetime.now()` and `uuid4().hex` are parameters.
 */
module Onboarding {
  import opened Wrappers
  import opened Text
  import opened Decimal
  import opened Accounts

  // ---------------------------------------------------------------------
  // The gate

  const Index: string := "main.index"
  const SetTheme: string := "main.set_theme"

  /** What `require_onboarding` does with a request. */
  datatype Gate = Pass | ToVerifyEmail(email: string) | ToOnboarding

  /** `not org_id` */
  predicate NoOrg(id: Option<int>) {
    id.None? || id.value == 0
  }

  /**
   * `require_onboarding`: `user` is `None` for an anonymous request and
   * `orgs` the organisations `db.session.get` can find.
   */
  function RequireOnboarding(user: Option<User>, endpoint: string, orgs: map<int, Organization>): Gate {
    if user.None? then Pass
    else
      var u := user.value;
      if !u.emailVerified then
        if endpoint == Index || endpoint == SetTheme then Pass else ToVerifyEmail(u.email.GetOr(""))
      else if NoOrg(u.organizationId) then
        if endpoint == Index then Pass else ToOnboarding
      else if u.organizationId.value !in orgs || !OnboardingComplete(orgs[u.organizationId.value]) then ToOnboarding
      else Pass
  }

  /**
   * Anonymous requests always pass; e-mail verification is checked first
   * and lets only the home page and the theme toggle through; a verified
   * user without an organisation may reach only the home page; a missing or
   * incomplete organisation sends every endpoint, the home page included,
   * to onboarding; a completed one is never redirected.
   */
  lemma GateSpec(user: Option<User>, endpoint: string, orgs: map<int, Organization>)
    ensures user.None? ==> RequireOnboarding(user, endpoint, orgs) == Pass
    ensures user.Some? && !user.value.emailVerified ==>
      (RequireOnboarding(user, endpoint, orgs) == Pass <==> endpoint in [Index, SetTheme])
      && (RequireOnboarding(user, endpoint, orgs).ToVerifyEmail? <==> endpoint !in [Index, SetTheme])
    ensures RequireOnboarding(user, endpoint, orgs).ToVerifyEmail? ==> user.Some? && !user.value.emailVerified
    ensures user.Some? && user.value.emailVerified && NoOrg(user.value.organizationId) ==>
      (RequireOnboarding(user, endpoint, orgs) == Pass <==> endpoint == Index)
    ensures user.Some? && user.value.emailVerified && !NoOrg(user.value.organizationId) ==>
      var id := user.value.organizationId.value;
      (RequireOnboarding(user, endpoint, orgs) == Pass <==> id in orgs && OnboardingComplete(orgs[id]))
      && (RequireOnboarding(user, endpoint, orgs) != Pass ==> RequireOnboarding(user, endpoint, orgs) == ToOnboarding)
  {
  }

  // ---------------------------------------------------------------------
  // Small normalisers

  const Light: string := "light"
  const Dark: string := "dark"

  /** `_safe_theme` */
  function SafeTheme(value: Option<string>): (r: string)
    ensures r == Light || r == Dark
  {
    var theme := Lower(Strip(value.GetOr(Light)));
    if theme == Dark then Dark else Light
  }

  /**
   * The theme is 'dark' exactly when the value, stripped and lowercased, is
   * 'dark'; everything else, `None` included, is 'light'; and the function
   * is idempotent.
   */
  lemma SafeThemeSpec(value: Option<string>)
    ensures SafeTheme(value) == Dark <==> value.Some? && Lower(Strip(value.value)) == Dark
    ensures SafeTheme(None) == Light
    ensures SafeTheme(Some(SafeTheme(value))) == SafeTheme(value)
  {
    ThemeNamesFixed();
    assert Light != Dark by {
      assert |Light| != |Dark|;
    }
  }

  /** Both theme names survive `strip().lower()`. */
  lemma ThemeNamesFixed()
    ensures Lower(Strip(Light)) == Light && Lower(Strip(Dark)) == Dark
  {
    LowerStripFixed(Light);
    LowerStripFixed(Dark);
  }

  const Loopback: string := "127.0.0.1"
  const LocalHost: string := "localhost"

  /** `_cookie_secure`: secure cookies except on a local host. */
  predicate CookieSecure(host: Option<string>) {
    var h := Lower(host.GetOr(""));
    !(StartsWith(h, Loopback) || StartsWith(h, LocalHost))
  }

  /** `s` begins with `prefix`, ignoring ASCII letter case. */
  predicate StartsWithIgnoringCase(s: string, prefix: string) {
    |prefix| <= |s| && forall i :: 0 <= i < |prefix| ==> LowerChar(s[i]) == prefix[i]
  }

  /** The cookie is insecure exactly when the host begins with '127.0.0.1' or 'localhost' in any letter case. */
  lemma CookieSecureSpec(host: Option<string>)
    ensures !CookieSecure(host) <==>
      StartsWithIgnoringCase(host.GetOr(""), Loopback) || StartsWithIgnoringCase(host.GetOr(""), LocalHost)
  {
    var h := host.GetOr("");
    PrefixLower(h, Loopback);
    PrefixLower(h, LocalHost);
  }

  lemma PrefixLower(s: string, prefix: string)
    ensures StartsWith(Lower(s), prefix) <==> StartsWithIgnoringCase(s, prefix)
  {
    if StartsWithIgnoringCase(s, prefix) {
      assert Lower(s)[..|prefix|] == prefix;
    }
    if StartsWith(Lower(s), prefix) {
      forall i | 0 <= i < |prefix| ensures LowerChar(s[i]) == prefix[i] {
        assert Lower(s)[..|prefix|][i] == Lower(s)[i];
      }
    }
  }

  /** `_mail_configured`: both MAIL_SERVER and MAIL_DEFAULT_SENDER are set. */
  predicate MailConfigured(server: Option<string>, sender: Option<string>) {
    server.Some? && server.value != [] && sender.Some? && sender.value != []
  }

  // ---------------------------------------------------------------------
  // The welcome e-mail

  /**
   * `_maybe_send_welcome_email` for one user: whether the e-mail goes out
   * and the user's new `welcome_email_sent_at`. `raises` says whether
   * `mail.send` raises.
   */
  function WelcomeStep(u: User, mailConfigured: bool, raises: bool, now: int): (bool, Option<int>) {
    if u.email.None? || u.email.value == [] || u.welcomeEmailSentAt.Some? then (false, u.welcomeEmailSentAt)
    else if !mailConfigured || raises then (false, u.welcomeEmailSentAt)
    else (true, Some(now))
  }

  /**
   * The welcome e-mail goes out at most once: never when the stamp is set,
   * the stamp is written exactly when a send succeeded, and after a
   * successful send a later attempt sends nothing and keeps the stamp.
   */
  lemma WelcomeOnce(u: User, configured: bool, raises: bool, now: int, configured2: bool, raises2: bool, later: int)
    ensures u.welcomeEmailSentAt.Some? ==> WelcomeStep(u, configured, raises, now) == (false, u.welcomeEmailSentAt)
    ensures var (sent, stamp) := WelcomeStep(u, configured, raises, now);
      && (sent <==> u.welcomeEmailSentAt.None? && u.email.Some? && u.email.value != [] && configured && !raises)
      && (stamp != u.welcomeEmailSentAt <==> sent)
      && (sent ==> stamp == Some(now))
    ensures var (sent, stamp) := WelcomeStep(u, configured, raises, now);
      sent ==> WelcomeStep(u.(welcomeEmailSentAt := stamp), configured2, raises2, later) == (false, stamp)
  {
  }

  /** The users table, as far as the welcome e-mail touches it. */
  class UserTable {
    var users: map<int, User>

    constructor (users: map<int, User>)
      ensures this.users == users
    {
      this.users := users;
    }

    /** `_maybe_send_welcome_email(user_id)`: an unknown user is skipped. */
    method MaybeSendWelcomeEmail(userId: int, server: Option<string>, sender: Option<string>, raises: bool, now: int)
      returns (sent: bool)
      modifies this
      ensures userId !in old(users) ==> !sent && users == old(users)
      ensures userId in old(users) ==>
        var (s, stamp) := WelcomeStep(old(users)[userId], MailConfigured(server, sender), raises, now);
        sent == s && users == old(users)[userId := old(users)[userId].(welcomeEmailSentAt := stamp)]
    {
      if userId !in users {
        return false;
      }
      var user := users[userId];
      if user.email.None? || user.email.value == [] {
        return false;
      }
      if user.welcomeEmailSentAt.Some? {
        return false;
      }
      if raises {
        return false;
      }
      sent := MailConfigured(server, sender);
      if !sent {
        return;
      }
      users := users[userId := user.(welcomeEmailSentAt := Some(now))];
    }

    /**
     * The theme step: `skip=1` and a valid submit both end onboarding, with
     * the welcome e-mail attempted; only a submit sets the theme cookie,
     * with the theme made safe and `secure` off on a local host. `form` is
     * the submitted theme of a valid submit.
     */
    method ThemeStep(verified: bool, hasOrg: bool, skip: bool, form: Option<Option<string>>, host: Option<string>,
                     userId: int, server: Option<string>, sender: Option<string>, raises: bool, now: int)
      returns (next: Step, cookie: Option<(string, bool)>)
      modifies this
      ensures !verified ==> next == ToVerify && cookie.None? && users == old(users)
      ensures verified && !hasOrg ==> next == ToOrganization && cookie.None? && users == old(users)
      ensures verified && hasOrg && skip ==>
        next == ToDashboard && cookie.None?
        && users == AfterWelcome(old(users), userId, MailConfigured(server, sender), raises, now)
      ensures verified && hasOrg && !skip && form.None? ==> next == Render && cookie.None? && users == old(users)
      ensures verified && hasOrg && !skip && form.Some? ==>
        next == ToDashboard && cookie == Some((SafeTheme(form.value), CookieSecure(host)))
        && users == AfterWelcome(old(users), userId, MailConfigured(server, sender), raises, now)
    {
      cookie := None;
      if !verified {
        return ToVerify, None;
      }
      if !hasOrg {
        return ToOrganization, None;
      }
      if skip {
        var _ := MaybeSendWelcomeEmail(userId, server, sender, raises, now);
        return ToDashboard, None;
      }
      if form.None? {
        return Render, None;
      }
      cookie := Some((SafeTheme(form.value), CookieSecure(host)));
      var _ := MaybeSendWelcomeEmail(userId, server, sender, raises, now);
      next := ToDashboard;
    }
  }

  /** The users table after `_maybe_send_welcome_email(userId)`. */
  function AfterWelcome(users: map<int, User>, userId: int, configured: bool, raises: bool, now: int): map<int, User> {
    if userId in users then users[userId := users[userId].(welcomeEmailSentAt := WelcomeStep(users[userId], configured, raises, now).1)]
    else users
  }

  // ---------------------------------------------------------------------
  // The organisation, billing and logo steps

  /** Where an onboarding step sends the user, or `Render` to show its form again. */
  datatype Step = ToVerify | ToOrganization | ToBilling | ToLogo | ToTheme | ToDashboard | Render | NotFound

  /** The validated fields of `OnboardingOrganizationForm`. */
  datatype OrganizationForm = OrganizationForm(
    name: string,
    tradingName: Option<string>,
    abn: Option<string>,
    organizationType: Option<string>,
    industry: Option<string>,
    address: Option<string>,
    contactEmail: Option<string>,
    operatesInAustralia: bool)

  /** `(v or '').strip() or None` */
  function Clean(v: Option<string>): (r: Option<string>)
    ensures r.Some? ==> r.value != [] && r.value == Strip(r.value)
    ensures Filled(r) <==> Filled(v)
  {
    var s := Strip(v.GetOr(""));
    StripIdempotent(v.GetOr(""));
    if s == [] then None else Some(s)
  }

  /** `(v or '').strip().lower() or None` */
  function CleanLower(v: Option<string>): (r: Option<string>)
    ensures r.Some? ==> r.value != [] && r.value == Lower(r.value)
  {
    LowerIdempotent(Strip(v.GetOr("")));
    var s := Lower(Strip(v.GetOr("")));
    if s == [] then None else Some(s)
  }

  /** The organisation after a successful organisation submit by user `userId` at `now`. */
  function SubmitOrganization(o: Organization, f: OrganizationForm, userId: int, now: int): Organization {
    o.(name := Some(Strip(f.name)),
       tradingName := Clean(f.tradingName),
       abn := Clean(f.abn),
       organizationType := Clean(f.organizationType),
       industry := Clean(f.industry),
       address := Clean(f.address),
       contactEmail := CleanLower(f.contactEmail),
       operatesInAustralia := Some(f.operatesInAustralia),
       declarationsAcceptedAt := Some(now),
       declarationsAcceptedBy := Some(userId),
       dataProcessingAckAt := Some(now),
       dataProcessingAckBy := Some(userId))
  }

  /**
   * A submit stamps the declarations and the data-processing acknowledgement
   * at the same instant by the same user, so the organisation's onboarding
   * is complete exactly when its six core fields are filled and it operates
   * in Australia; billing is untouched.
   */
  lemma SubmitOrganizationSpec(o: Organization, f: OrganizationForm, userId: int, now: int)
    ensures var o' := SubmitOrganization(o, f, userId, now);
      && o'.declarationsAcceptedAt == o'.dataProcessingAckAt == Some(now)
      && o'.declarationsAcceptedBy == o'.dataProcessingAckBy == Some(userId)
      && DataPrivacyAckComplete(o')
      && (DeclarationsComplete(o') <==> f.operatesInAustralia)
      && (OnboardingComplete(o') <==> CoreDetailsComplete(o') && f.operatesInAustralia)
      && o'.billingEmail == o.billingEmail && o'.billingAddress == o.billingAddress
  {
  }

  const LogoExtensions: seq<string> := ["png", "jpg", "jpeg", "webp"]

  /** `(filename.rsplit('.', 1)[-1] or '').lower()`, kept if whitelisted, else 'png'. */
  function LogoExtension(filename: string): (ext: string)
    ensures ext in LogoExtensions
    ensures ext == Lower(AfterLast(filename, '.')) || ext == "png"
    ensures Lower(AfterLast(filename, '.')) in LogoExtensions ==> ext == Lower(AfterLast(filename, '.'))
    ensures '.' !in ext && '/' !in ext
  {
    var ext := Lower(AfterLast(filename, '.'));
    assert forall e :: e in LogoExtensions ==> '.' !in e && '/' !in e;
    if ext in LogoExtensions then ext else "png"
  }

  /** The organisation's branding folder `organizations/{org_id}/branding/`. */
  function BrandingFolder(orgId: int): string {
    "organizations/" + Show(orgId) + "/branding/"
  }

  /** `f"organizations/{org_id}/branding/logo_{hex}.{ext}"` */
  function LogoBlobName(orgId: int, hex: string, ext: string): string {
    BrandingFolder(orgId) + "logo_" + hex + "." + ext
  }

  /**
   * The blob lies under the organisation's branding folder and its
   * extension is the kept one (any `LogoExtension` result qualifies).
   */
  lemma LogoBlobNameSpec(orgId: int, hex: string, ext: string)
    requires '/' !in hex && '/' !in ext && '.' !in ext
    ensures StartsWith(LogoBlobName(orgId, hex, ext), BrandingFolder(orgId) + "logo_")
    ensures Ext(LogoBlobName(orgId, hex, ext)) == "." + ext
  {
    LogoExt(BrandingFolder(orgId), hex, ext);
    PrefixOf(BrandingFolder(orgId) + "logo_", hex, ".", ext);
  }

  lemma PrefixOf(x: string, y: string, z: string, w: string)
    ensures StartsWith(x + y + z + w, x)
  {
    assert (x + y + z + w)[..|x|] == x;
  }

  lemma LogoExt(folder: string, hex: string, ext: string)
    requires '/' !in hex && '/' !in ext && '.' !in ext
    ensures Ext(folder + "logo_" + hex + "." + ext) == "." + ext
  {
    var logo := "logo_";
    assert logo[0] == 'l' && '/' !in logo by {
      assert logo == ['l', 'o', 'g', 'o', '_'];
    }
    var tail := logo + hex + "." + ext;
    var name := folder + tail;
    assert name == folder + logo + hex + "." + ext;
    assert '/' !in tail;
    var k, d := |folder|, |folder| + |logo| + |hex|;
    assert forall i :: k <= i < |name| ==> name[i] == tail[i - k];
    assert name[d] == '.';
    assert forall i :: d < i < |name| ==> name[i] == ext[i - d - 1];
    ExtAt(name, k, d);
    assert name[d..] == "." + ext;
  }

  /**
   * The extension of a name is its text from position `d` on when `d` holds
   * its last dot and no '/' occurs from some non-dot position `k < d` on.
   */
  lemma ExtAt(p: string, k: nat, d: nat)
    requires k < d < |p| && p[d] == '.' && p[k] != '.'
    requires forall i :: k <= i < |p| ==> p[i] != '/'
    requires forall i :: d < i < |p| ==> p[i] != '.'
    ensures Ext(p) == p[d..]
  {
    var dot := RFind(p, '.');
    assert dot == d;
    var sep := RFind(p, '/');
    assert sep < k;
    assert sep + 1 <= k < dot && p[k] != '.';
  }

  /** One organisation row and the onboarding steps that write it. */
  class OrganizationRecord {
    var org: Organization

    constructor (o: Organization)
      ensures org == o
    {
      org := o;
    }

    /**
     * The organisation step: with its six core fields already filled it
     * skips ahead to billing; a valid submit writes the form and goes to
     * billing; otherwise the form is shown again.
     */
    method OrganizationStep(verified: bool, form: Option<OrganizationForm>, userId: int, now: int) returns (next: Step)
      modifies this
      ensures !verified ==> next == ToVerify && org == old(org)
      ensures verified && CoreDetailsComplete(old(org)) ==> next == ToBilling && org == old(org)
      ensures verified && !CoreDetailsComplete(old(org)) && form.None? ==> next == Render && org == old(org)
      ensures verified && !CoreDetailsComplete(old(org)) && form.Some? ==>
        next == ToBilling && org == SubmitOrganization(old(org), form.value, userId, now)
    {
      if !verified {
        return ToVerify;
      }
      if Filled(org.name) && Filled(org.abn) && Filled(org.organizationType)
        && Filled(org.contactEmail) && Filled(org.address) && Filled(org.industry)
      {
        return ToBilling;
      }
      if form.None? {
        return Render;
      }
      var f := form.value;
      org := org.(name := Some(Strip(f.name)));
      org := org.(tradingName := Clean(f.tradingName));
      org := org.(abn := Clean(f.abn));
      org := org.(organizationType := Clean(f.organizationType));
      org := org.(industry := Clean(f.industry));
      org := org.(address := Clean(f.address));
      org := org.(contactEmail := CleanLower(f.contactEmail));
      org := org.(operatesInAustralia := Some(f.operatesInAustralia));
      org := org.(declarationsAcceptedAt := Some(now), declarationsAcceptedBy := Some(userId));
      org := org.(dataProcessingAckAt := Some(now), dataProcessingAckBy := Some(userId));
      return ToBilling;
    }

    /**
     * The billing step: a user without an organisation id goes to the
     * organisation step, an id naming no row is a 404; `skip=1` goes to the
     * logo step untouched; a valid submit stores the cleaned billing details
     * and goes to the logo step. `hasOrg` says whether the user's
     * organisation id is truthy, `orgFound` whether the record was found.
     */
    method BillingStep(verified: bool, hasOrg: bool, orgFound: bool, skip: bool,
                       form: Option<(Option<string>, Option<string>)>) returns (next: Step)
      modifies this
      ensures !verified ==> next == ToVerify && org == old(org)
      ensures verified && !hasOrg ==> next == ToOrganization && org == old(org)
      ensures verified && hasOrg && !orgFound ==> next == NotFound && org == old(org)
      ensures verified && hasOrg && orgFound && skip ==> next == ToLogo && org == old(org)
      ensures verified && hasOrg && orgFound && !skip && form.None? ==> next == Render && org == old(org)
      ensures verified && hasOrg && orgFound && !skip && form.Some? ==>
        next == ToLogo && org == old(org).(billingEmail := CleanLower(form.value.0), billingAddress := Clean(form.value.1))
    {
      if !verified {
        return ToVerify;
      }
      if !hasOrg {
        return ToOrganization;
      }
      if !orgFound {
        return NotFound;
      }
      if skip {
        return ToLogo;
      }
      if form.None? {
        return Render;
      }
      org := org.(billingEmail := CleanLower(form.value.0));
      org := org.(billingAddress := Clean(form.value.1));
      return ToLogo;
    }

    /**
     * The logo step: it sends the user back to the organisation step when
     * there is no organisation or until onboarding is complete; `skip=1`,
     * or a submit without a file, goes on to the theme step; an uploaded
     * logo is stored under the blob name above, and a failed upload shows
     * the form again. `upload` is `None` when no valid form was submitted.
     */
    method LogoStep(verified: bool, hasOrg: bool, orgFound: bool, orgId: int, skip: bool,
                    upload: Option<Option<string>>, mimetype: Option<string>, hex: string, uploaded: bool)
      returns (next: Step)
      modifies this
      ensures !verified ==> next == ToVerify && org == old(org)
      ensures verified && !(hasOrg && orgFound) ==> next == ToOrganization && org == old(org)
      ensures verified && hasOrg && orgFound && !OnboardingComplete(old(org)) ==> next == ToOrganization && org == old(org)
      ensures next == ToTheme && org != old(org) ==> OnboardingComplete(old(org)) && !skip
      ensures verified && hasOrg && orgFound && OnboardingComplete(old(org)) && skip ==> next == ToTheme && org == old(org)
      ensures verified && hasOrg && orgFound && OnboardingComplete(old(org)) && !skip && upload.None? ==>
        next == Render && org == old(org)
      ensures (verified && hasOrg && orgFound && OnboardingComplete(old(org)) && !skip && upload.Some?
               && (upload.value.None? || upload.value.value == [])) ==>
        next == ToTheme && org == old(org)
      ensures (verified && hasOrg && orgFound && OnboardingComplete(old(org)) && !skip && upload.Some? && upload.value.Some?
               && upload.value.value != [] && uploaded) ==>
        next == ToTheme
        && org == old(org).(logoBlobName := Some(LogoBlobName(orgId, hex, LogoExtension(upload.value.value))),
                            logoContentType := mimetype)
      ensures (verified && hasOrg && orgFound && OnboardingComplete(old(org)) && !skip && upload.Some? && upload.value.Some?
               && upload.value.value != [] && !uploaded) ==>
        next == Render && org == old(org)
    {
      if !verified {
        return ToVerify;
      }
      if !hasOrg || !orgFound {
        return ToOrganization;
      }
      if !OnboardingComplete(org) {
        return ToOrganization;
      }
      if skip {
        return ToTheme;
      }
      if upload.None? {
        return Render;
      }
      if upload.value.None? || upload.value.value == [] {
        return ToTheme;
      }
      var ext := LogoExtension(upload.value.value);
      var blobName := LogoBlobName(orgId, hex, ext);
      if !uploaded {
        return Render;
      }
      org := org.(logoBlobName := Some(blobName));
      org := org.(logoContentType := mimetype);
      return ToTheme;
    }
  }
}
