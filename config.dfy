/**
 * The configuration classes of config.py: the database-URL normalisation,
 * the boolean environment flags and the defaults each class falls back to.
 * The process environment is the parameter `env`; `load_dotenv` and the
 * timedelta settings are not modelled.
 */
module Config {
  import opened Wrappers
  import opened Text
  import opened Decimal

  /** `os.environ` */
  type Env = map<string, string>

  function Get(env: Env, key: string): Option<string> {
    if key in env then Some(env[key]) else None
  }

  /** Python's `value or default` on an optional string: a missing or empty value gives the default. */
  function Or(v: Option<string>, d: string): string {
    if v.Some? && |v.value| > 0 then v.value else d
  }

  // ---------------------------------------------------------------------
  // _normalize_database_url

  const PostgresScheme: string := "postgres://"
  const PostgresqlScheme: string := "postgresql://"

  /** `_normalize_database_url`: the "postgres://" scheme becomes "postgresql://". */
  function NormalizeDatabaseUrl(url: Option<string>): Option<string> {
    if url.None? || |url.value| == 0 then url
    else if StartsWith(url.value, PostgresScheme) then Some(PostgresqlScheme + url.value[|PostgresScheme|..])
    else url
  }

  lemma SchemesDiffer()
    ensures |PostgresScheme| == 11 && |PostgresqlScheme| == 13
    ensures !StartsWith(PostgresqlScheme, PostgresScheme)
  {
    assert PostgresqlScheme[8] == 'q' && PostgresScheme[8] == ':';
    assert PostgresqlScheme[..11][8] == 'q';
  }

  /**
   * `None` and the empty string are returned as they are; a "postgres://"
   * URL keeps everything after the scheme under "postgresql://"; any other
   * URL is unchanged; and no result starts with "postgres://".
   */
  lemma NormalizeDatabaseUrlSpec(url: Option<string>)
    ensures url.None? || url == Some("") ==> NormalizeDatabaseUrl(url) == url
    ensures url.Some? && StartsWith(url.value, PostgresScheme) ==>
      var r := NormalizeDatabaseUrl(url);
      r.Some? && StartsWith(r.value, PostgresqlScheme)
      && r.value[|PostgresqlScheme|..] == url.value[|PostgresScheme|..]
    ensures url.Some? && !StartsWith(url.value, PostgresScheme) ==> NormalizeDatabaseUrl(url) == url
    ensures NormalizeDatabaseUrl(url).Some? ==> !StartsWith(NormalizeDatabaseUrl(url).value, PostgresScheme)
  {
    SchemesDiffer();
    if url.Some? && StartsWith(url.value, PostgresScheme) {
      var r := PostgresqlScheme + url.value[|PostgresScheme|..];
      assert r[..|PostgresqlScheme|] == PostgresqlScheme;
      assert r[..|PostgresScheme|] == PostgresqlScheme[..|PostgresScheme|];
    }
  }

  /** Normalising twice is normalising once. */
  lemma NormalizeIdempotent(url: Option<string>)
    ensures NormalizeDatabaseUrl(NormalizeDatabaseUrl(url)) == NormalizeDatabaseUrl(url)
  {
    NormalizeDatabaseUrlSpec(url);
    var r := NormalizeDatabaseUrl(url);
    if r.Some? && |r.value| > 0 {
      assert !StartsWith(r.value, PostgresScheme);
    }
  }

  // ---------------------------------------------------------------------
  // Boolean flags

  /** The words `{'1', 'true', 'yes', 'on'}` a flag is true for. */
  predicate Truthy(w: string) {
    w == "1" || w == "true" || w == "yes" || w == "on"
  }

  /** `(os.environ.get(key) or default).strip().lower() in {...}` */
  predicate Flag(v: Option<string>, default: string) {
    Truthy(Lower(Strip(Or(v, default))))
  }

  /**
   * An unset or empty variable takes the default: "true" gives true and
   * "false" gives false; a non-empty value decides alone, whatever the
   * default.
   */
  lemma FlagSpec(v: Option<string>, d1: string, d2: string)
    ensures Flag(None, "true") && Flag(Some(""), "true")
    ensures !Flag(None, "false") && !Flag(Some(""), "false")
    ensures v.Some? && |v.value| > 0 ==> Flag(v, d1) == Flag(v, d2)
  {
    LowerStripFixed("true");
    LowerStripFixed("false");
    assert |"false"| == 5;
  }

  // ---------------------------------------------------------------------
  // The configuration classes

  /** `Config`, `DevelopmentConfig`, `ProductionConfig` and `TestingConfig`. */
  datatype Kind = Base | Development | Production | Testing

  /** The settings the classes derive from the environment, and the class flags. */
  datatype Settings = Settings(
    secretKey: string,
    containerName: string,
    databaseUrl: string,
    microsoftTenant: string,
    mailPort: Option<int>,
    mailUseTls: bool,
    mailUseSsl: bool,
    mailDefaultSender: Option<string>,
    requireEmailVerification: bool,
    ratelimitStorageUri: string,
    debug: Option<bool>,
    testing: bool,
    csrfEnabled: bool,
    sessionCookieSecure: Option<bool>)

  const SecretKeyVar: string := "SECRET_KEY"
  const ContainerVar: string := "AZURE_CONTAINER_NAME"
  const DatabaseVar: string := "DATABASE_URL"
  const DevDatabaseVar: string := "DEV_DATABASE_URL"
  const TestDatabaseVar: string := "TEST_DATABASE_URL"
  const TenantVar: string := "MICROSOFT_TENANT"
  const MailPortVar: string := "MAIL_PORT"
  const MailTlsVar: string := "MAIL_USE_TLS"
  const MailSslVar: string := "MAIL_USE_SSL"
  const SenderVar: string := "MAIL_DEFAULT_SENDER"
  const MailUserVar: string := "MAIL_USERNAME"
  const VerificationVar: string := "REQUIRE_EMAIL_VERIFICATION"
  const RatelimitVar: string := "RATELIMIT_STORAGE_URI"

  const DefaultSecretKey: string := "dev-secret-key-change-in-production"
  const DefaultContainer: string := "compliance-documents"
  const DefaultDatabase: string := "sqlite:///compliance.db"
  const DefaultDevDatabase: string := "sqlite:///compliance_dev.db"
  const DefaultTestDatabase: string := "sqlite:///test.db"
  const DefaultTenant: string := "common"
  const DefaultMailPort: int := 587
  const DefaultRatelimit: string := "memory://"

  /** `_normalize_database_url(os.environ.get(var)) or default` for the class's variable. */
  function DatabaseUrl(kind: Kind, env: Env): string {
    match kind
    case Development => Or(NormalizeDatabaseUrl(Get(env, DevDatabaseVar)), DefaultDevDatabase)
    case Testing => Or(NormalizeDatabaseUrl(Get(env, TestDatabaseVar)), DefaultTestDatabase)
    case _ => Or(NormalizeDatabaseUrl(Get(env, DatabaseVar)), DefaultDatabase)
  }

  /** `int(os.environ.get('MAIL_PORT') or 587)`; `None` where `int` raises. */
  function MailPort(env: Env): Option<int> {
    var v := Get(env, MailPortVar);
    if v.Some? && |v.value| > 0 then ParseInt(v.value) else Some(DefaultMailPort)
  }

  /** `os.environ.get('MAIL_DEFAULT_SENDER') or os.environ.get('MAIL_USERNAME')` */
  function MailDefaultSender(env: Env): Option<string> {
    var v := Get(env, SenderVar);
    if v.Some? && |v.value| > 0 then v else Get(env, MailUserVar)
  }

  /** The class attributes as Python resolves them, subclasses overriding their bases. */
  function Load(kind: Kind, env: Env): Settings {
    Settings(
      Or(Get(env, SecretKeyVar), DefaultSecretKey),
      Or(Get(env, ContainerVar), DefaultContainer),
      DatabaseUrl(kind, env),
      Or(Get(env, TenantVar), DefaultTenant),
      MailPort(env),
      Flag(Get(env, MailTlsVar), "true"),
      Flag(Get(env, MailSslVar), "false"),
      MailDefaultSender(env),
      Flag(Get(env, VerificationVar), if kind == Production then "true" else "false"),
      Or(Get(env, RatelimitVar), DefaultRatelimit),
      match kind
        case Base => None
        case Production => Some(false)
        case _ => Some(true),
      kind == Testing,
      kind != Testing,
      match kind
        case Production => Some(true)
        case Testing => Some(false)
        case _ => None)
  }

  /** The `config` dictionary: 'default' is the development configuration. */
  function ConfigFor(name: string): Option<Kind> {
    if name == "development" || name == "default" then Some(Development)
    else if name == "production" then Some(Production)
    else if name == "testing" then Some(Testing)
    else None
  }

  /**
   * With nothing set, e-mail verification is required only in production,
   * TLS is on and SSL off, the mail port is 587, and each class uses its
   * own SQLite database.
   */
  lemma LoadDefaults(kind: Kind)
    ensures var s := Load(kind, map[]);
      && (s.requireEmailVerification <==> kind == Production)
      && s.mailUseTls && !s.mailUseSsl
      && s.mailPort == Some(DefaultMailPort)
      && s.mailDefaultSender == None
      && s.secretKey == DefaultSecretKey && s.containerName == DefaultContainer
      && s.databaseUrl == (match kind
           case Development => DefaultDevDatabase
           case Testing => DefaultTestDatabase
           case _ => DefaultDatabase)
  {
    FlagSpec(None, "", "");
  }

  /**
   * An explicit REQUIRE_EMAIL_VERIFICATION decides the flag in every
   * class: only the default differs between them.
   */
  lemma VerificationFromEnv(env: Env, k1: Kind, k2: Kind)
    requires VerificationVar in env && |env[VerificationVar]| > 0
    ensures Load(k1, env).requireEmailVerification == Load(k2, env).requireEmailVerification
  {
    FlagSpec(Get(env, VerificationVar), "true", "false");
  }

  /**
   * A configured database URL is never empty and never keeps the
   * "postgres://" scheme.
   */
  lemma DatabaseUrlNormalized(kind: Kind, env: Env)
    ensures |DatabaseUrl(kind, env)| > 0
    ensures !StartsWith(DatabaseUrl(kind, env), PostgresScheme)
  {
    var v := match kind
      case Development => Get(env, DevDatabaseVar)
      case Testing => Get(env, TestDatabaseVar)
      case _ => Get(env, DatabaseVar);
    var d := match kind
      case Development => DefaultDevDatabase
      case Testing => DefaultTestDatabase
      case _ => DefaultDatabase;
    assert DatabaseUrl(kind, env) == Or(NormalizeDatabaseUrl(v), d);
    NormalizeDatabaseUrlSpec(v);
    SqliteNotPostgres(d);
  }

  lemma SqliteNotPostgres(d: string)
    requires d == DefaultDatabase || d == DefaultDevDatabase || d == DefaultTestDatabase
    ensures |d| > 0 && !StartsWith(d, PostgresScheme)
  {
    assert d[0] == 's' && PostgresScheme[0] == 'p';
  }

  /**
   * The testing configuration is the development one except for its
   * database, the TESTING and CSRF switches and the insecure cookies.
   */
  lemma TestingExtendsDevelopment(env: Env)
    ensures var t, d := Load(Testing, env), Load(Development, env);
      && t.(databaseUrl := d.databaseUrl, testing := d.testing, csrfEnabled := d.csrfEnabled,
            sessionCookieSecure := d.sessionCookieSecure) == d
      && t.testing && !t.csrfEnabled && t.sessionCookieSecure == Some(false)
  {
  }
}
