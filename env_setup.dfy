/**
 * The `.env` merge of `setup_azure_credentials` (setup_azure.py): the
 * existing file's entries are read line by line, the two Azure settings are
 * replaced by the answers given, and three defaults are filled in when
 * their keys are absent. The console prompts are the parameters
 * `response`, `connectionInput` and `containerInput`; the existing file is
 * its list of lines.
 */
module EnvSetup {
  import opened Wrappers
  import opened Text

  const ConnectionKey: string := "AZURE_STORAGE_CONNECTION_STRING"
  const ContainerKey: string := "AZURE_CONTAINER_NAME"
  const FlaskConfigKey: string := "FLASK_CONFIG"
  const SecretKeyKey: string := "SECRET_KEY"
  const DatabaseKey: string := "DATABASE_URL"

  const DefaultContainer: string := "compliance-documents"
  const DefaultFlaskConfig: string := "development"
  const DefaultSecretKey: string := "your-super-secret-key-change-this-in-production"
  const DefaultDatabase: string := "sqlite:///compliance.db"

  // ---------------------------------------------------------------------
  // Reading the existing file

  /** A stripped line that holds an entry: not blank, not a comment, with an '='. */
  predicate IsEntry(line: string) {
    var t := Strip(line);
    |t| > 0 && t[0] != '#' && '=' in t
  }

  /** `line.split('=', 1)` on the stripped line: key before the first '=', value after it. */
  function Entry(line: string): (kv: (string, string))
    requires IsEntry(line)
    ensures '=' !in kv.0
    ensures kv.0 + "=" + kv.1 == Strip(line)
  {
    SplitFirst(Strip(line), '=')
  }

  /** `s.split(c, 1)` when `c` occurs in `s`. */
  function SplitFirst(s: string, c: char): (parts: (string, string))
    requires c in s
    ensures c !in parts.0
    ensures parts.0 + [c] + parts.1 == s
  {
    var k := Find(s, c);
    assert s[k] == c;
    assert s[..k] + [s[k]] + s[k + 1..] == s;
    (s[..k], s[k + 1..])
  }

  /** The entry a line holds, if any. */
  function LineEntry(line: string): Option<(string, string)> {
    if IsEntry(line) then Some(Entry(line)) else None
  }

  /** A reading of one line: its entry, or `None` for a line that is skipped. */
  type LineReader = string -> Option<(string, string)>

  /** The dictionary built from the lines seen so far: later entries overwrite earlier ones. */
  function ParseWith(lines: seq<string>, read: LineReader): map<string, string> {
    if |lines| == 0 then map[]
    else
      var before := ParseWith(lines[..|lines| - 1], read);
      var e := read(lines[|lines| - 1]);
      if e.Some? then before[e.value.0 := e.value.1] else before
  }

  function Parse(lines: seq<string>): map<string, string> {
    ParseWith(lines, LineEntry)
  }

  /** The `for line in f` loop filling `env_content`. */
  method ReadEnvFile(lines: seq<string>) returns (content: map<string, string>)
    ensures content == Parse(lines)
  {
    content := map[];
    for i := 0 to |lines|
      invariant content == Parse(lines[..i])
    {
      assert lines[..i + 1][..i] == lines[..i];
      var line := Strip(lines[i]);
      if |line| > 0 && line[0] != '#' && '=' in line {
        var kv := Entry(lines[i]);
        content := content[kv.0 := kv.1];
      }
    }
    assert lines[..|lines|] == lines;
  }

  /** Line `line` is read as an entry for `key`. */
  predicate Carries(read: LineReader, line: string, key: string) {
    read(line).Some? && read(line).value.0 == key
  }

  /** A key is read exactly when some entry line carries it. */
  lemma ParseKeys(lines: seq<string>, key: string)
    ensures key in Parse(lines) <==> exists i :: 0 <= i < |lines| && Carries(LineEntry, lines[i], key)
  {
    if key in Parse(lines) {
      var i := ParsedKeyLine(lines, LineEntry, key);
    }
    if exists i :: 0 <= i < |lines| && Carries(LineEntry, lines[i], key) {
      var i :| 0 <= i < |lines| && Carries(LineEntry, lines[i], key);
      ParseKeepsKey(lines, LineEntry, key, i);
    }
  }

  /** A read key comes from some line. */
  lemma {:induction false} ParsedKeyLine(lines: seq<string>, read: LineReader, key: string) returns (i: nat)
    requires key in ParseWith(lines, read)
    ensures i < |lines| && Carries(read, lines[i], key)
  {
    var init, last := lines[..|lines| - 1], |lines| - 1;
    if Carries(read, lines[last], key) {
      i := last;
    } else {
      i := ParsedKeyLine(init, read, key);
      assert lines[i] == init[i];
    }
  }

  /** A key on any entry line is read. */
  lemma {:induction false} ParseKeepsKey(lines: seq<string>, read: LineReader, key: string, i: nat)
    requires i < |lines| && Carries(read, lines[i], key)
    ensures key in ParseWith(lines, read)
  {
    var init, last := lines[..|lines| - 1], |lines| - 1;
    if i < last {
      assert lines[i] == init[i];
      ParseKeepsKey(init, read, key, i);
    }
  }

  /** A key's value is the one on the last entry line that carries it. */
  lemma ParseLastWins(lines: seq<string>, key: string, i: nat)
    requires i < |lines| && Carries(LineEntry, lines[i], key)
    requires forall j :: i < j < |lines| ==> !Carries(LineEntry, lines[j], key)
    ensures key in Parse(lines) && Parse(lines)[key] == Entry(lines[i]).1
  {
    LastWins(lines, LineEntry, key, i);
  }

  lemma {:induction false} LastWins(lines: seq<string>, read: LineReader, key: string, i: nat)
    requires i < |lines| && Carries(read, lines[i], key)
    requires forall j :: i < j < |lines| ==> !Carries(read, lines[j], key)
    ensures key in ParseWith(lines, read) && ParseWith(lines, read)[key] == read(lines[i]).value.1
  {
    var init, last := lines[..|lines| - 1], |lines| - 1;
    if i < last {
      assert init[i] == lines[i];
      forall j | i < j < |init| ensures !Carries(read, init[j], key) {
        assert init[j] == lines[j];
      }
      LastWins(init, read, key, i);
    }
  }

  // ---------------------------------------------------------------------
  // The merge

  /** How `setup_azure_credentials` ends. */
  datatype Outcome =
    | Cancelled
    | MissingConnectionString
    | Written(content: map<string, string>, file: seq<(string, string)>)

  /** `response.lower() in ['y', 'yes']` */
  predicate Confirmed(response: string) {
    Lower(response) == "y" || Lower(response) == "yes"
  }

  /** The value a default fills: the existing one when the key is present. */
  function Defaulted(content: map<string, string>, key: string, default: string): string {
    if key in content then content[key] else default
  }

  /** The five `KEY=value` lines written, in file order. */
  function FileEntries(content: map<string, string>): seq<(string, string)>
    requires FlaskConfigKey in content && SecretKeyKey in content && ConnectionKey in content
    requires ContainerKey in content && DatabaseKey in content
  {
    [(FlaskConfigKey, content[FlaskConfigKey]), (SecretKeyKey, content[SecretKeyKey]),
     (ConnectionKey, content[ConnectionKey]), (ContainerKey, content[ContainerKey]),
     (DatabaseKey, content[DatabaseKey])]
  }

  /** `env_content` after the two answers and the three defaults are applied. */
  function Merged(existing: map<string, string>, connection: string, container: string): (merged: map<string, string>)
    ensures merged.Keys == existing.Keys + {ConnectionKey, ContainerKey, FlaskConfigKey, SecretKeyKey, DatabaseKey}
  {
    existing[ConnectionKey := connection][ContainerKey := container]
      [FlaskConfigKey := Defaulted(existing, FlaskConfigKey, DefaultFlaskConfig)]
      [SecretKeyKey := Defaulted(existing, SecretKeyKey, DefaultSecretKey)]
      [DatabaseKey := Defaulted(existing, DatabaseKey, DefaultDatabase)]
  }

  /** The two assignments and the three `if key not in env_content` defaults. */
  method MergeAnswers(existing: map<string, string>, connection: string, container: string)
    returns (content: map<string, string>)
    ensures content == Merged(existing, connection, container)
  {
    KeysDistinct();
    content := existing[ConnectionKey := connection];
    content := content[ContainerKey := container];
    if FlaskConfigKey !in content {
      content := content[FlaskConfigKey := DefaultFlaskConfig];
    }
    if SecretKeyKey !in content {
      content := content[SecretKeyKey := DefaultSecretKey];
    }
    if DatabaseKey !in content {
      content := content[DatabaseKey := DefaultDatabase];
    }
  }

  /**
   * `setup_azure_credentials`: an existing file needs a yes to go on, an
   * empty connection string stops before anything is written, and otherwise
   * the merged settings are written.
   */
  method SetupCredentials(envExists: bool, response: string, connectionInput: string,
                          containerInput: string, lines: seq<string>) returns (outcome: Outcome)
    ensures envExists && !Confirmed(response) ==> outcome == Cancelled
    ensures (!envExists || Confirmed(response)) && |Strip(connectionInput)| == 0 ==> outcome == MissingConnectionString
    ensures (!envExists || Confirmed(response)) && |Strip(connectionInput)| > 0 ==>
      var existing := if envExists then Parse(lines) else map[];
      var container := Strip(containerInput);
      && outcome.Written?
      && outcome.content == Merged(existing, Strip(connectionInput), if |container| > 0 then container else DefaultContainer)
      && outcome.file == FileEntries(outcome.content)
  {
    if envExists {
      var answer := Lower(response);
      if !(answer == "y" || answer == "yes") {
        return Cancelled;
      }
    }
    var connectionString := Strip(connectionInput);
    if |connectionString| == 0 {
      return MissingConnectionString;
    }
    var containerName := Strip(containerInput);
    if |containerName| == 0 {
      containerName := DefaultContainer;
    }
    var envContent: map<string, string> := map[];
    if envExists {
      envContent := ReadEnvFile(lines);
    }
    envContent := MergeAnswers(envContent, connectionString, containerName);
    return Written(envContent, FileEntries(envContent));
  }

  lemma KeysDistinct()
    ensures FlaskConfigKey != ConnectionKey && FlaskConfigKey != ContainerKey
    ensures SecretKeyKey != ConnectionKey && SecretKeyKey != ContainerKey
    ensures DatabaseKey != ConnectionKey && DatabaseKey != ContainerKey
  {
    assert FlaskConfigKey[0] == 'F' && SecretKeyKey[0] == 'S' && DatabaseKey[0] == 'D';
    assert ConnectionKey[0] == 'A' && ContainerKey[0] == 'A';
  }

  /**
   * The answers always win over the file, a default only fills a missing
   * key, and an entry of the existing file under any other key stays in
   * the merged settings but is not among the lines written back.
   */
  lemma MergeSpec(existing: map<string, string>, connection: string, container: string, key: string)
    ensures var merged := Merged(existing, connection, container);
      && merged[ConnectionKey] == connection && merged[ContainerKey] == container
      && (FlaskConfigKey in existing ==> merged[FlaskConfigKey] == existing[FlaskConfigKey])
      && (FlaskConfigKey !in existing ==> merged[FlaskConfigKey] == DefaultFlaskConfig)
      && (SecretKeyKey in existing ==> merged[SecretKeyKey] == existing[SecretKeyKey])
      && (SecretKeyKey !in existing ==> merged[SecretKeyKey] == DefaultSecretKey)
      && (DatabaseKey in existing ==> merged[DatabaseKey] == existing[DatabaseKey])
      && (DatabaseKey !in existing ==> merged[DatabaseKey] == DefaultDatabase)
      && (key in existing && !IsWrittenKey(key) ==>
            merged[key] == existing[key]
            && forall i :: 0 <= i < |FileEntries(merged)| ==> FileEntries(merged)[i].0 != key)
  {
    KeysDistinct();
  }

  /** The five keys the script writes back. */
  predicate IsWrittenKey(key: string) {
    key == ConnectionKey || key == ContainerKey || key == FlaskConfigKey || key == SecretKeyKey || key == DatabaseKey
  }
}
