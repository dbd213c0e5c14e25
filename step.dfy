/**
  The step (step/step.go): reads the `variables` input, one `KEY=value` or
  bare `KEY` per line, into records, marks the records whose keys are on the
  secret-key list as sensitive, and shares them through the API client.

  The process environment is the lookup `env` (as `os.Getenv`, it answers
  "" for an unset key); the secret-key list is what the secret-key manager
  loaded; the input parser's outcome is a parameter of `ProcessConfig`.
 */
module Step {
  import opened Wrappers
  import opened GoStrings
  import Api

  /** The step's inputs as the input parser fills them. */
  datatype Input = Input(envVars: string, appURL: string, buildSlug: string, buildAPIToken: string)

  datatype EnvVar = EnvVar(key: string, value: string, sensitive: bool)

  datatype Config = Config(envVars: seq<EnvVar>, appURL: string, buildSlug: string, buildAPIToken: string)

  function FormatError(line: string): string {
    "env var should be in a format: KEY=value or KEY: " + line
  }

  // ---------------------------------------------------------------------------
  // Parsing, as a function of the input, line by line.

  /** What one line of the input contributes. */
  datatype LineOutcome = Blank | Record(v: EnvVar) | Rejected(message: string)

  /** One trimmed, non-blank line: its record, or the error when its key is empty. */
  function ParseEntry(line: string, secretKeys: seq<string>, env: string -> string): (r: Result<EnvVar, string>)
    ensures r.Failure? <==> line == "" || HasEmptyKey(line)
    ensures r.Failure? ==> r.error == FormatError(line)
    ensures r.Success? ==> Describes(line, r.value, secretKeys, env)
  {
    var cut := Cut(line, '=');
    if cut.before == "" then
      assert cut.found ==> line[0] == '=';
      Failure(FormatError(line))
    else
      assert line[..|cut.before|] == cut.before && line[0] == cut.before[0];
      assert cut.found ==> line[|cut.before| + 1..] == cut.after;
      var value := if cut.after == "" then env(cut.before) else cut.after;
      Success(EnvVar(cut.before, value, cut.before in secretKeys))
  }

  function ParseLine(raw: string, secretKeys: seq<string>, env: string -> string): LineOutcome {
    var line := TrimSpace(raw);
    if line == "" then Blank
    else match ParseEntry(line, secretKeys, env)
      case Success(v) => Record(v)
      case Failure(message) => Rejected(message)
  }

  /** The records of `lines` in order, or the error of the first rejected line. */
  function ParseLines(lines: seq<string>, secretKeys: seq<string>, env: string -> string): Result<seq<EnvVar>, string> {
    if |lines| == 0 then Success([])
    else match ParseLine(lines[0], secretKeys, env)
      case Blank => ParseLines(lines[1..], secretKeys, env)
      case Rejected(message) => Failure(message)
      case Record(v) => Prepend([v], ParseLines(lines[1..], secretKeys, env))
  }

  /** At most one record per line, and an error always quotes one of the trimmed lines. */
  lemma {:induction false} ParseLinesBounds(lines: seq<string>, secretKeys: seq<string>, env: string -> string)
    ensures ParseLines(lines, secretKeys, env).Success? ==> |ParseLines(lines, secretKeys, env).value| <= |lines|
    ensures ParseLines(lines, secretKeys, env).Failure? ==>
      exists k :: 0 <= k < |lines| && ParseLines(lines, secretKeys, env).error == FormatError(TrimSpace(lines[k]))
  {
    if |lines| > 0 {
      var rest := ParseLines(lines[1..], secretKeys, env);
      ParseLinesBounds(lines[1..], secretKeys, env);
      var r := ParseLines(lines, secretKeys, env);
      match ParseLine(lines[0], secretKeys, env)
      case Blank =>
        assert r == rest;
        if rest.Failure? {
          var k :| 0 <= k < |lines[1..]| && rest.error == FormatError(TrimSpace(lines[1..][k]));
          assert lines[1..][k] == lines[k + 1];
        }
      case Rejected(message) =>
        assert message == FormatError(TrimSpace(lines[0]));
        assert r == Failure(message);
      case Record(v) =>
        assert r == Prepend([v], rest);
        if rest.Failure? {
          var k :| 0 <= k < |lines[1..]| && rest.error == FormatError(TrimSpace(lines[1..][k]));
          assert lines[1..][k] == lines[k + 1];
        }
    }
  }

  function Prepend(vs: seq<EnvVar>, r: Result<seq<EnvVar>, string>): Result<seq<EnvVar>, string> {
    match r
    case Success(ws) => Success(vs + ws)
    case Failure(e) => Failure(e)
  }

  lemma PrependNothing(r: Result<seq<EnvVar>, string>)
    ensures Prepend([], r) == r
  {
    if r.Success? {
      assert [] + r.value == r.value;
    }
  }

  lemma PrependTwice(vs: seq<EnvVar>, ws: seq<EnvVar>, r: Result<seq<EnvVar>, string>)
    ensures Prepend(vs, Prepend(ws, r)) == Prepend(vs + ws, r)
  {
    if r.Success? {
      assert vs + (ws + r.value) == (vs + ws) + r.value;
    }
  }

  function Parse(input: string, secretKeys: seq<string>, env: string -> string): Result<seq<EnvVar>, string> {
    ParseLines(Split(input, '\n'), secretKeys, env)
  }

  /**
    At most one record per line of the input (one more than it has
    newlines), and an error always quotes one of its trimmed lines.
   */
  lemma ParseBounds(input: string, secretKeys: seq<string>, env: string -> string)
    ensures Parse(input, secretKeys, env).Success? ==> |Parse(input, secretKeys, env).value| <= multiset(input)['\n'] + 1
    ensures Parse(input, secretKeys, env).Failure? ==>
      exists k :: 0 <= k < |Split(input, '\n')| && Parse(input, secretKeys, env).error == FormatError(TrimSpace(Split(input, '\n')[k]))
  {
    SplitCount(input, '\n');
    ParseLinesBounds(Split(input, '\n'), secretKeys, env);
  }

  /**
    `parseEnvVars`: walks the lines of the input, skips blank ones, and
    either collects one record per remaining line or stops at the first
    line that has no key.
   */
  method ParseEnvVars(input: string, secretKeys: seq<string>, env: string -> string)
    returns (r: Result<seq<EnvVar>, string>)
    ensures r == Parse(input, secretKeys, env)
  {
    var envVars: seq<EnvVar> := [];
    var lines := Split(input, '\n');
    PrependNothing(ParseLines(lines, secretKeys, env));
    assert lines[0..] == lines;
    for i := 0 to |lines|
      invariant ParseLines(lines, secretKeys, env) == Prepend(envVars, ParseLines(lines[i..], secretKeys, env))
    {
      ParseLinesStep(lines, i, secretKeys, env);
      var line := TrimSpace(lines[i]);
      if line == "" {
        assert ParseLine(lines[i], secretKeys, env) == Blank;
        continue;
      }
      var cut := Cut(line, '=');
      var key, value := cut.before, cut.after;
      if key == "" {
        assert ParseLine(lines[i], secretKeys, env) == Rejected(FormatError(line));
        return Failure(FormatError(line));
      }
      if value == "" {
        value := env(key);
      }
      var isSensitive := key in secretKeys;
      assert ParseLine(lines[i], secretKeys, env) == Record(EnvVar(key, value, isSensitive));
      PrependTwice(envVars, [EnvVar(key, value, isSensitive)], ParseLines(lines[i + 1..], secretKeys, env));
      envVars := envVars + [EnvVar(key, value, isSensitive)];
    }
    assert lines[|lines|..] == [];
    assert envVars + [] == envVars;
    r := Success(envVars);
  }

  /** What the line at `i` does to the parse of the lines from `i` on. */
  lemma ParseLinesStep(lines: seq<string>, i: nat, secretKeys: seq<string>, env: string -> string)
    requires i < |lines|
    ensures ParseLines(lines[i..], secretKeys, env) ==
      match ParseLine(lines[i], secretKeys, env)
      case Blank => ParseLines(lines[i + 1..], secretKeys, env)
      case Rejected(message) => Failure(message)
      case Record(v) => Prepend([v], ParseLines(lines[i + 1..], secretKeys, env))
  {
    assert lines[i..][0] == lines[i] && lines[i..][1..] == lines[i + 1..];
  }

  // ---------------------------------------------------------------------------
  // What the parse promises, against an independent description of the lines.

  /** The trimmed non-blank lines, in input order. */
  function NonBlankLines(lines: seq<string>): (nb: seq<string>)
    ensures forall k :: 0 <= k < |nb| ==> nb[k] != "" && !IsSpace(nb[k][0]) && !IsSpace(nb[k][|nb[k]| - 1])
  {
    if |lines| == 0 then []
    else
      var t := TrimSpace(lines[0]);
      (if t == "" then [] else [t]) + NonBlankLines(lines[1..])
  }

  /** The entries of an input: its lines, trimmed, without the blank ones. */
  function Entries(input: string): seq<string> {
    NonBlankLines(Split(input, '\n'))
  }

  /**
    `v` is the record for the trimmed line `line`: its key is the text before
    the first `=` (the whole line when there is none) and is not empty; its
    value is the text after that `=`, later `=` included and nothing trimmed,
    or the environment's value of the key when that text is empty; it is
    sensitive exactly when its key is a secret key.
   */
  predicate Describes(line: string, v: EnvVar, secretKeys: seq<string>, env: string -> string) {
    && v.key != "" && '=' !in v.key
    && |v.key| <= |line| && line[..|v.key|] == v.key
    && (if |v.key| == |line| then v.value == env(v.key)
        else
          line[|v.key|] == '=' &&
          var rest := line[|v.key| + 1..];
          v.value == if rest == "" then env(v.key) else rest)
    && v.sensitive == (v.key in secretKeys)
  }

  /** A line is rejected when it starts with `=`, so that its key is empty. */
  predicate HasEmptyKey(line: string) {
    |line| > 0 && line[0] == '='
  }

  /** The records of the entries in order, or the error of the first rejected entry. */
  function ParseEntries(nb: seq<string>, secretKeys: seq<string>, env: string -> string): Result<seq<EnvVar>, string> {
    if |nb| == 0 then Success([])
    else match ParseEntry(nb[0], secretKeys, env)
      case Failure(message) => Failure(message)
      case Success(v) => Prepend([v], ParseEntries(nb[1..], secretKeys, env))
  }

  /** Parsing the lines is parsing their entries: blank lines contribute nothing. */
  lemma {:induction false} LinesAreEntries(lines: seq<string>, secretKeys: seq<string>, env: string -> string)
    ensures ParseLines(lines, secretKeys, env) == ParseEntries(NonBlankLines(lines), secretKeys, env)
  {
    if |lines| > 0 {
      LinesAreEntries(lines[1..], secretKeys, env);
      var t := TrimSpace(lines[0]);
      var nb := NonBlankLines(lines);
      if t == "" {
        assert nb == [] + NonBlankLines(lines[1..]) == NonBlankLines(lines[1..]);
      } else {
        assert nb[0] == t && nb[1..] == NonBlankLines(lines[1..]);
      }
    }
  }

  lemma {:induction false} EntriesSucceedIff(nb: seq<string>, secretKeys: seq<string>, env: string -> string)
    requires forall k :: 0 <= k < |nb| ==> nb[k] != ""
    ensures ParseEntries(nb, secretKeys, env).Success? <==> forall k :: 0 <= k < |nb| ==> !HasEmptyKey(nb[k])
  {
    if |nb| > 0 {
      EntriesSucceedIff(nb[1..], secretKeys, env);
      assert forall k :: 1 <= k < |nb| ==> nb[k] == nb[1..][k - 1];
    }
  }

  lemma {:induction false} EntriesRecords(nb: seq<string>, secretKeys: seq<string>, env: string -> string)
    requires forall k :: 0 <= k < |nb| ==> nb[k] != ""
    requires ParseEntries(nb, secretKeys, env).Success?
    ensures |ParseEntries(nb, secretKeys, env).value| == |nb|
    ensures forall k :: 0 <= k < |nb| ==> Describes(nb[k], ParseEntries(nb, secretKeys, env).value[k], secretKeys, env)
  {
    if |nb| > 0 {
      EntriesRecords(nb[1..], secretKeys, env);
      var vs := ParseEntries(nb, secretKeys, env).value;
      var vs' := ParseEntries(nb[1..], secretKeys, env).value;
      assert vs == [ParseEntry(nb[0], secretKeys, env).value] + vs';
      forall k | 0 <= k < |nb| ensures Describes(nb[k], vs[k], secretKeys, env) {
        if k > 0 { assert nb[k] == nb[1..][k - 1] && vs[k] == vs'[k - 1]; }
      }
    }
  }

  lemma {:induction false} EntriesFailure(nb: seq<string>, secretKeys: seq<string>, env: string -> string)
    requires forall k :: 0 <= k < |nb| ==> nb[k] != ""
    requires ParseEntries(nb, secretKeys, env).Failure?
    ensures exists k ::
      && 0 <= k < |nb|
      && HasEmptyKey(nb[k])
      && ParseEntries(nb, secretKeys, env).error == FormatError(nb[k])
      && forall j :: 0 <= j < k ==> !HasEmptyKey(nb[j])
  {
    if ParseEntry(nb[0], secretKeys, env).Failure? {
      assert HasEmptyKey(nb[0]);
    } else {
      EntriesFailure(nb[1..], secretKeys, env);
      var k :| && 0 <= k < |nb[1..]|
               && HasEmptyKey(nb[1..][k])
               && ParseEntries(nb[1..], secretKeys, env).error == FormatError(nb[1..][k])
               && forall j :: 0 <= j < k ==> !HasEmptyKey(nb[1..][j]);
      assert nb[k + 1] == nb[1..][k];
      forall j | 0 <= j < k + 1 ensures !HasEmptyKey(nb[j]) {
        if j > 0 { assert nb[j] == nb[1..][j - 1]; }
      }
    }
  }

  /** Parsing succeeds exactly when no entry starts with `=`. */
  lemma ParseSucceedsIff(input: string, secretKeys: seq<string>, env: string -> string)
    ensures Parse(input, secretKeys, env).Success?
        <==> forall k :: 0 <= k < |Entries(input)| ==> !HasEmptyKey(Entries(input)[k])
  {
    LinesAreEntries(Split(input, '\n'), secretKeys, env);
    EntriesSucceedIff(Entries(input), secretKeys, env);
  }

  /** On success there is exactly one record per entry, in input order, each the one its entry describes. */
  lemma ParseRecordsFollowEntries(input: string, secretKeys: seq<string>, env: string -> string)
    requires Parse(input, secretKeys, env).Success?
    ensures |Parse(input, secretKeys, env).value| == |Entries(input)|
    ensures forall k :: 0 <= k < |Entries(input)| ==>
      Describes(Entries(input)[k], Parse(input, secretKeys, env).value[k], secretKeys, env)
  {
    LinesAreEntries(Split(input, '\n'), secretKeys, env);
    EntriesRecords(Entries(input), secretKeys, env);
  }

  /** Conversely, records that the entries describe one for one are the parse. */
  lemma ParseOfDescribedRecords(input: string, vs: seq<EnvVar>, secretKeys: seq<string>, env: string -> string)
    requires |vs| == |Entries(input)|
    requires forall k :: 0 <= k < |vs| ==> Describes(Entries(input)[k], vs[k], secretKeys, env)
    ensures Parse(input, secretKeys, env) == Success(vs)
  {
    var nb := Entries(input);
    forall k | 0 <= k < |nb| ensures !HasEmptyKey(nb[k]) {
      assert nb[k][0] == vs[k].key[0];
    }
    ParseSucceedsIff(input, secretKeys, env);
    ParseRecordsFollowEntries(input, secretKeys, env);
    var ws := Parse(input, secretKeys, env).value;
    forall k | 0 <= k < |vs| ensures ws[k] == vs[k] {
      DescribesUnique(nb[k], ws[k], vs[k], secretKeys, env);
    }
    assert ws == vs;
  }

  /** On failure the whole parse fails with the error naming the first entry that starts with `=`. */
  lemma ParseFailureNamesFirstRejectedLine(input: string, secretKeys: seq<string>, env: string -> string)
    requires Parse(input, secretKeys, env).Failure?
    ensures exists k ::
      && 0 <= k < |Entries(input)|
      && HasEmptyKey(Entries(input)[k])
      && Parse(input, secretKeys, env).error == FormatError(Entries(input)[k])
      && forall j :: 0 <= j < k ==> !HasEmptyKey(Entries(input)[j])
  {
    LinesAreEntries(Split(input, '\n'), secretKeys, env);
    EntriesFailure(Entries(input), secretKeys, env);
  }

  /** Every parsed key is non-empty, has no `=` and does not start with white space. */
  lemma ParsedKeysWellFormed(input: string, secretKeys: seq<string>, env: string -> string)
    requires Parse(input, secretKeys, env).Success?
    ensures forall v :: v in Parse(input, secretKeys, env).value ==>
      v.key != "" && '=' !in v.key && !IsSpace(v.key[0])
  {
    var vs := Parse(input, secretKeys, env).value;
    var nb := Entries(input);
    ParseRecordsFollowEntries(input, secretKeys, env);
    forall v | v in vs ensures v.key != "" && '=' !in v.key && !IsSpace(v.key[0]) {
      var k :| 0 <= k < |vs| && vs[k] == v;
      assert Describes(nb[k], v, secretKeys, env);
      assert v.key[0] == nb[k][0];
    }
  }

  /** An entry describes at most one record. */
  lemma DescribesUnique(line: string, v1: EnvVar, v2: EnvVar, secretKeys: seq<string>, env: string -> string)
    requires Describes(line, v1, secretKeys, env) && Describes(line, v2, secretKeys, env)
    ensures v1 == v2
  {
    if |v1.key| < |v2.key| {
      assert false;
    } else if |v2.key| < |v1.key| {
      assert false;
    }
  }

  /** An input of white space only (blank lines included) gives no records and no error. */
  lemma WhitespaceOnlyInputIsEmpty(input: string, secretKeys: seq<string>, env: string -> string)
    requires AllSpace(input)
    ensures Parse(input, secretKeys, env) == Success([])
  {
    var lines := Split(input, '\n');
    forall k | 0 <= k < |lines| ensures AllSpace(lines[k]) {
      forall j | 0 <= j < |lines[k]| ensures IsSpace(lines[k][j]) {
        SplitChars(input, '\n', k, j);
      }
    }
    AllBlankLines(lines, secretKeys, env);
  }

  lemma {:induction false} AllBlankLines(lines: seq<string>, secretKeys: seq<string>, env: string -> string)
    requires forall k :: 0 <= k < |lines| ==> AllSpace(lines[k])
    ensures ParseLines(lines, secretKeys, env) == Success([])
  {
    if |lines| > 0 {
      assert TrimSpace(lines[0]) == "";
      AllBlankLines(lines[1..], secretKeys, env);
    }
  }

  // ---------------------------------------------------------------------------
  // Projection, configuration and sharing.

  /** `Config.APIEnvVars`: the records as the API takes them, one for one, in order. */
  method APIEnvVars(c: Config) returns (apiEnvVars: seq<Api.SharedEnvVar>)
    ensures |apiEnvVars| == |c.envVars|
    ensures forall k :: 0 <= k < |c.envVars| ==>
      && apiEnvVars[k].key == c.envVars[k].key
      && apiEnvVars[k].value == c.envVars[k].value
      && apiEnvVars[k].sensitive == c.envVars[k].sensitive
  {
    apiEnvVars := [];
    for i := 0 to |c.envVars|
      invariant |apiEnvVars| == i
      invariant forall k :: 0 <= k < i ==>
        && apiEnvVars[k].key == c.envVars[k].key
        && apiEnvVars[k].value == c.envVars[k].value
        && apiEnvVars[k].sensitive == c.envVars[k].sensitive
    {
      var envVar := c.envVars[i];
      apiEnvVars := apiEnvVars + [Api.SharedEnvVar(envVar.key, envVar.value, envVar.sensitive)];
    }
  }

  /**
    `ProcessConfig`: the input parser's error, or the parse error of the
    variables, or the configuration of the parsed records and the other inputs.
   */
  method ProcessConfig(parsed: Result<Input, string>, secretKeys: seq<string>, env: string -> string)
    returns (r: Result<Config, string>)
    ensures parsed.Failure? ==> r == Failure(parsed.error)
    ensures parsed.Success? && Parse(parsed.value.envVars, secretKeys, env).Failure? ==>
      r == Failure(Parse(parsed.value.envVars, secretKeys, env).error)
    ensures parsed.Success? && Parse(parsed.value.envVars, secretKeys, env).Success? ==>
      r == Success(Config(Parse(parsed.value.envVars, secretKeys, env).value,
                          parsed.value.appURL, parsed.value.buildSlug, parsed.value.buildAPIToken))
    ensures r.Success? ==> forall v :: v in r.value.envVars ==> v.key != "" && '=' !in v.key
  {
    if parsed.Failure? {
      return Failure(parsed.error);
    }
    var input := parsed.value;
    var envVars := ParseEnvVars(input.envVars, secretKeys, env);
    if envVars.Failure? {
      return Failure(envVars.error);
    }
    ParsedKeysWellFormed(input.envVars, secretKeys, env);
    r := Success(Config(envVars.value, input.appURL, input.buildSlug, input.buildAPIToken));
  }

  /**
    `Run`: shares the configuration's records with the build's endpoint and
    returns the sharing error as it is: the transport's failure, or the
    response check's text, which is absent exactly for a 2xx status.
   */
  method Run(config: Config, transport: Api.Transport) returns (x: Api.Exchange)
    ensures x.request.httpMethod == "POST"
    ensures x.request.url == config.appURL + Api.EndpointPrefix + config.buildSlug + Api.EndpointSuffix
    ensures Api.HeaderValue(x.request.headers, "content-type") == Some("application/json; charset=UTF-8")
    ensures Api.HeaderValue(x.request.headers, "X-HTTP_BUILD_API_TOKEN") == Some(config.buildAPIToken)
    ensures match Api.DecodeRequest(x.request.body)
      case Some(req) =>
        && |req.sharedEnvs| == |config.envVars|
        && forall k :: 0 <= k < |config.envVars| ==>
             req.sharedEnvs[k] == Api.SharedEnvVar(config.envVars[k].key, config.envVars[k].value, config.envVars[k].sensitive)
      case None => false
    ensures x.err.None? <==> transport.Responded? && 200 <= transport.statusCode < 300
    ensures transport.TransportFailed? ==> x.err == Some(transport.cause)
    ensures transport.Responded? ==>
      x.err == Api.CheckEnvVarShareResponse(Api.Response(x.request.url, transport.statusCode, transport.body))
  {
    var client := Api.NewBitriseClient(config.appURL, config.buildSlug, config.buildAPIToken);
    var apiEnvVars := APIEnvVars(config);
    x := Api.ShareEnvVars(client, apiEnvVars, transport);
  }

  // ---------------------------------------------------------------------------
  // One-line inputs, the shapes step/step_test.go exercises.

  /** A single line with no white space at either end is the input's only entry. */
  lemma OneLineEntries(line: string)
    requires '\n' !in line && line != ""
    requires !IsSpace(line[0]) && !IsSpace(line[|line| - 1])
    ensures Entries(line) == [line]
  {
    SplitWithoutSeparator(line, '\n');
    TrimmedIsUnchanged(line);
    OneEntry(line);
  }

  lemma OneEntry(line: string)
    requires TrimSpace(line) == line && line != ""
    ensures NonBlankLines([line]) == [line]
  {
    assert [line][1..] == [];
  }

  /**
    `KEY=value` on one line: the key is everything before the first `=`, the
    value everything after it (later `=` and the spaces next to the `=`
    included), read from the environment when it is empty.
   */
  lemma OneAssignment(key: string, value: string, secretKeys: seq<string>, env: string -> string)
    requires key != "" && '=' !in key && !IsSpace(key[0])
    requires '\n' !in key && '\n' !in value
    requires value == "" || !IsSpace(value[|value| - 1])
    ensures Parse(key + "=" + value, secretKeys, env)
         == Success([EnvVar(key, if value == "" then env(key) else value, key in secretKeys)])
  {
    var line := key + "=" + value;
    assert line[0] == key[0];
    assert line[|line| - 1] == if value == "" then '=' else value[|value| - 1];
    assert '\n' !in line;
    OneLineEntries(line);
    assert line[..|key|] == key && line[|key|] == '=' && line[|key| + 1..] == value;
    ParseOfDescribedRecords(line, [EnvVar(key, if value == "" then env(key) else value, key in secretKeys)], secretKeys, env);
  }

  /** A bare `KEY` on one line takes its value from the environment. */
  lemma OneBareKey(key: string, secretKeys: seq<string>, env: string -> string)
    requires key != "" && '=' !in key && '\n' !in key
    requires !IsSpace(key[0]) && !IsSpace(key[|key| - 1])
    ensures Parse(key, secretKeys, env) == Success([EnvVar(key, env(key), key in secretKeys)])
  {
    OneLineEntries(key);
    assert key[..|key|] == key;
    ParseOfDescribedRecords(key, [EnvVar(key, env(key), key in secretKeys)], secretKeys, env);
  }

  /** A line that starts with `=` fails the whole parse, and the error quotes the line. */
  lemma OneLineWithoutKey(line: string, secretKeys: seq<string>, env: string -> string)
    requires line != "" && line[0] == '=' && '\n' !in line && !IsSpace(line[|line| - 1])
    ensures Parse(line, secretKeys, env) == Failure(FormatError(line))
  {
    OneLineEntries(line);
    ParseSucceedsIff(line, secretKeys, env);
    ParseFailureNamesFirstRejectedLine(line, secretKeys, env);
  }
}
