/** Start-up validation of the process environment: which required
    variables are unset, the report listing them, and the single-variable
    guard. The environment is a parameter; a variable counts as set when it
    is present and not the empty string (`!process.env[key]` is false). */
module EnvValidation {
  import opened Js

  type Env = map<string, string>

  /** `process.env[key]` is truthy. */
  predicate IsSet(env: Env, key: string) {
    key in env && env[key] != ""
  }

  datatype EnvVar = EnvVar(name: string, description: string)

  /** `REQUIRED_ENV_VARS`, in declaration order. */
  const RequiredEnvVars: seq<EnvVar> := [
    EnvVar("DATABASE_URL", "PostgreSQL connection string"),
    EnvVar("MISTRAL_API_KEY", "Mistral AI API key from console.mistral.ai"),
    EnvVar("AUTH0_DOMAIN", "Auth0 domain (e.g., your-domain.us.auth0.com)"),
    EnvVar("AUTH0_CLIENT_ID", "Auth0 application client ID"),
    EnvVar("AUTH0_CLIENT_SECRET", "Auth0 application client secret"),
    EnvVar("AUTH0_SECRET", "Auth0 session secret (generate with: openssl rand -hex 32)"),
    EnvVar("APP_BASE_URL", "Application base URL (e.g., http://localhost:3000)")
  ]

  /** `OPTIONAL_ENV_VARS`: declared for documentation, never checked. */
  const OptionalEnvVars: seq<EnvVar> := [
    EnvVar("EXA_API_KEY", "Exa AI API key for enhanced web search"),
    EnvVar("FGA_STORE_ID", "Auth0 FGA store ID"),
    EnvVar("FGA_CLIENT_ID", "Auth0 FGA client ID"),
    EnvVar("FGA_CLIENT_SECRET", "Auth0 FGA client secret"),
    EnvVar("FGA_MODEL_ID", "Auth0 FGA model ID (generated after fga:init)"),
    EnvVar("MISTRAL_CHAT_MODEL", "Mistral chat model override"),
    EnvVar("MISTRAL_EMBEDDING_MODEL", "Mistral embedding model override")
  ]

  /** What a thrown `Error` or a returned value leaves behind. */
  datatype Outcome<T> = Ok(value: T) | Throws(message: string)

  /** `EnvValidationResult`; `message` is absent on success. */
  datatype EnvValidationResult = EnvValidationResult(isValid: bool, missing: seq<string>,
                                                     message: Option<string>)

  // ---------------------------------------------------------------------
  // The list of missing variables

  const Separator: string := " - "

  /** `${key} - ${description}` */
  function MissingEntry(v: EnvVar): string {
    v.name + Separator + v.description
  }

  /** The entries the loop pushes for the unset variables of `vars`. */
  function MissingEntries(env: Env, vars: seq<EnvVar>): seq<string> {
    if vars == [] then []
    else
      var last := vars[|vars| - 1];
      MissingEntries(env, vars[..|vars| - 1]) + (if IsSet(env, last.name) then [] else [MissingEntry(last)])
  }

  /** An entry is listed exactly when its variable is unset, and the list
      holds nothing else. */
  lemma {:induction false} MissingEntriesSpec(env: Env, vars: seq<EnvVar>)
    ensures |MissingEntries(env, vars)| <= |vars|
    ensures forall v :: v in vars && !IsSet(env, v.name) ==> MissingEntry(v) in MissingEntries(env, vars)
    ensures forall e :: e in MissingEntries(env, vars) ==>
      exists v :: v in vars && !IsSet(env, v.name) && e == MissingEntry(v)
  {
    if vars != [] {
      var init := vars[..|vars| - 1];
      var last := vars[|vars| - 1];
      MissingEntriesSpec(env, init);
      assert vars == init + [last];
      forall e | e in MissingEntries(env, vars)
        ensures exists v :: v in vars && !IsSet(env, v.name) && e == MissingEntry(v)
      {
        if e in MissingEntries(env, init) {
          var v :| v in init && !IsSet(env, v.name) && e == MissingEntry(v);
          assert v in vars;
        } else {
          assert e == MissingEntry(last);
        }
      }
    }
  }

  /** Nothing is missing exactly when every variable is set. */
  lemma {:induction false} NothingMissingIffAllSet(env: Env, vars: seq<EnvVar>)
    ensures MissingEntries(env, vars) == [] <==> forall v :: v in vars ==> IsSet(env, v.name)
  {
    MissingEntriesSpec(env, vars);
    if MissingEntries(env, vars) != [] {
      var e := MissingEntries(env, vars)[0];
      assert e in MissingEntries(env, vars);
    }
  }

  /** Only the variables' own settings matter. */
  lemma {:induction false} MissingEntriesDependOnlyOnVars(env1: Env, env2: Env, vars: seq<EnvVar>)
    requires forall v :: v in vars ==> (IsSet(env1, v.name) <==> IsSet(env2, v.name))
    ensures MissingEntries(env1, vars) == MissingEntries(env2, vars)
  {
    if vars != [] {
      var init := vars[..|vars| - 1];
      assert forall v :: v in init ==> v in vars;
      MissingEntriesDependOnlyOnVars(env1, env2, init);
      assert vars[|vars| - 1] in vars;
    }
  }

  /** Setting, clearing or changing an optional variable never changes
      what is reported missing. */
  lemma OptionalVarsNeverReported(env: Env, v: EnvVar, value: string)
    requires v in OptionalEnvVars
    ensures MissingEntries(env[v.name := value], RequiredEnvVars) == MissingEntries(env, RequiredEnvVars)
    ensures MissingEntries(env - {v.name}, RequiredEnvVars) == MissingEntries(env, RequiredEnvVars)
  {
    assert forall r :: r in RequiredEnvVars ==> r.name != v.name;
    MissingEntriesDependOnlyOnVars(env[v.name := value], env, RequiredEnvVars);
    MissingEntriesDependOnlyOnVars(env - {v.name}, env, RequiredEnvVars);
  }

  // ---------------------------------------------------------------------
  // `m.split(' - ')[0]`

  /** The first field of `s.split(' - ')`: everything before the first
      separator, or the whole string. */
  function BeforeSeparator(s: string): (r: string)
    ensures |r| <= |s| && r == s[..|r|]
  {
    match IndexOf(s, Separator)
    case None => s
    case Some(k) => s[..k]
  }

  /** `IndexOf` finds the first occurrence. */
  lemma {:induction false} IndexOfFirstOccurrence(s: string, pat: string, k: nat)
    requires k + |pat| <= |s| && s[k..k + |pat|] == pat
    requires forall j :: 0 <= j < k ==> !StartsWith(s[j..], pat)
    ensures IndexOf(s, pat) == Some(k)
    decreases k
  {
    if k == 0 {
      assert s[..|pat|] == s[0..|pat|];
    } else {
      assert !StartsWith(s[0..], pat) by { assert s[0..] == s; }
      assert s[0..] == s;
      forall j | 0 <= j < k - 1 ensures !StartsWith(s[1..][j..], pat) {
        assert s[1..][j..] == s[j + 1..];
      }
      assert s[1..][k - 1..k - 1 + |pat|] == s[k..k + |pat|];
      IndexOfFirstOccurrence(s[1..], pat, k - 1);
    }
  }

  /** Splitting an entry gives back the variable name, for names without
      spaces. */
  lemma EntryNameRoundTrip(v: EnvVar)
    requires ' ' !in v.name
    ensures BeforeSeparator(MissingEntry(v)) == v.name
  {
    var s := MissingEntry(v);
    var n := |v.name|;
    assert s[n..n + |Separator|] == Separator;
    forall j | 0 <= j < n ensures !StartsWith(s[j..], Separator) {
      assert s[j..][0] == v.name[j];
    }
    IndexOfFirstOccurrence(s, Separator, n);
    assert s[..n] == v.name;
  }

  /** No required variable name contains a space. */
  lemma RequiredNamesHaveNoSpaces()
    ensures forall v :: v in RequiredEnvVars ==> ' ' !in v.name
  {
  }

  /** The names of the unset variables, in declaration order. */
  function MissingNames(env: Env, vars: seq<EnvVar>): seq<string> {
    if vars == [] then []
    else
      var last := vars[|vars| - 1];
      MissingNames(env, vars[..|vars| - 1]) + (if IsSet(env, last.name) then [] else [last.name])
  }

  /** A name is reported exactly when a variable of that name is unset. */
  lemma {:induction false} MissingNamesSpec(env: Env, vars: seq<EnvVar>, n: string)
    ensures n in MissingNames(env, vars) <==> exists v :: v in vars && v.name == n && !IsSet(env, n)
  {
    if vars != [] {
      var init := vars[..|vars| - 1];
      var last := vars[|vars| - 1];
      MissingNamesSpec(env, init, n);
      assert vars == init + [last];
      if exists v :: v in vars && v.name == n && !IsSet(env, n) {
        var v :| v in vars && v.name == n && !IsSet(env, n);
        if v != last { assert v in init; }
      }
    }
  }

  /** `missing.map(m => m.split(' - ')[0])` */
  function FirstFields(entries: seq<string>): (r: seq<string>)
    ensures |r| == |entries|
  {
    seq(|entries|, i requires 0 <= i < |entries| => BeforeSeparator(entries[i]))
  }

  /** The returned `missing` list is exactly the unset names. */
  lemma {:induction false} FirstFieldsAreNames(env: Env, vars: seq<EnvVar>)
    requires forall v :: v in vars ==> ' ' !in v.name
    ensures FirstFields(MissingEntries(env, vars)) == MissingNames(env, vars)
  {
    if vars != [] {
      var init := vars[..|vars| - 1];
      var last := vars[|vars| - 1];
      assert forall v :: v in init ==> v in vars;
      FirstFieldsAreNames(env, init);
      assert last in vars;
      EntryNameRoundTrip(last);
    }
  }

  // ---------------------------------------------------------------------
  // The report

  /** A 46-character horizontal rule of U+2501. */
  const Rule: string := "\U{2501}\U{2501}\U{2501}\U{2501}\U{2501}\U{2501}\U{2501}\U{2501}\U{2501}\U{2501}\U{2501}\U{2501}\U{2501}\U{2501}\U{2501}\U{2501}\U{2501}\U{2501}\U{2501}\U{2501}\U{2501}\U{2501}\U{2501}\U{2501}\U{2501}\U{2501}\U{2501}\U{2501}\U{2501}\U{2501}\U{2501}\U{2501}\U{2501}\U{2501}\U{2501}\U{2501}\U{2501}\U{2501}\U{2501}\U{2501}\U{2501}\U{2501}\U{2501}\U{2501}\U{2501}\U{2501}"

  const Header: string :=
    Rule + "\n" +
    "\U{26A0}\U{FE0F}  MISSING REQUIRED ENVIRONMENT VARIABLES \U{26A0}\U{FE0F}\n" +
    Rule + "\n\n" +
    "The following environment variables are required but not set:\n\n"

  const Footer: string :=
    "\n\n" +
    "\U{1F4CB} Setup Instructions:\n" +
    "  1. Copy .env.example to .env.local\n" +
    "  2. Fill in all required values\n" +
    "  3. Restart the development server\n\n" +
    "\U{1F4DA} Documentation: See README.md for detailed setup guide\n\n" +
    Rule

  /** `  ${i + 1}. ${m}` */
  function NumberedLine(i: nat, m: string): string {
    "  " + NatToString(i + 1) + ". " + m
  }

  function NumberedLines(entries: seq<string>): (r: seq<string>)
    ensures |r| == |entries|
  {
    seq(|entries|, i requires 0 <= i < |entries| => NumberedLine(i, entries[i]))
  }

  /** `lines.join('\n')` */
  function JoinLines(lines: seq<string>): string {
    if lines == [] then ""
    else if |lines| == 1 then lines[0]
    else JoinLines(lines[..|lines| - 1]) + "\n" + lines[|lines| - 1]
  }

  /** The trimmed template literal: the surrounding newline and indentation
      are gone, and nothing inside starts or ends with whitespace. */
  function MissingMessage(entries: seq<string>): string {
    Header + JoinLines(NumberedLines(entries)) + Footer
  }

  predicate OccursAt(s: string, sub: string, o: nat) {
    o + |sub| <= |s| && s[o..o + |sub|] == sub
  }

  ghost predicate Contains(s: string, sub: string) {
    exists o: nat :: OccursAt(s, sub, o)
  }

  /** Every line of a join is in it. */
  lemma {:induction false} JoinLinesContainsLine(lines: seq<string>, i: nat)
    requires i < |lines|
    ensures Contains(JoinLines(lines), lines[i])
  {
    var j := JoinLines(lines);
    if |lines| == 1 {
      assert OccursAt(j, lines[i], 0);
    } else {
      var init := lines[..|lines| - 1];
      var ji := JoinLines(init);
      if i == |lines| - 1 {
        assert OccursAt(j, lines[i], |ji| + 1);
      } else {
        assert lines[i] == init[i];
        JoinLinesContainsLine(init, i);
        var o: nat :| OccursAt(ji, lines[i], o);
        assert j[o..o + |lines[i]|] == ji[o..o + |lines[i]|];
        assert OccursAt(j, lines[i], o);
      }
    }
  }

  /** Something inside a part is inside the whole. */
  lemma ContainsInMiddle(p: string, s: string, q: string, sub: string)
    requires Contains(s, sub)
    ensures Contains(p + s + q, sub)
  {
    var o: nat :| OccursAt(s, sub, o);
    assert (p + s + q)[|p| + o..|p| + o + |sub|] == s[o..o + |sub|];
    assert OccursAt(p + s + q, sub, |p| + o);
  }

  /** Whatever follows a lead inside a string is inside it too. */
  lemma OccursAfterLead(s: string, lead: string, m: string, o: nat)
    requires OccursAt(s, lead + m, o)
    ensures OccursAt(s, m, o + |lead|)
  {
    assert s[o + |lead|..o + |lead| + |m|] == (lead + m)[|lead|..];
  }

  /** The report shows every entry, numbered from 1. */
  lemma MessageListsEveryEntry(entries: seq<string>, i: nat)
    requires i < |entries|
    ensures Contains(MissingMessage(entries), NumberedLine(i, entries[i]))
    ensures Contains(MissingMessage(entries), entries[i])
  {
    var line := NumberedLine(i, entries[i]);
    var message := MissingMessage(entries);
    JoinLinesContainsLine(NumberedLines(entries), i);
    ContainsInMiddle(Header, JoinLines(NumberedLines(entries)), Footer, line);
    var o: nat :| OccursAt(message, line, o);
    var lead := "  " + NatToString(i + 1) + ". ";
    assert line == lead + entries[i];
    OccursAfterLead(message, lead, entries[i], o);
  }

  /** The report names every unset required variable with its description. */
  lemma MessageNamesEveryUnsetVariable(env: Env, v: EnvVar)
    requires v in RequiredEnvVars && !IsSet(env, v.name)
    ensures Contains(MissingMessage(MissingEntries(env, RequiredEnvVars)), v.name + " - " + v.description)
  {
    var entries := MissingEntries(env, RequiredEnvVars);
    MissingEntriesSpec(env, RequiredEnvVars);
    var i :| 0 <= i < |entries| && entries[i] == MissingEntry(v);
    MessageListsEveryEntry(entries, i);
  }

  // ---------------------------------------------------------------------
  // Operations

  /** `validateEnv(throwOnError)`. */
  method ValidateEnv(env: Env, throwOnError: bool := true) returns (r: Outcome<EnvValidationResult>)
    ensures r.Throws? <==> throwOnError && exists v :: v in RequiredEnvVars && !IsSet(env, v.name)
    ensures r.Throws? ==> r.message == MissingMessage(MissingEntries(env, RequiredEnvVars))
    ensures r.Ok? ==> (r.value.isValid <==> forall v :: v in RequiredEnvVars ==> IsSet(env, v.name))
    ensures r.Ok? && r.value.isValid ==> r.value.missing == [] && r.value.message.None?
    ensures r.Ok? && !r.value.isValid ==>
      r.value.missing == MissingNames(env, RequiredEnvVars) &&
      r.value.message == Some(MissingMessage(MissingEntries(env, RequiredEnvVars)))
  {
    var missing: seq<string> := [];
    var i := 0;
    while i < |RequiredEnvVars|
      invariant 0 <= i <= |RequiredEnvVars|
      invariant missing == MissingEntries(env, RequiredEnvVars[..i])
    {
      var v := RequiredEnvVars[i];
      assert RequiredEnvVars[..i + 1][..i] == RequiredEnvVars[..i];
      if !(v.name in env && env[v.name] != "") {
        missing := missing + [v.name + " - " + v.description];
      }
      i := i + 1;
    }
    assert RequiredEnvVars[..i] == RequiredEnvVars;
    NothingMissingIffAllSet(env, RequiredEnvVars);

    if |missing| > 0 {
      var message := MissingMessage(missing);
      if throwOnError {
        return Throws(message);
      }
      RequiredNamesHaveNoSpaces();
      FirstFieldsAreNames(env, RequiredEnvVars);
      return Ok(EnvValidationResult(false, FirstFields(missing), Some(message)));
    }
    return Ok(EnvValidationResult(true, [], None));
  }

  const ConfigurationErrorText: string :=
    "Configuration Error: Missing required environment variables. Please check server logs and ensure all required environment variables are set in your .env.local file."

  /** `getUserFriendlyEnvError`: '' when nothing is missing, one fixed
      sentence otherwise (the details go only to the thrown report). */
  method GetUserFriendlyEnvError(env: Env) returns (text: string)
    ensures text == "" <==> forall v :: v in RequiredEnvVars ==> IsSet(env, v.name)
    ensures text != "" ==> text == ConfigurationErrorText
  {
    var r := ValidateEnv(env);
    if r.Throws? {
      return ConfigurationErrorText;
    }
    return "";
  }

  const MissingVariableLead: string := "Missing required environment variable: "

  const RequireEnvHint: string :=
    "\n\nPlease set this in your .env.local file and restart the server.\nSee .env.example for reference."

  /** `requireEnv(varName, description)`. */
  function RequireEnv(env: Env, varName: string, description: Option<string>): (r: Outcome<string>)
    ensures r.Ok? <==> IsSet(env, varName)
    ensures r.Ok? ==> r.value == env[varName] && r.value != ""
    ensures r.Throws? && (description.None? || description.value == "") ==>
      r.message == MissingVariableLead + varName + RequireEnvHint
    ensures r.Throws? && description.Some? && description.value != "" ==>
      r.message == MissingVariableLead + varName + " - " + description.value + RequireEnvHint
  {
    if !(varName in env && env[varName] != "") then
      var detail := if description.Some? && description.value != "" then " - " + description.value else "";
      Throws(MissingVariableLead + varName + detail + RequireEnvHint)
    else
      Ok(env[varName])
  }

  /** An environment that passes `validateEnv` satisfies `requireEnv` for
      every required variable, and one that fails it fails `requireEnv` for
      some required variable. */
  lemma ValidateAgreesWithRequire(env: Env)
    ensures MissingEntries(env, RequiredEnvVars) == [] <==>
      forall v :: v in RequiredEnvVars ==> RequireEnv(env, v.name, Some(v.description)).Ok?
  {
    NothingMissingIffAllSet(env, RequiredEnvVars);
  }
}
