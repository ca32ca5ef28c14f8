/** The environment-variable namespace of the bridge (src/auth/env.ts):
    names are built from normalized segments of the API and scheme names,
    and the environment is an explicit map. */
module Env {
  import opened Wrappers
  import opened JsString
  import opened JsonValue
  import opened Errors
  import opened Records
  import OpenApi

  type Environment = map<string, string>

  /** `env[key]`, with `None` for `undefined`. */
  function Lookup(env: Environment, key: string): Option<string> {
    if key in env then Some(env[key]) else None
  }

  predicate IsUpperAlnum(c: char) {
    'A' <= c <= 'Z' || '0' <= c <= '9'
  }

  predicate SegmentChar(c: char) {
    IsUpperAlnum(c) || c == '_'
  }

  predicate SegmentChars(s: string) {
    forall i :: 0 <= i < |s| ==> SegmentChar(s[i])
  }

  ghost predicate NoDoubleUnderscore(s: string) {
    forall i, j :: 0 <= i < j < |s| && j == i + 1 ==> !(s[i] == '_' && s[j] == '_')
  }

  /** The shape of every normalized segment: only `A-Z`, `0-9` and `_`, no
      `_` at either end and never two in a row. */
  ghost predicate IsNormalSegment(s: string) {
    && SegmentChars(s)
    && NoDoubleUnderscore(s)
    && (s == [] || (s[0] != '_' && s[|s| - 1] != '_'))
  }

  /** `.replace(/[^A-Z0-9]+/g, "_")`; `inRun` holds when the character before
      `s` was part of a replaced run. */
  function ReplaceNonAlnumRuns(s: string, inRun: bool): string {
    if s == [] then []
    else if IsUpperAlnum(s[0]) then [s[0]] + ReplaceNonAlnumRuns(s[1..], false)
    else if inRun then ReplaceNonAlnumRuns(s[1..], true)
    else ['_'] + ReplaceNonAlnumRuns(s[1..], true)
  }

  /** `.replace(/_+/g, "_")`. */
  function SqueezeUnderscores(s: string, inRun: bool): string {
    if s == [] then []
    else if s[0] != '_' then [s[0]] + SqueezeUnderscores(s[1..], false)
    else if inRun then SqueezeUnderscores(s[1..], true)
    else ['_'] + SqueezeUnderscores(s[1..], true)
  }

  function DropLeadingUnderscores(s: string): string {
    if s != [] && s[0] == '_' then DropLeadingUnderscores(s[1..]) else s
  }

  function DropTrailingUnderscores(s: string): string {
    if s != [] && s[|s| - 1] == '_' then DropTrailingUnderscores(s[..|s| - 1]) else s
  }

  /** `.replace(/^_+|_+$/g, "")`. */
  function TrimUnderscores(s: string): string {
    DropTrailingUnderscores(DropLeadingUnderscores(s))
  }

  /** `normalizeEnvSegment`: upper-case, every run of characters other than
      `A-Z0-9` becomes one `_`, runs of `_` shrink to one, and `_` at either
      end is dropped. */
  function NormalizeEnvSegment(value: string): string {
    TrimUnderscores(SqueezeUnderscores(ReplaceNonAlnumRuns(Upper(value), false), false))
  }

  lemma ConsShape(c: char, r: string)
    requires NoDoubleUnderscore(r)
    requires c != '_' || r == [] || r[0] != '_'
    ensures NoDoubleUnderscore([c] + r)
    ensures SegmentChar(c) && SegmentChars(r) ==> SegmentChars([c] + r)
  {
    var t := [c] + r;
    forall i, j | 0 <= i < j < |t| && j == i + 1 ensures !(t[i] == '_' && t[j] == '_') {
      if i > 0 {
        assert t[i] == r[i - 1] && t[j] == r[j - 1];
      }
    }
  }

  lemma {:induction false} ReplaceShape(s: string, inRun: bool)
    ensures SegmentChars(ReplaceNonAlnumRuns(s, inRun)) && NoDoubleUnderscore(ReplaceNonAlnumRuns(s, inRun))
    ensures inRun ==> ReplaceNonAlnumRuns(s, inRun) == [] || ReplaceNonAlnumRuns(s, inRun)[0] != '_'
  {
    if s != [] {
      if IsUpperAlnum(s[0]) {
        ReplaceShape(s[1..], false);
        ConsShape(s[0], ReplaceNonAlnumRuns(s[1..], false));
      } else {
        ReplaceShape(s[1..], true);
        if !inRun {
          ConsShape('_', ReplaceNonAlnumRuns(s[1..], true));
        }
      }
    }
  }

  lemma {:induction false} SqueezeShape(s: string, inRun: bool)
    ensures NoDoubleUnderscore(SqueezeUnderscores(s, inRun))
    ensures SegmentChars(s) ==> SegmentChars(SqueezeUnderscores(s, inRun))
    ensures inRun ==> SqueezeUnderscores(s, inRun) == [] || SqueezeUnderscores(s, inRun)[0] != '_'
  {
    if s != [] {
      if s[0] != '_' {
        SqueezeShape(s[1..], false);
        ConsShape(s[0], SqueezeUnderscores(s[1..], false));
      } else {
        SqueezeShape(s[1..], true);
        if !inRun {
          ConsShape('_', SqueezeUnderscores(s[1..], true));
        }
      }
    }
  }

  lemma {:induction false} DropLeadingShape(s: string)
    ensures var r := DropLeadingUnderscores(s);
      |r| <= |s| && r == s[|s| - |r|..] && (r == [] || r[0] != '_')
  {
    if s != [] && s[0] == '_' {
      DropLeadingShape(s[1..]);
    }
  }

  lemma {:induction false} DropTrailingShape(s: string)
    ensures var r := DropTrailingUnderscores(s);
      r <= s && (r == [] || r[|r| - 1] != '_')
  {
    if s != [] && s[|s| - 1] == '_' {
      DropTrailingShape(s[..|s| - 1]);
    }
  }

  lemma TrimShape(s: string)
    ensures var r := TrimUnderscores(s);
      && (SegmentChars(s) ==> SegmentChars(r))
      && (NoDoubleUnderscore(s) ==> NoDoubleUnderscore(r))
      && (r == [] || (r[0] != '_' && r[|r| - 1] != '_'))
  {
    var t := DropLeadingUnderscores(s);
    var r := DropTrailingUnderscores(t);
    DropLeadingShape(s);
    DropTrailingShape(t);
    assert forall i :: 0 <= i < |r| ==> r[i] == s[|s| - |t| + i];
    if r != [] {
      assert r[0] == t[0];
    }
  }

  /** Every normalized segment has the normal shape: only `A-Z`, `0-9` and
      `_`, no `_` at either end, never two `_` in a row. */
  lemma NormalizeIsNormal(value: string)
    ensures IsNormalSegment(NormalizeEnvSegment(value))
  {
    var a := ReplaceNonAlnumRuns(Upper(value), false);
    ReplaceShape(Upper(value), false);
    SqueezeShape(a, false);
    TrimShape(SqueezeUnderscores(a, false));
  }

  lemma {:induction false} ReplaceKeepsSegment(s: string, inRun: bool)
    requires SegmentChars(s) && NoDoubleUnderscore(s)
    requires inRun ==> s == [] || s[0] != '_'
    ensures ReplaceNonAlnumRuns(s, inRun) == s
  {
    if s != [] {
      ReplaceKeepsSegment(s[1..], s[0] == '_');
    }
  }

  lemma {:induction false} SqueezeKeepsSegment(s: string, inRun: bool)
    requires NoDoubleUnderscore(s)
    requires inRun ==> s == [] || s[0] != '_'
    ensures SqueezeUnderscores(s, inRun) == s
  {
    if s != [] {
      SqueezeKeepsSegment(s[1..], s[0] == '_');
    }
  }

  /** A normalized segment is left as it is. */
  lemma NormalSegmentFixed(s: string)
    requires IsNormalSegment(s)
    ensures NormalizeEnvSegment(s) == s
  {
    assert Upper(s) == s;
    ReplaceKeepsSegment(s, false);
    SqueezeKeepsSegment(s, false);
  }

  /** `normalizeEnvSegment` is idempotent. */
  lemma NormalizeIdempotent(value: string)
    ensures NormalizeEnvSegment(NormalizeEnvSegment(value)) == NormalizeEnvSegment(value)
  {
    NormalizeIsNormal(value);
    NormalSegmentFixed(NormalizeEnvSegment(value));
  }

  /** Names that differ only in ASCII letter case give the same segment. */
  lemma NormalizeIgnoresCase(value: string)
    ensures NormalizeEnvSegment(Lower(value)) == NormalizeEnvSegment(value)
    ensures NormalizeEnvSegment(Upper(value)) == NormalizeEnvSegment(value)
  {
    assert Upper(Lower(value)) == Upper(value);
    assert Upper(Upper(value)) == Upper(value);
  }

  /** `apiPrefix`. */
  function ApiPrefix(apiName: string): string {
    NormalizeEnvSegment(apiName)
  }

  /** `schemePrefix`: the API segment and the scheme segment joined by `_`. */
  function SchemePrefix(apiName: string, schemeName: string): string {
    ApiPrefix(apiName) + "_" + NormalizeEnvSegment(schemeName)
  }

  /** Every scheme prefix lies in its API's own `<API>_` namespace and is
      made of `A-Z`, `0-9` and `_` only. */
  lemma SchemePrefixShape(apiName: string, schemeName: string)
    ensures SegmentChars(SchemePrefix(apiName, schemeName))
    ensures IsPrefix(ApiPrefix(apiName) + "_", SchemePrefix(apiName, schemeName))
  {
    var a := ApiPrefix(apiName);
    var b := NormalizeEnvSegment(schemeName);
    NormalizeIsNormal(apiName);
    NormalizeIsNormal(schemeName);
    var r := a + "_" + b;
    assert forall i :: 0 <= i < |b| ==> r[|a| + 1 + i] == b[i];
    assert forall i :: 0 <= i < |a| ==> r[i] == a[i];
  }

  /** `readApiBaseUrl`. */
  function ReadApiBaseUrl(apiName: string, env: Environment): (r: Option<string>)
    ensures r.Some? <==> ApiPrefix(apiName) + "_BASE_URL" in env
  {
    Lookup(env, ApiPrefix(apiName) + "_BASE_URL")
  }

  /** `readApiKeyValue`. */
  function ReadApiKeyValue(apiName: string, schemeName: string, env: Environment): (r: Option<string>)
    ensures r.Some? <==> SchemePrefix(apiName, schemeName) + "_API_KEY" in env
  {
    Lookup(env, SchemePrefix(apiName, schemeName) + "_API_KEY")
  }

  /** The variables the bridge reads do not depend on the letter case of the
      API and scheme names. */
  lemma ReadersIgnoreCase(apiName: string, schemeName: string, env: Environment)
    ensures ReadApiBaseUrl(Lower(apiName), env) == ReadApiBaseUrl(apiName, env)
    ensures ReadApiKeyValue(Lower(apiName), Lower(schemeName), env) == ReadApiKeyValue(apiName, schemeName, env)
  {
    NormalizeIgnoresCase(apiName);
    NormalizeIgnoresCase(schemeName);
  }

  function HeadersVar(apiName: string): string {
    ApiPrefix(apiName) + "_HEADERS"
  }

  function NotStringError(name: string, key: string): Error {
    Error(ConfigError, name + " values must be strings", Some(JObject([("key", JString(key))])))
  }

  /** Copying one more entry: a string value is assigned, anything else is
      an error. */
  function CopyField(name: string, acc: Result<Record<string>>, entry: (string, Json)): Result<Record<string>> {
    match acc
    case Err(e) => Err(e)
    case Ok(out) => if entry.1.JString? then Ok(Set(out, entry.0, entry.1.s)) else Err(NotStringError(name, entry.0))
  }

  /** The entries of the parsed `_HEADERS` object copied one by one, or the
      error for the first value that is not a string. */
  function StringFields(name: string, fields: seq<(string, Json)>): Result<Record<string>> {
    if fields == [] then Ok([]) else CopyField(name, StringFields(name, fields[..|fields| - 1]), fields[|fields| - 1])
  }

  /** What `readApiExtraHeaders` returns; `parseJson` is `JSON.parse`, with
      `None` for a syntax error. */
  function ExtraHeaders(apiName: string, env: Environment, parseJson: string -> Option<Json>): Result<Record<string>> {
    var name := HeadersVar(apiName);
    var raw := Lookup(env, name);
    if raw.None? || raw.value == "" then Ok([])
    else
      match parseJson(raw.value)
      case None => Err(Error(ConfigError, "Invalid JSON in " + name, Some(JObject([("value", JString(raw.value))]))))
      case Some(parsed) =>
        if !IsPlainObject(parsed) then Err(Error(ConfigError, name + " must be a JSON object", None))
        else StringFields(name, parsed.fields)
  }

  lemma StringFieldsSnoc(name: string, fields: seq<(string, Json)>, i: nat)
    requires i < |fields|
    ensures StringFields(name, fields[..i + 1]) == CopyField(name, StringFields(name, fields[..i]), fields[i])
  {
    assert fields[..i + 1][..i] == fields[..i];
  }

  lemma {:induction false} StringFieldsErrorPersists(name: string, fields: seq<(string, Json)>, i: nat)
    requires i <= |fields|
    requires StringFields(name, fields[..i]).Err?
    ensures StringFields(name, fields) == StringFields(name, fields[..i])
    decreases |fields| - i
  {
    if i < |fields| {
      StringFieldsSnoc(name, fields, i);
      StringFieldsErrorPersists(name, fields, i + 1);
    } else {
      assert fields[..i] == fields;
    }
  }

  /** The copying loop of `readApiExtraHeaders`. */
  method CopyStringFields(name: string, fields: seq<(string, Json)>) returns (r: Result<Record<string>>)
    ensures r == StringFields(name, fields)
  {
    var out: Record<string> := [];
    var i := 0;
    assert fields[..0] == [];
    while i < |fields|
      invariant 0 <= i <= |fields|
      invariant StringFields(name, fields[..i]) == Ok(out)
    {
      var key := fields[i].0;
      var value := fields[i].1;
      StringFieldsSnoc(name, fields, i);
      if !value.JString? {
        StringFieldsErrorPersists(name, fields, i + 1);
        return Err(NotStringError(name, key));
      }
      out := Set(out, key, value.s);
      i := i + 1;
    }
    assert fields[..i] == fields;
    r := Ok(out);
  }

  /** `readApiExtraHeaders`: an absent or empty variable gives no headers;
      otherwise the value must parse as a JSON object whose values are all
      strings, and its entries are copied into the result. */
  method ReadApiExtraHeaders(apiName: string, env: Environment, parseJson: string -> Option<Json>)
    returns (r: Result<Record<string>>)
    ensures r == ExtraHeaders(apiName, env, parseJson)
  {
    var name := HeadersVar(apiName);
    if name !in env || env[name] == "" {
      return Ok([]);
    }
    var raw := env[name];
    var parsed := parseJson(raw);
    if parsed.None? {
      return Err(Error(ConfigError, "Invalid JSON in " + name, Some(JObject([("value", JString(raw))]))));
    }
    if !parsed.value.JObject? {
      return Err(Error(ConfigError, name + " must be a JSON object", None));
    }
    r := CopyStringFields(name, parsed.value.fields);
  }

  predicate AllStrings(fields: seq<(string, Json)>) {
    forall i :: 0 <= i < |fields| ==> fields[i].1.JString?
  }

  /** Copying succeeds exactly when every value is a string. */
  lemma {:induction false} StringFieldsOkIff(name: string, fields: seq<(string, Json)>)
    ensures StringFields(name, fields).Ok? <==> AllStrings(fields)
  {
    if fields != [] {
      var n := |fields| - 1;
      StringFieldsOkIff(name, fields[..n]);
      assert forall i :: 0 <= i < n ==> fields[..n][i] == fields[i];
    }
  }

  /** A successful copy has the object's keys, in order. */
  lemma {:induction false} StringFieldsKeys(name: string, fields: seq<(string, Json)>)
    requires StringFields(name, fields).Ok? && UniqueKeys(fields)
    ensures Keys(StringFields(name, fields).value) == Keys(fields)
  {
    if fields != [] {
      var n := |fields| - 1;
      var init := fields[..n];
      assert fields == init + [fields[n]];
      assert UniqueKeys(init);
      StringFieldsKeys(name, init);
      KeysSnoc(init, fields[n]);
      assert fields[n].0 !in Keys(init);
      SetKeys(StringFields(name, init).value, fields[n].0, fields[n].1.s);
    }
  }

  /** A successful copy holds every entry of the object (whose keys are
      distinct) with its string value. */
  lemma {:induction false} StringFieldsValues(name: string, fields: seq<(string, Json)>, i: nat)
    requires StringFields(name, fields).Ok? && UniqueKeys(fields) && i < |fields|
    ensures fields[i].1.JString?
    ensures Records.Get(StringFields(name, fields).value, fields[i].0) == Some(fields[i].1.s)
  {
    var n := |fields| - 1;
    var init := fields[..n];
    assert fields == init + [fields[n]];
    var out := StringFields(name, init).value;
    SetGet(out, fields[n].0, fields[n].1.s, fields[i].0);
    if i < n {
      assert UniqueKeys(init);
      assert fields[i] == init[i] && fields[i].0 != fields[n].0;
      StringFieldsValues(name, init, i);
    }
  }

  /** A failed copy names the first key whose value is not a string. */
  lemma {:induction false} StringFieldsFailure(name: string, fields: seq<(string, Json)>)
    requires StringFields(name, fields).Err?
    ensures exists i ::
      && 0 <= i < |fields| && !fields[i].1.JString? && AllStrings(fields[..i])
      && StringFields(name, fields).error == NotStringError(name, fields[i].0)
  {
    var n := |fields| - 1;
    var init := fields[..n];
    if StringFields(name, init).Err? {
      StringFieldsFailure(name, init);
      var i :| 0 <= i < n && !init[i].1.JString? && AllStrings(init[..i])
        && StringFields(name, init).error == NotStringError(name, init[i].0);
      assert fields[..i] == init[..i] && fields[i] == init[i];
    } else {
      StringFieldsOkIff(name, init);
    }
  }

  /** The outcomes of `readApiExtraHeaders` by case. */
  lemma ExtraHeadersCases(apiName: string, env: Environment, parseJson: string -> Option<Json>)
    ensures var raw := Lookup(env, HeadersVar(apiName));
      && (raw.None? || raw.value == "" ==> ExtraHeaders(apiName, env, parseJson) == Ok([]))
      && (ExtraHeaders(apiName, env, parseJson).Err? ==> ExtraHeaders(apiName, env, parseJson).error.code == ConfigError)
      && (raw.Some? && raw.value != "" ==>
          (ExtraHeaders(apiName, env, parseJson).Ok? <==>
             parseJson(raw.value).Some? && IsPlainObject(parseJson(raw.value).value)
             && AllStrings(parseJson(raw.value).value.fields)))
  {
    var raw := Lookup(env, HeadersVar(apiName));
    if raw.Some? && raw.value != "" && parseJson(raw.value).Some? && IsPlainObject(parseJson(raw.value).value) {
      var fields := parseJson(raw.value).value.fields;
      StringFieldsOkIff(HeadersVar(apiName), fields);
      if StringFields(HeadersVar(apiName), fields).Err? {
        StringFieldsFailure(HeadersVar(apiName), fields);
      }
    }
  }

  /** `OAuthClientCredentialsFromEnv`. */
  datatype OAuthFromEnv = OAuthFromEnv(
    clientId: Option<string>,
    clientSecret: Option<string>,
    tokenUrl: Option<string>,
    scopes: Option<seq<string>>,
    tokenAuthMethod: Option<OpenApi.TokenAuthMethod>)

  /** The `_TOKEN_AUTH_METHOD` check: only the two method names are
      accepted, an absent or empty value selects none, anything else is a
      `CONFIG_ERROR`. */
  function ParseTokenAuthMethod(prefix: string, raw: Option<string>): (r: Result<Option<OpenApi.TokenAuthMethod>>)
    ensures r.Err? <==> raw.Some? && raw.value != "" && raw.value != "client_secret_basic" && raw.value != "client_secret_post"
    ensures r.Err? ==> r.error.code == ConfigError
    ensures r.Ok? ==> (r.value.None? <==> raw.None? || raw.value == "")
    ensures r.Ok? && r.value.Some? ==> raw == Some(r.value.value.Name())
  {
    if raw == Some("client_secret_basic") then Ok(Some(OpenApi.ClientSecretBasic))
    else if raw == Some("client_secret_post") then Ok(Some(OpenApi.ClientSecretPost))
    else if raw.Some? && raw.value != "" then
      Err(Error(ConfigError, "Invalid " + prefix + "_TOKEN_AUTH_METHOD value", Some(JObject([("value", JString(raw.value))]))))
    else Ok(None)
  }

  /** `scopesRaw ? scopesRaw.split(/\s+/).filter(Boolean) : undefined`. */
  function ParseScopes(raw: Option<string>): (r: Option<seq<string>>)
    ensures r.Some? <==> raw.Some? && raw.value != ""
    ensures r.Some? ==> forall k :: 0 <= k < |r.value| ==> r.value[k] != "" && NoSpace(r.value[k])
  {
    if raw.Some? && raw.value != "" then Some(Words(raw.value)) else None
  }

  /** `readOAuthClientCredentials`. */
  function ReadOAuthClientCredentials(apiName: string, schemeName: string, env: Environment): (r: Result<OAuthFromEnv>)
    ensures var raw := Lookup(env, SchemePrefix(apiName, schemeName) + "_TOKEN_AUTH_METHOD");
      && (r.Err? <==> raw.Some? && raw.value != "" && raw.value != "client_secret_basic" && raw.value != "client_secret_post")
      && (r.Err? ==> r.error.code == ConfigError)
      && (r.Ok? ==> (r.value.tokenAuthMethod.None? <==> raw.None? || raw.value == ""))
      && (r.Ok? && r.value.tokenAuthMethod.Some? ==> raw == Some(r.value.tokenAuthMethod.value.Name()))
    ensures var scopesRaw := Lookup(env, SchemePrefix(apiName, schemeName) + "_SCOPES");
      r.Ok? ==> (r.value.scopes.Some? <==> scopesRaw.Some? && scopesRaw.value != "")
  {
    var prefix := SchemePrefix(apiName, schemeName);
    var authMethod := ParseTokenAuthMethod(prefix, Lookup(env, prefix + "_TOKEN_AUTH_METHOD"));
    if authMethod.Err? then Err(authMethod.error)
    else
      Ok(OAuthFromEnv(
        Lookup(env, prefix + "_CLIENT_ID"),
        Lookup(env, prefix + "_CLIENT_SECRET"),
        Lookup(env, prefix + "_TOKEN_URL"),
        ParseScopes(Lookup(env, prefix + "_SCOPES")),
        authMethod.value))
  }

  /** A `_SCOPES` value written as scope names separated by single spaces is
      read back as exactly those names. */
  lemma ScopesRoundTrip(apiName: string, schemeName: string, env: Environment, scopes: seq<string>)
    requires scopes != [] && forall k :: 0 <= k < |scopes| ==> scopes[k] != "" && NoSpace(scopes[k])
    requires Lookup(env, SchemePrefix(apiName, schemeName) + "_SCOPES") == Some(Join(scopes, " "))
    requires ReadOAuthClientCredentials(apiName, schemeName, env).Ok?
    ensures ReadOAuthClientCredentials(apiName, schemeName, env).value.scopes == Some(scopes)
  {
    WordsOfJoin(scopes);
    assert |Join(scopes, " ")| >= |scopes[0]|;
  }

  /** The credentials of an HTTP scheme: `_TOKEN` for bearer, `_USERNAME` and
      `_PASSWORD` for basic. */
  datatype HttpFromEnv = HttpFromEnv(token: Option<string>, username: Option<string>, password: Option<string>)

  /** `readHttpAuthCredentials`, which src/auth/resolveAuth.ts imports from
      this module; the variables are those resolveAuth reports as missing. */
  function ReadHttpAuthCredentials(apiName: string, schemeName: string, env: Environment): (r: HttpFromEnv)
    ensures r.token.Some? <==> SchemePrefix(apiName, schemeName) + "_TOKEN" in env
    ensures r.username.Some? <==> SchemePrefix(apiName, schemeName) + "_USERNAME" in env
    ensures r.password.Some? <==> SchemePrefix(apiName, schemeName) + "_PASSWORD" in env
  {
    var prefix := SchemePrefix(apiName, schemeName);
    HttpFromEnv(Lookup(env, prefix + "_TOKEN"), Lookup(env, prefix + "_USERNAME"), Lookup(env, prefix + "_PASSWORD"))
  }
}
