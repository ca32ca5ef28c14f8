/** Loading the configured APIs (src/openapi/loadSpec.ts): the OpenAPI
    version check, the choice of base URL, the assembly of one loaded API
    from its dereferenced document, and the registry keyed by lower-cased
    API name. */
module LoadSpec {
  import opened Wrappers
  import opened JsString
  import opened JsonValue
  import opened Errors
  import opened OpenApi
  import Records
  import Env
  import EndpointIndex

  /** What may follow the third number: nothing, or "-" or "+" and then
      anything but a line terminator (the `(?:[-+].*)?$` of the pattern). */
  predicate SuffixOk(rest: string) {
    rest == [] || ((rest[0] == '-' || rest[0] == '+') && forall k :: 1 <= k < |rest| ==> !IsLineTerminator(rest[k]))
  }

  /** The pattern `^(\d+)\.(\d+)\.(\d+)(?:[-+].*)?$` matched with the three
      digit runs ending at `i`, `j` and `k`. */
  predicate VersionAt(v: string, i: int, j: int, k: int) {
    0 < i && i + 1 < j && j + 1 < k <= |v|
    && AllDigits(v[..i]) && v[i] == '.'
    && AllDigits(v[i + 1..j]) && v[j] == '.'
    && AllDigits(v[j + 1..k]) && SuffixOk(v[k..])
  }

  /** The major version the pattern captures, or `None` when it does not
      match; the digit runs are read greedily, as the pattern forces. */
  function VersionMajor(v: string): Option<nat> {
    var d1 := DigitPrefix(v);
    if d1 == "" || |d1| == |v| || v[|d1|] != '.' then None
    else
      var r1 := v[|d1| + 1..];
      var d2 := DigitPrefix(r1);
      if d2 == "" || |d2| == |r1| || r1[|d2|] != '.' then None
      else
        var r2 := r1[|d2| + 1..];
        var d3 := DigitPrefix(r2);
        if d3 == "" || !SuffixOk(r2[|d3|..]) then None
        else Some(DigitsValue(d1))
  }

  /** `VersionMajor` accepts exactly the strings the pattern matches, and
      reports the value of the first number. */
  lemma VersionMajorMatches(v: string)
    ensures VersionMajor(v).Some? <==> exists i, j, k :: VersionAt(v, i, j, k)
    ensures forall i, j, k :: VersionAt(v, i, j, k) ==> VersionMajor(v) == Some(DigitsValue(v[..i]))
  {
    if VersionMajor(v).Some? {
      var d1 := DigitPrefix(v);
      var r1 := v[|d1| + 1..];
      var d2 := DigitPrefix(r1);
      var r2 := r1[|d2| + 1..];
      var d3 := DigitPrefix(r2);
      var i, j, k := |d1|, |d1| + 1 + |d2|, |d1| + 1 + |d2| + 1 + |d3|;
      assert v[..i] == d1;
      assert v[i + 1..j] == d2;
      assert v[j] == r1[|d2|];
      assert r2 == v[j + 1..];
      assert v[j + 1..k] == d3;
      assert r2[|d3|..] == v[k..];
      assert VersionAt(v, i, j, k);
    }
    forall i, j, k | VersionAt(v, i, j, k) ensures VersionMajor(v) == Some(DigitsValue(v[..i])) {
      VersionAtReads(v, i, j, k);
    }
  }

  lemma VersionAtReads(v: string, i: int, j: int, k: int)
    requires VersionAt(v, i, j, k)
    ensures VersionMajor(v) == Some(DigitsValue(v[..i]))
  {
    DigitPrefixUpTo(v, i);
    var r1 := v[i + 1..];
    assert r1[..j - i - 1] == v[i + 1..j];
    assert r1[j - i - 1] == v[j];
    DigitPrefixUpTo(r1, j - i - 1);
    var r2 := r1[j - i..];
    assert r2 == v[j + 1..];
    assert r2[..k - j - 1] == v[j + 1..k];
    if k < |v| {
      assert r2[k - j - 1] == v[k];
    }
    DigitPrefixUpTo(r2, k - j - 1);
    assert r2[k - j - 1..] == v[k..];
  }

  /** `assertSupportedOpenApiVersion`. */
  function CheckOpenApiVersion(version: string): Result<()> {
    var major := VersionMajor(version);
    if major.None? then Err(Error(SchemaError, "Unsupported OpenAPI version format: " + version, None))
    else if major.value < 3 then Err(Error(SchemaError, "OpenAPI version must be 3.x (received " + version + ")", None))
    else Ok(())
  }

  /** A version is accepted exactly when it has the three-number form and
      its major number is at least 3; every rejection is a `SCHEMA_ERROR`. */
  lemma SupportedVersions(version: string)
    ensures CheckOpenApiVersion(version).Ok? <==>
      exists i, j, k :: VersionAt(version, i, j, k) && DigitsValue(version[..i]) >= 3
    ensures CheckOpenApiVersion(version).Err? ==> CheckOpenApiVersion(version).error.code == SchemaError
  {
    VersionMajorMatches(version);
  }

  /** `document.servers?.[0]?.url`. */
  function SchemaBaseUrl(doc: Document): Option<string> {
    if doc.servers.Some? && |doc.servers.value| > 0 then Some(doc.servers.value[0].url) else None
  }

  function NoBaseUrlError(apiName: string): Error {
    Error(ConfigError, "No base URL found for API '" + apiName + "'",
      Some(JObject([("resolutionOrder", JArray([JString("env:<API>_BASE_URL"), JString("config.baseUrl"),
        JString("openapi.servers[0].url")]))])))
  }

  /** `resolveBaseUrl`: the first of the three sources that is defined (by
      `??`), which must then be non-empty. */
  function ResolveBaseUrl(api: ApiConfig, doc: Document, env: Env.Environment): Result<string> {
    var fromEnv := Env.ReadApiBaseUrl(api.name, env);
    var chosen := if fromEnv.Some? then fromEnv else if api.baseUrl.Some? then api.baseUrl else SchemaBaseUrl(doc);
    if chosen.None? || chosen.value == "" then Err(NoBaseUrlError(api.name)) else Ok(chosen.value)
  }

  /** The environment variable wins over the configuration, which wins over
      the document's first server; a defined but empty source is not skipped
      and makes resolution fail, as does the absence of all three. */
  lemma BaseUrlPrecedence(api: ApiConfig, doc: Document, env: Env.Environment)
    ensures var e := Env.ReadApiBaseUrl(api.name, env);
      e.Some? ==> ResolveBaseUrl(api, doc, env) == if e.value == "" then Err(NoBaseUrlError(api.name)) else Ok(e.value)
    ensures Env.ReadApiBaseUrl(api.name, env).None? && api.baseUrl.Some? ==>
      ResolveBaseUrl(api, doc, env) == if api.baseUrl.value == "" then Err(NoBaseUrlError(api.name)) else Ok(api.baseUrl.value)
    ensures Env.ReadApiBaseUrl(api.name, env).None? && api.baseUrl.None? ==>
      ResolveBaseUrl(api, doc, env) ==
        if doc.servers.Some? && |doc.servers.value| > 0 && doc.servers.value[0].url != "" then Ok(doc.servers.value[0].url)
        else Err(NoBaseUrlError(api.name))
    ensures ResolveBaseUrl(api, doc, env).Ok? ==> ResolveBaseUrl(api, doc, env).value != ""
  {
  }

  /** What `loadSingleApi` does once the document is dereferenced: the
      `openapi` field must be present and supported, the endpoint index
      must build, and a base URL must resolve, in that order. */
  function LoadDocument(api: ApiConfig, doc: Document, env: Env.Environment): Result<LoadedApi> {
    if doc.openapi.None? || doc.openapi.value == "" then
      Err(Error(SchemaError, "OpenAPI 'openapi' field is missing in '" + api.name + "'", None))
    else
      var supported :- CheckOpenApiVersion(doc.openapi.value);
      var index :- EndpointIndex.IndexOf(doc);
      var baseUrl :- ResolveBaseUrl(api, doc, env);
      Ok(LoadedApi(api, doc, baseUrl, index.endpoints, index.endpointById,
        Records.Keys(doc.securitySchemes.GetOr([]))))
  }

  /** `loadSingleApi`; `dereference` stands for reading, parsing and
      dereferencing the spec source, with Swagger 2.0 conversion. */
  function LoadSingle(api: ApiConfig, dereference: ApiConfig -> Result<Document>, env: Env.Environment): Result<LoadedApi> {
    var doc :- dereference(api);
    LoadDocument(api, doc, env)
  }

  /** A document loads exactly when its `openapi` field is present and
      supported, its endpoint index builds and a base URL resolves; the
      loaded API keeps its configuration and document, the index built
      from it and the resolved base URL. */
  lemma LoadDocumentOk(api: ApiConfig, doc: Document, env: Env.Environment)
    ensures var r := LoadDocument(api, doc, env);
      r.Ok? <==> (doc.openapi.Some? && doc.openapi.value != "" && CheckOpenApiVersion(doc.openapi.value).Ok?
        && EndpointIndex.IndexOf(doc).Ok? && ResolveBaseUrl(api, doc, env).Ok?)
    ensures var r := LoadDocument(api, doc, env);
      r.Ok? ==> (r.value.config == api && r.value.schema == doc
        && r.value.endpoints == EndpointIndex.IndexOf(doc).value.endpoints
        && r.value.endpointById == EndpointIndex.IndexOf(doc).value.endpointById
        && r.value.baseUrl == ResolveBaseUrl(api, doc, env).value)
  {
  }

  /** Loading a document fails only with a schema or configuration error. */
  lemma LoadDocumentErrors(api: ApiConfig, doc: Document, env: Env.Environment)
    ensures LoadDocument(api, doc, env).Err? ==> LoadDocument(api, doc, env).error.code in {SchemaError, ConfigError}
  {
    if doc.openapi.Some? && doc.openapi.value != "" && CheckOpenApiVersion(doc.openapi.value).Ok? {
      if EndpointIndex.IndexOf(doc).Err? {
        EndpointIndex.RegisterErr(EndpointIndex.DocumentEndpoints(doc));
      }
    }
  }

  /** `loadSingleApi`, step by step. */
  method LoadSingleApi(api: ApiConfig, dereference: ApiConfig -> Result<Document>, env: Env.Environment)
    returns (r: Result<LoadedApi>)
    ensures r == LoadSingle(api, dereference, env)
  {
    var parsed := dereference(api);
    if parsed.Err? {
      return Err(parsed.error);
    }
    var doc := parsed.value;
    if doc.openapi.None? || doc.openapi.value == "" {
      return Err(Error(SchemaError, "OpenAPI 'openapi' field is missing in '" + api.name + "'", None));
    }
    var supported := CheckOpenApiVersion(doc.openapi.value);
    if supported.Err? {
      return Err(supported.error);
    }
    var index := EndpointIndex.BuildEndpointIndex(doc);
    if index.Err? {
      return Err(index.error);
    }
    var baseUrl := ResolveBaseUrl(api, doc, env);
    if baseUrl.Err? {
      return Err(baseUrl.error);
    }
    var authSchemeNames := Records.Keys(doc.securitySchemes.GetOr([]));
    r := Ok(LoadedApi(api, doc, baseUrl.value, index.value.endpoints, index.value.endpointById, authSchemeNames));
  }

  /** `ApiRegistry`: loaded APIs by lower-cased name. */
  datatype ApiRegistry = ApiRegistry(byName: map<string, LoadedApi>)

  /** How one configured API is loaded. */
  type Loader = ApiConfig -> Result<LoadedApi>

  /** The loader `loadApiRegistry` uses. */
  function SingleLoader(dereference: ApiConfig -> Result<Document>, env: Env.Environment): Loader {
    api => LoadSingle(api, dereference, env)
  }

  /** A loaded API records the configuration it was loaded from. */
  ghost predicate KeepsConfig(load: Loader) {
    forall api :: load(api).Ok? ==> load(api).value.config == api
  }

  lemma SingleLoaderKeepsConfig(dereference: ApiConfig -> Result<Document>, env: Env.Environment)
    ensures KeepsConfig(SingleLoader(dereference, env))
  {
    forall api | SingleLoader(dereference, env)(api).Ok?
      ensures SingleLoader(dereference, env)(api).value.config == api
    {
      var doc := dereference(api);
      LoadDocumentOk(api, doc.value, env);
    }
  }

  /** The registry after loading `configs` in order, stopping at the first
      API that fails to load. */
  function Registry(configs: seq<ApiConfig>, load: Loader): Result<ApiRegistry>
    decreases |configs|
  {
    if configs == [] then Ok(ApiRegistry(map[]))
    else
      var last := configs[|configs| - 1];
      var before :- Registry(configs[..|configs| - 1], load);
      var loaded :- load(last);
      Ok(ApiRegistry(before.byName[Lower(last.name) := loaded]))
  }

  /** `loadApiRegistry`. */
  method LoadApiRegistry(configs: seq<ApiConfig>, dereference: ApiConfig -> Result<Document>, env: Env.Environment)
    returns (r: Result<ApiRegistry>)
    ensures r == Registry(configs, SingleLoader(dereference, env))
  {
    ghost var load := SingleLoader(dereference, env);
    var byName: map<string, LoadedApi> := map[];
    for i := 0 to |configs|
      invariant Registry(configs[..i], load) == Ok(ApiRegistry(byName))
    {
      assert configs[..i + 1][..i] == configs[..i];
      var loaded := LoadSingleApi(configs[i], dereference, env);
      if loaded.Err? {
        RegistryErrorPersists(configs, load, i + 1);
        return Err(loaded.error);
      }
      byName := byName[Lower(configs[i].name) := loaded.value];
    }
    assert configs[..|configs|] == configs;
    return Ok(ApiRegistry(byName));
  }

  /** Once a prefix fails, the whole list fails with the same error. */
  lemma {:induction false} RegistryErrorPersists(configs: seq<ApiConfig>, load: Loader, n: nat)
    requires n <= |configs| && Registry(configs[..n], load).Err?
    ensures Registry(configs, load) == Registry(configs[..n], load)
    decreases |configs| - n
  {
    if n < |configs| {
      assert configs[..n + 1][..n] == configs[..n];
      RegistryErrorPersists(configs, load, n + 1);
    } else {
      assert configs[..n] == configs;
    }
  }

  /** The registry's keys are the lower-cased names of the configured APIs. */
  lemma {:induction false} RegistryKeys(configs: seq<ApiConfig>, load: Loader)
    requires Registry(configs, load).Ok?
    ensures Registry(configs, load).value.byName.Keys == set i | 0 <= i < |configs| :: Lower(configs[i].name)
    decreases |configs|
  {
    if configs != [] {
      var init := configs[..|configs| - 1];
      RegistryKeys(init, load);
      var s := set i | 0 <= i < |configs| :: Lower(configs[i].name);
      var t := set i | 0 <= i < |init| :: Lower(init[i].name);
      assert s == t + {Lower(configs[|configs| - 1].name)} by {
        forall x | x in s ensures x in t + {Lower(configs[|configs| - 1].name)} {
          var i :| 0 <= i < |configs| && x == Lower(configs[i].name);
          if i < |init| {
            assert init[i] == configs[i];
          }
        }
        forall x | x in t ensures x in s {
          var i :| 0 <= i < |init| && x == Lower(init[i].name);
          assert init[i] == configs[i];
        }
      }
    }
  }

  /** No later configuration has the same lower-cased name as entry `i`. */
  predicate LastOfName(configs: seq<ApiConfig>, i: int)
    requires 0 <= i < |configs|
  {
    forall j :: i < j < |configs| ==> Lower(configs[j].name) != Lower(configs[i].name)
  }

  /** Under each key sits the API loaded from the last configuration with
      that lower-cased name: a later duplicate replaces an earlier one. */
  lemma {:induction false} RegistryLastWins(configs: seq<ApiConfig>, load: Loader, i: nat)
    requires i < |configs| && LastOfName(configs, i)
    requires Registry(configs, load).Ok?
    ensures load(configs[i]).Ok? && Lower(configs[i].name) in Registry(configs, load).value.byName
    ensures Registry(configs, load).value.byName[Lower(configs[i].name)] == load(configs[i]).value
    decreases |configs|
  {
    var n := |configs|;
    var init := configs[..n - 1];
    if i < n - 1 {
      assert init[i] == configs[i];
      assert LastOfName(init, i) by {
        forall j | i < j < |init| ensures Lower(init[j].name) != Lower(init[i].name) {
          assert init[j] == configs[j];
        }
      }
      RegistryLastWins(init, load, i);
    }
  }

  /** With the bridge's loader, the API under a name's key was loaded from
      the last configuration with that name. */
  lemma RegistryEntryConfig(configs: seq<ApiConfig>, dereference: ApiConfig -> Result<Document>,
                            env: Env.Environment, i: nat)
    requires i < |configs| && LastOfName(configs, i)
    requires Registry(configs, SingleLoader(dereference, env)).Ok?
    ensures Lower(configs[i].name) in Registry(configs, SingleLoader(dereference, env)).value.byName
    ensures Registry(configs, SingleLoader(dereference, env)).value.byName[Lower(configs[i].name)].config == configs[i]
  {
    var load := SingleLoader(dereference, env);
    RegistryLastWins(configs, load, i);
    SingleLoaderKeepsConfig(dereference, env);
    assert load(configs[i]).Ok?;
  }

  /** The registry loads when every configured API loads; otherwise the
      error is that of the first API that fails. */
  lemma {:induction false} RegistryFailure(configs: seq<ApiConfig>, load: Loader)
    ensures Registry(configs, load).Ok? <==> forall i :: 0 <= i < |configs| ==> load(configs[i]).Ok?
    ensures Registry(configs, load).Err? ==>
      exists i :: 0 <= i < |configs| && load(configs[i]).Err? && Registry(configs, load).error == load(configs[i]).error
        && forall j :: 0 <= j < i ==> load(configs[j]).Ok?
    decreases |configs|
  {
    if configs != [] {
      var n := |configs|;
      var init := configs[..n - 1];
      RegistryFailure(init, load);
      assert forall j :: 0 <= j < n - 1 ==> init[j] == configs[j];
    }
  }
}
