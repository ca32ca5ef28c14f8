/** Choosing the credentials for one endpoint call (src/auth/resolveAuth.ts):
    the security requirements of the operation (or of the document) are
    alternatives tried in order; the schemes inside one requirement must all
    resolve, from the environment, the API configuration and, for OAuth2, the
    token client. */
module Auth {
  import opened Wrappers
  import opened JsString
  import opened JsonValue
  import opened Errors
  import opened Records
  import opened Sorting
  import opened OpenApi
  import Env
  import OAuth

  /** `ResolvedAuthScheme`: what the request builder applies. */
  datatype ResolvedScheme =
    | ApiKeyAuth(schemeName: string, location: ApiKeyLocation, name: string, value: string)
    | OAuth2Auth(schemeName: string, token: string)
    | BearerAuth(schemeName: string, token: string)
    | BasicAuth(schemeName: string, username: string, password: string)

  /** `ResolvedAuthResult`. */
  datatype AuthResult = AuthResult(authUsed: seq<string>, schemes: seq<ResolvedScheme>)

  /** Why one requirement could not be met. */
  datatype RequirementFailure = RequirementFailure(requirement: seq<string>, reason: string, missingEnv: seq<string>)

  /** What resolution reads besides the endpoint. */
  datatype AuthContext = AuthContext(
    apiName: string,
    oauth2: Option<ApiOAuth2Config>,
    securitySchemes: Record<SchemeOrRef>,
    env: Env.Environment)

  function ContextOf(api: LoadedApi, env: Env.Environment): AuthContext {
    AuthContext(api.config.name, api.config.oauth2, api.schema.securitySchemes.GetOr([]), env)
  }

  /** JavaScript truthiness of a possibly undefined string. */
  predicate Filled(s: Option<string>) {
    s.Some? && s.value != ""
  }

  function OverrideTokenUrl(c: Option<ApiOAuth2Config>): Option<string> {
    if c.Some? then c.value.tokenUrlOverride else None
  }

  function ConfigAuthMethod(c: Option<ApiOAuth2Config>): Option<TokenAuthMethod> {
    if c.Some? then c.value.tokenEndpointAuthMethod else None
  }

  function ConfigScopes(c: Option<ApiOAuth2Config>): Option<seq<string>> {
    if c.Some? then c.value.scopes else None
  }

  function FlowScopeNames(flow: ClientCredentialsFlow): seq<string> {
    Keys(flow.scopes.GetOr([]))
  }

  /** `resolveScopes`: the first non-empty list among the environment's, the
      configuration's and the requirement's, else every scope the flow
      declares. */
  function ResolveScopes(requested: seq<string>, envScopes: Option<seq<string>>,
                         configScopes: Option<seq<string>>, flow: ClientCredentialsFlow): (r: seq<string>)
    ensures envScopes.Some? && envScopes.value != [] ==> r == envScopes.value
    ensures r == [] <==>
      (envScopes.None? || envScopes.value == []) && (configScopes.None? || configScopes.value == [])
      && requested == [] && FlowScopeNames(flow) == []
    ensures r == FlowScopeNames(flow) || (envScopes.Some? && r == envScopes.value)
      || (configScopes.Some? && r == configScopes.value) || r == requested
  {
    if envScopes.Some? && |envScopes.value| > 0 then envScopes.value
    else if configScopes.Some? && |configScopes.value| > 0 then configScopes.value
    else if |requested| > 0 then requested
    else FlowScopeNames(flow)
  }

  /** The token cache key: API, scheme, client, token URL, authentication
      method and the sorted scopes, joined by `|`. */
  function CacheKey(apiName: string, schemeName: string, clientId: string, tokenUrl: string,
                    authMethod: TokenAuthMethod, scopes: seq<string>): string
  {
    Join([apiName, schemeName, clientId, tokenUrl, authMethod.Name(), Join(SortStrings(scopes), ",")], "|")
  }

  /** The cache key does not depend on the order the scopes were listed in,
      so the same token is shared by requirements that list them
      differently. */
  lemma CacheKeyIgnoresScopeOrder(apiName: string, schemeName: string, clientId: string, tokenUrl: string,
                                  authMethod: TokenAuthMethod, s: seq<string>, t: seq<string>)
    requires multiset(s) == multiset(t)
    ensures CacheKey(apiName, schemeName, clientId, tokenUrl, authMethod, s)
         == CacheKey(apiName, schemeName, clientId, tokenUrl, authMethod, t)
  {
    SortStringsCanonical(s, t);
  }

  /** What one scheme of a requirement comes to before any token is
      fetched: resolved, failed with a reason and the variables to set, an
      exception, or a token to obtain. */
  datatype SchemeStep =
    | Ready(resolved: ResolvedScheme)
    | Fails(reason: string, missingEnv: seq<string>)
    | Throws(error: Error)
    | NeedsToken(request: OAuth.TokenRequest)

  function NotFoundReason(schemeName: string): string {
    "Security scheme '" + schemeName + "' not found or unresolved"
  }

  function HttpUnsupportedReason(schemeLower: string): string {
    "HTTP auth scheme '" + schemeLower + "' is not supported"
  }

  /** The client-credentials branch: credentials from the environment,
      token URL from the environment, the configuration override or the
      flow, authentication method from the environment, the configuration
      or `client_secret_basic`. */
  function OAuthStep(ctx: AuthContext, schemeName: string, requested: seq<string>,
                     flow: ClientCredentialsFlow): SchemeStep
  {
    var prefix := Env.SchemePrefix(ctx.apiName, schemeName);
    match Env.ReadOAuthClientCredentials(ctx.apiName, schemeName, ctx.env)
    case Err(e) => Throws(e)
    case Ok(fromEnv) =>
      if !Filled(fromEnv.clientId) || !Filled(fromEnv.clientSecret) then
        Fails("Missing OAuth2 client credentials for '" + schemeName + "'",
              [prefix + "_CLIENT_ID", prefix + "_CLIENT_SECRET"])
      else
        var tokenUrl := fromEnv.tokenUrl.GetOr(OverrideTokenUrl(ctx.oauth2).GetOr(flow.tokenUrl));
        if tokenUrl == "" then
          Fails("No OAuth2 token URL resolved for scheme '" + schemeName + "'", [])
        else
          var authMethod := fromEnv.tokenAuthMethod.GetOr(ConfigAuthMethod(ctx.oauth2).GetOr(ClientSecretBasic));
          var scopes := ResolveScopes(requested, fromEnv.scopes, ConfigScopes(ctx.oauth2), flow);
          NeedsToken(OAuth.TokenRequest(
            CacheKey(ctx.apiName, schemeName, fromEnv.clientId.value, tokenUrl, authMethod, scopes),
            tokenUrl, fromEnv.clientId.value, fromEnv.clientSecret.value, SortStrings(scopes), authMethod))
  }

  /** The `http` branch, on the lower-cased scheme: bearer needs `_TOKEN`,
      basic needs `_USERNAME` and `_PASSWORD`, anything else is refused. */
  function HttpStep(ctx: AuthContext, schemeName: string, schemeLower: string): SchemeStep {
    var prefix := Env.SchemePrefix(ctx.apiName, schemeName);
    var fromEnv := Env.ReadHttpAuthCredentials(ctx.apiName, schemeName, ctx.env);
    if schemeLower != "bearer" && schemeLower != "basic" then
      Fails(HttpUnsupportedReason(schemeLower), [])
    else if schemeLower == "bearer" then
      if !Filled(fromEnv.token) then
        Fails("Missing Bearer token for scheme '" + schemeName + "'", [prefix + "_TOKEN"])
      else Ready(BearerAuth(schemeName, fromEnv.token.value))
    else if !Filled(fromEnv.username) || !Filled(fromEnv.password) then
      Fails("Missing Basic auth credentials for scheme '" + schemeName + "'",
            [prefix + "_USERNAME", prefix + "_PASSWORD"])
    else Ready(BasicAuth(schemeName, fromEnv.username.value, fromEnv.password.value))
  }

  /** One entry `[schemeName, requestedScopes]` of a requirement. */
  function StepFor(ctx: AuthContext, schemeName: string, requested: seq<string>): SchemeStep {
    var prefix := Env.SchemePrefix(ctx.apiName, schemeName);
    var found: Option<SchemeOrRef> := Records.Get(ctx.securitySchemes, schemeName);
    match found
    case None => Fails(NotFoundReason(schemeName), [])
    case Some(SchemeRef(_)) => Fails(NotFoundReason(schemeName), [])
    case Some(Scheme(scheme)) =>
      match scheme
      case ApiKeyScheme(location, name) =>
        var value := Env.ReadApiKeyValue(ctx.apiName, schemeName, ctx.env);
        if !Filled(value) then
          Fails("Missing API key for scheme '" + schemeName + "'", [prefix + "_API_KEY"])
        else Ready(ApiKeyAuth(schemeName, location, name, value.value))
      case OAuth2Scheme(flow) =>
        if flow.None? then
          Fails("Scheme '" + schemeName + "' does not support clientCredentials flow", [])
        else OAuthStep(ctx, schemeName, requested, flow.value)
      case HttpScheme(httpScheme) => HttpStep(ctx, schemeName, Lower(httpScheme))
      case OtherScheme(typeName) =>
        Fails("Unsupported security scheme type '" + typeName + "' for '" + schemeName + "'", [])
  }

  /** The steps of every scheme name, against one context. */
  type Steps = (string, seq<string>) -> SchemeStep

  function StepsOf(ctx: AuthContext): Steps {
    (schemeName: string, requested: seq<string>) => StepFor(ctx, schemeName, requested)
  }

  /** How one requirement ends. */
  datatype RequirementOutcome =
    | AllResolved(schemes: seq<ResolvedScheme>)
    | Failed(reason: string, missingEnv: seq<string>)
    | RequirementRaised(error: Error)

  type TokenCache = map<string, OAuth.CacheEntry>

  function PrependAll(ss: seq<ResolvedScheme>, x: (RequirementOutcome, TokenCache)): (RequirementOutcome, TokenCache) {
    (if x.0.AllResolved? then AllResolved(ss + x.0.schemes) else x.0, x.1)
  }

  /** The entries of one requirement resolved in order against the token
      cache: the first failing or throwing entry ends it, and every token is
      obtained through `getClientCredentialsToken`. */
  function RequirementResult(steps: Steps, entries: SecurityRequirement, cache: TokenCache,
                             now: int, grant: OAuth.Grant): (RequirementOutcome, TokenCache)
    decreases |entries|
  {
    if entries == [] then (AllResolved([]), cache)
    else
      var schemeName := entries[0].0;
      match steps(schemeName, entries[0].1)
      case Fails(reason, missing) => (Failed(reason, missing), cache)
      case Throws(e) => (RequirementRaised(e), cache)
      case Ready(s) => PrependAll([s], RequirementResult(steps, entries[1..], cache, now, grant))
      case NeedsToken(req) =>
        var (token, cache1) := OAuth.TokenStep(cache, req, now, grant);
        if token.Err? then (RequirementRaised(token.error), cache1)
        else PrependAll([OAuth2Auth(schemeName, token.value)], RequirementResult(steps, entries[1..], cache1, now, grant))
  }

  function Names(ss: seq<ResolvedScheme>): (ns: seq<string>)
    ensures |ns| == |ss|
  {
    seq(|ss|, k requires 0 <= k < |ss| => ss[k].schemeName)
  }

  /** How the alternatives end. */
  datatype Negotiation =
    | Chosen(result: AuthResult)
    | Unresolved(failures: seq<RequirementFailure>)
    | Aborted(error: Error)

  /** The alternatives tried in order: an empty requirement means no
      authentication, the first requirement that fully resolves is used, and
      each failed one is recorded with its keys. */
  function NegotiateFrom(steps: Steps, reqs: seq<SecurityRequirement>, failures: seq<RequirementFailure>,
                         cache: TokenCache, now: int, grant: OAuth.Grant): (Negotiation, TokenCache)
    decreases |reqs|
  {
    if reqs == [] then (Unresolved(failures), cache)
    else if reqs[0] == [] then (Chosen(AuthResult([], [])), cache)
    else
      var (o, cache1) := RequirementResult(steps, reqs[0], cache, now, grant);
      match o
      case AllResolved(ss) => (Chosen(AuthResult(Names(ss), ss)), cache1)
      case RequirementRaised(e) => (Aborted(e), cache1)
      case Failed(reason, missing) =>
        NegotiateFrom(steps, reqs[1..], failures + [RequirementFailure(Keys(reqs[0]), reason, missing)], cache1, now, grant)
  }

  /** `operation.security ?? document.security ?? []`. */
  function Requirements(api: LoadedApi, endpoint: EndpointDefinition): seq<SecurityRequirement> {
    if endpoint.operation.security.Some? then endpoint.operation.security.value
    else api.schema.security.GetOr([])
  }

  function StringsJson(ss: seq<string>): Json {
    JArray(seq(|ss|, k requires 0 <= k < |ss| => JString(ss[k])))
  }

  function FailureJson(f: RequirementFailure): Json {
    JObject([("requirement", StringsJson(f.requirement)), ("reason", JString(f.reason)),
             ("missingEnv", StringsJson(f.missingEnv))])
  }

  /** The `AUTH_ERROR` raised when no alternative can be met. */
  function AuthFailureError(apiName: string, endpointId: string, failures: seq<RequirementFailure>): Error {
    Error(AuthError, "Could not resolve authentication for '" + apiName + "'",
      Some(JObject([("endpointId", JString(endpointId)),
                    ("failures", JArray(seq(|failures|, k requires 0 <= k < |failures| => FailureJson(failures[k]))))])))
  }

  /** `resolveAuth` for one endpoint, from a token cache: the result (an
      error for anything thrown) and the cache afterwards. */
  function Resolve(api: LoadedApi, endpoint: EndpointDefinition, env: Env.Environment,
                   cache: TokenCache, now: int, grant: OAuth.Grant): (Result<AuthResult>, TokenCache)
  {
    var reqs := Requirements(api, endpoint);
    if reqs == [] then (Ok(AuthResult([], [])), cache)
    else
      var (n, cache1) := NegotiateFrom(StepsOf(ContextOf(api, env)), reqs, [], cache, now, grant);
      match n
      case Chosen(res) => (Ok(res), cache1)
      case Aborted(e) => (Err(e), cache1)
      case Unresolved(fs) => (Err(AuthFailureError(api.config.name, endpoint.endpointId, fs)), cache1)
  }

  lemma PrependNothing(x: (RequirementOutcome, TokenCache))
    ensures PrependAll([], x) == x
  {
    if x.0.AllResolved? {
      assert [] + x.0.schemes == x.0.schemes;
    }
  }

  lemma PrependAllStep(ss: seq<ResolvedScheme>, s: ResolvedScheme, x: (RequirementOutcome, TokenCache))
    ensures PrependAll(ss, PrependAll([s], x)) == PrependAll(ss + [s], x)
  {
    if x.0.AllResolved? {
      assert ss + ([s] + x.0.schemes) == (ss + [s]) + x.0.schemes;
    }
  }

  /** The inner loop of `resolveAuth`: the entries of one requirement. */
  method ResolveRequirement(ctx: AuthContext, entries: SecurityRequirement, client: OAuth.OAuthClient,
                            now: int, grant: OAuth.Grant) returns (o: RequirementOutcome)
    modifies client
    ensures (o, client.cache) == RequirementResult(StepsOf(ctx), entries, old(client.cache), now, grant)
  {
    var resolved: seq<ResolvedScheme> := [];
    var i := 0;
    assert entries[0..] == entries;
    PrependNothing(RequirementResult(StepsOf(ctx), entries, client.cache, now, grant));
    while i < |entries|
      invariant 0 <= i <= |entries|
      invariant RequirementResult(StepsOf(ctx), entries, old(client.cache), now, grant)
             == PrependAll(resolved, RequirementResult(StepsOf(ctx), entries[i..], client.cache, now, grant))
    {
      var schemeName := entries[i].0;
      assert entries[i..][1..] == entries[i + 1..];
      var step := StepFor(ctx, schemeName, entries[i].1);
      match step {
        case Fails(reason, missing) =>
          return Failed(reason, missing);
        case Throws(e) =>
          return RequirementRaised(e);
        case Ready(s) =>
          PrependAllStep(resolved, s, RequirementResult(StepsOf(ctx), entries[i + 1..], client.cache, now, grant));
          resolved := resolved + [s];
        case NeedsToken(req) =>
          var token := client.GetClientCredentialsToken(req, now, grant);
          if token.Err? {
            return RequirementRaised(token.error);
          }
          var s := OAuth2Auth(schemeName, token.value);
          PrependAllStep(resolved, s, RequirementResult(StepsOf(ctx), entries[i + 1..], client.cache, now, grant));
          resolved := resolved + [s];
      }
      i := i + 1;
    }
    o := AllResolved(resolved);
    assert o == PrependAll(resolved, (AllResolved([]), client.cache)).0;
  }

  /** `resolveAuth`: requirements tried in order, the first fully resolved
      one used, an `AUTH_ERROR` listing every failure when none is. The
      token client's cache changes as `getClientCredentialsToken` changes
      it. */
  method ResolveAuth(api: LoadedApi, endpoint: EndpointDefinition, client: OAuth.OAuthClient,
                     env: Env.Environment, now: int, grant: OAuth.Grant) returns (r: Result<AuthResult>)
    modifies client
    ensures (r, client.cache) == Resolve(api, endpoint, env, old(client.cache), now, grant)
  {
    var requirements := if endpoint.operation.security.Some? then endpoint.operation.security.value
                        else api.schema.security.GetOr([]);
    if |requirements| == 0 {
      return Ok(AuthResult([], []));
    }
    var ctx := ContextOf(api, env);
    var failures: seq<RequirementFailure> := [];
    var i := 0;
    while i < |requirements|
      invariant 0 <= i <= |requirements|
      invariant NegotiateFrom(StepsOf(ctx), requirements, [], old(client.cache), now, grant)
             == NegotiateFrom(StepsOf(ctx), requirements[i..], failures, client.cache, now, grant)
    {
      var requirement := requirements[i];
      assert requirements[i..][1..] == requirements[i + 1..];
      if |requirement| == 0 {
        return Ok(AuthResult([], []));
      }
      var outcome := ResolveRequirement(ctx, requirement, client, now, grant);
      match outcome {
        case AllResolved(ss) =>
          return Ok(AuthResult(Names(ss), ss));
        case RequirementRaised(e) =>
          return Err(e);
        case Failed(reason, missing) =>
          failures := failures + [RequirementFailure(Keys(requirement), reason, missing)];
      }
      i := i + 1;
    }
    r := Err(AuthFailureError(api.config.name, endpoint.endpointId, failures));
  }

  lemma SuffixedPrefix(p: string, suffix: string)
    requires suffix != [] && suffix[0] == '_'
    ensures IsPrefix(p + "_", p + suffix)
  {
    assert (p + suffix)[..|p| + 1] == p + "_";
  }

  /** At most two distinct variable names, all in the namespace `p_`. */
  ghost predicate OwnVariables(p: string, m: seq<string>) {
    && |m| <= 2
    && (forall k :: 0 <= k < |m| ==> IsPrefix(p + "_", m[k]))
    && (|m| == 2 ==> m[0] != m[1])
  }

  lemma VariableLists(p: string)
    ensures OwnVariables(p, []) && OwnVariables(p, [p + "_API_KEY"]) && OwnVariables(p, [p + "_TOKEN"])
    ensures OwnVariables(p, [p + "_CLIENT_ID", p + "_CLIENT_SECRET"])
    ensures OwnVariables(p, [p + "_USERNAME", p + "_PASSWORD"])
  {
    SuffixedPrefix(p, "_API_KEY");
    SuffixedPrefix(p, "_CLIENT_ID");
    SuffixedPrefix(p, "_CLIENT_SECRET");
    SuffixedPrefix(p, "_TOKEN");
    SuffixedPrefix(p, "_USERNAME");
    SuffixedPrefix(p, "_PASSWORD");
    assert (p + "_USERNAME")[|p| + 1] == 'U' && (p + "_PASSWORD")[|p| + 1] == 'P';
  }

  /** The `http` branch never throws nor asks for a token; a resolved
      scheme carries its name, and a failure names its own variables. */
  lemma HttpStepFacts(ctx: AuthContext, schemeName: string, schemeLower: string)
    ensures var step := HttpStep(ctx, schemeName, schemeLower);
      && (step.Ready? || step.Fails?)
      && (step.Ready? ==> step.resolved.schemeName == schemeName)
      && (step.Fails? ==> OwnVariables(Env.SchemePrefix(ctx.apiName, schemeName), step.missingEnv))
  {
    VariableLists(Env.SchemePrefix(ctx.apiName, schemeName));
  }

  /** The client-credentials branch never resolves on its own; it throws
      only the reader's `CONFIG_ERROR`, and a failure names its own
      variables. */
  lemma OAuthStepFacts(ctx: AuthContext, schemeName: string, requested: seq<string>, flow: ClientCredentialsFlow)
    ensures var step := OAuthStep(ctx, schemeName, requested, flow);
      && !step.Ready?
      && (step.Throws? ==> step.error.code == ConfigError)
      && (step.Fails? ==> OwnVariables(Env.SchemePrefix(ctx.apiName, schemeName), step.missingEnv))
  {
    VariableLists(Env.SchemePrefix(ctx.apiName, schemeName));
  }

  /** The variables a failed scheme reports are at most two distinct names,
      all in that scheme's `<API>_<SCHEME>_` namespace. */
  lemma MissingEnvNamed(ctx: AuthContext, schemeName: string, requested: seq<string>)
    ensures var step := StepFor(ctx, schemeName, requested);
      step.Fails? ==> OwnVariables(Env.SchemePrefix(ctx.apiName, schemeName), step.missingEnv)
  {
    VariableLists(Env.SchemePrefix(ctx.apiName, schemeName));
    var found: Option<SchemeOrRef> := Records.Get(ctx.securitySchemes, schemeName);
    if found.Some? && found.value.Scheme? {
      var scheme := found.value.scheme;
      if scheme.OAuth2Scheme? && scheme.clientCredentials.Some? {
        OAuthStepFacts(ctx, schemeName, requested, scheme.clientCredentials.value);
      } else if scheme.HttpScheme? {
        HttpStepFacts(ctx, schemeName, Lower(scheme.scheme));
      }
    }
  }

  /** What the client-credentials branch asks the token client for. */
  lemma OAuthStepRequest(ctx: AuthContext, schemeName: string, requested: seq<string>, flow: ClientCredentialsFlow)
    ensures var step := OAuthStep(ctx, schemeName, requested, flow);
      step.NeedsToken? ==>
        var req := step.request;
        && req.clientId != "" && req.clientSecret != "" && req.tokenUrl != ""
        && SortedBy(req.scopes, StrLe)
        && req.cacheKey == CacheKey(ctx.apiName, schemeName, req.clientId, req.tokenUrl,
                                    req.tokenEndpointAuthMethod, req.scopes)
        && var envUrl := Env.Lookup(ctx.env, Env.SchemePrefix(ctx.apiName, schemeName) + "_TOKEN_URL");
           (envUrl.Some? ==> req.tokenUrl == envUrl.value)
  {
    var fromEnv := Env.ReadOAuthClientCredentials(ctx.apiName, schemeName, ctx.env);
    if fromEnv.Ok? {
      var scopes := ResolveScopes(requested, fromEnv.value.scopes, ConfigScopes(ctx.oauth2), flow);
      SortStringsCanonical(scopes, SortStrings(scopes));
    }
  }

  /** A token is only requested with a client id, a secret and a token URL,
      the environment's token URL taking precedence; the request carries the
      scopes sorted, and its cache key is the key of exactly those scopes. */
  lemma TokenRequestFacts(ctx: AuthContext, schemeName: string, requested: seq<string>)
    ensures var step := StepFor(ctx, schemeName, requested);
      step.NeedsToken? ==>
        var req := step.request;
        && req.clientId != "" && req.clientSecret != "" && req.tokenUrl != ""
        && SortedBy(req.scopes, StrLe)
        && req.cacheKey == CacheKey(ctx.apiName, schemeName, req.clientId, req.tokenUrl,
                                    req.tokenEndpointAuthMethod, req.scopes)
        && var envUrl := Env.Lookup(ctx.env, Env.SchemePrefix(ctx.apiName, schemeName) + "_TOKEN_URL");
           (envUrl.Some? ==> req.tokenUrl == envUrl.value)
  {
    var found: Option<SchemeOrRef> := Records.Get(ctx.securitySchemes, schemeName);
    if found.Some? && found.value.Scheme? && found.value.scheme.OAuth2Scheme?
       && found.value.scheme.clientCredentials.Some?
    {
      OAuthStepRequest(ctx, schemeName, requested, found.value.scheme.clientCredentials.value);
    } else if found.Some? && found.value.Scheme? && found.value.scheme.HttpScheme? {
      HttpStepFacts(ctx, schemeName, Lower(found.value.scheme.scheme));
    }
  }

  /** A resolved scheme carries the name it was resolved for. */
  lemma StepNamesScheme(ctx: AuthContext, schemeName: string, requested: seq<string>)
    ensures var step := StepFor(ctx, schemeName, requested);
      step.Ready? ==> step.resolved.schemeName == schemeName
  {
    var found: Option<SchemeOrRef> := Records.Get(ctx.securitySchemes, schemeName);
    if found.Some? && found.value.Scheme? {
      var scheme := found.value.scheme;
      if scheme.OAuth2Scheme? && scheme.clientCredentials.Some? {
        OAuthStepFacts(ctx, schemeName, requested, scheme.clientCredentials.value);
      } else if scheme.HttpScheme? {
        HttpStepFacts(ctx, schemeName, Lower(scheme.scheme));
      }
    }
  }

  /** Only the environment reader (`CONFIG_ERROR`) throws from a scheme. */
  lemma StepThrowsConfigError(ctx: AuthContext, schemeName: string, requested: seq<string>)
    ensures var step := StepFor(ctx, schemeName, requested);
      step.Throws? ==> step.error.code == ConfigError
  {
    var found: Option<SchemeOrRef> := Records.Get(ctx.securitySchemes, schemeName);
    if found.Some? && found.value.Scheme? {
      var scheme := found.value.scheme;
      if scheme.OAuth2Scheme? && scheme.clientCredentials.Some? {
        OAuthStepFacts(ctx, schemeName, requested, scheme.clientCredentials.value);
      } else if scheme.HttpScheme? {
        HttpStepFacts(ctx, schemeName, Lower(scheme.scheme));
      }
    }
  }

  /** An `http` scheme other than bearer and basic, in any letter case, is a
      failure of its requirement. */
  lemma HttpSchemeUnsupported(ctx: AuthContext, schemeName: string, requested: seq<string>, httpScheme: string)
    requires Records.Get(ctx.securitySchemes, schemeName) == Some(Scheme(HttpScheme(httpScheme)))
    requires Lower(httpScheme) != "bearer" && Lower(httpScheme) != "basic"
    ensures StepFor(ctx, schemeName, requested) == Fails(HttpUnsupportedReason(Lower(httpScheme)), [])
  {
  }

  ghost predicate NamesSchemes(steps: Steps) {
    forall n, r :: steps(n, r).Ready? ==> steps(n, r).resolved.schemeName == n
  }

  /** The first entry of a requirement that resolves: it resolved to its
      own scheme or to a token, and the rest resolved from the cache it
      left. */
  lemma RequirementHead(steps: Steps, entries: SecurityRequirement, cache: TokenCache,
                        now: int, grant: OAuth.Grant, ss: seq<ResolvedScheme>)
    requires entries != []
    requires RequirementResult(steps, entries, cache, now, grant).0 == AllResolved(ss)
    ensures var step := steps(entries[0].0, entries[0].1);
      var cache1 := if step.NeedsToken? then OAuth.TokenStep(cache, step.request, now, grant).1 else cache;
      && ss != []
      && RequirementResult(steps, entries[1..], cache1, now, grant).0 == AllResolved(ss[1..])
      && ((step.Ready? && ss[0] == step.resolved)
          || (step.NeedsToken? && ss[0].OAuth2Auth? && ss[0].schemeName == entries[0].0))
  {
  }

  /** Entry by entry: the k-th chosen scheme is what the k-th entry
      resolved to. */
  lemma {:induction false} RequirementEachResolved(steps: Steps, entries: SecurityRequirement, cache: TokenCache,
                                                   now: int, grant: OAuth.Grant, ss: seq<ResolvedScheme>)
    requires RequirementResult(steps, entries, cache, now, grant).0 == AllResolved(ss)
    ensures |ss| == |entries|
    ensures forall k :: 0 <= k < |entries| ==>
      var step := steps(entries[k].0, entries[k].1);
      (step.Ready? && ss[k] == step.resolved)
      || (step.NeedsToken? && ss[k].OAuth2Auth? && ss[k].schemeName == entries[k].0)
    decreases |entries|
  {
    if entries != [] {
      var step := steps(entries[0].0, entries[0].1);
      var cache1 := if step.NeedsToken? then OAuth.TokenStep(cache, step.request, now, grant).1 else cache;
      RequirementHead(steps, entries, cache, now, grant, ss);
      RequirementEachResolved(steps, entries[1..], cache1, now, grant, ss[1..]);
      forall k | 1 <= k < |entries|
        ensures var step := steps(entries[k].0, entries[k].1);
          (step.Ready? && ss[k] == step.resolved)
          || (step.NeedsToken? && ss[k].OAuth2Auth? && ss[k].schemeName == entries[k].0)
      {
        assert entries[k] == entries[1..][k - 1] && ss[k] == ss[1..][k - 1];
      }
    } else {
      assert RequirementResult(steps, entries, cache, now, grant).0 == AllResolved([]);
    }
  }

  /** AND within a requirement: it resolves only when every entry does, in
      order, each to its own scheme (a token for the OAuth2 ones), and the
      names used are the requirement's keys. */
  lemma RequirementAllResolved(steps: Steps, entries: SecurityRequirement, cache: TokenCache,
                               now: int, grant: OAuth.Grant, ss: seq<ResolvedScheme>)
    requires NamesSchemes(steps)
    requires RequirementResult(steps, entries, cache, now, grant).0 == AllResolved(ss)
    ensures Names(ss) == Keys(entries)
    ensures forall k :: 0 <= k < |entries| ==>
      var step := steps(entries[k].0, entries[k].1);
      (step.Ready? && ss[k] == step.resolved) || (step.NeedsToken? && ss[k].OAuth2Auth?)
  {
    RequirementEachResolved(steps, entries, cache, now, grant, ss);
    forall k | 0 <= k < |ss| ensures Names(ss)[k] == Keys(entries)[k] {
      assert steps(entries[k].0, entries[k].1).Ready? ==>
        steps(entries[k].0, entries[k].1).resolved.schemeName == entries[k].0;
    }
  }

  /** A failed requirement fails for the first of its entries that fails:
      the reason and variables reported are that entry's. */
  lemma {:induction false} RequirementFailedAt(steps: Steps, entries: SecurityRequirement, cache: TokenCache,
                                               now: int, grant: OAuth.Grant)
    requires RequirementResult(steps, entries, cache, now, grant).0.Failed?
    ensures var o := RequirementResult(steps, entries, cache, now, grant).0;
      exists k :: 0 <= k < |entries|
        && steps(entries[k].0, entries[k].1) == Fails(o.reason, o.missingEnv)
        && forall j :: 0 <= j < k ==>
             steps(entries[j].0, entries[j].1).Ready? || steps(entries[j].0, entries[j].1).NeedsToken?
    decreases |entries|
  {
    var o := RequirementResult(steps, entries, cache, now, grant).0;
    var step := steps(entries[0].0, entries[0].1);
    if step.Fails? {
      assert steps(entries[0].0, entries[0].1) == Fails(o.reason, o.missingEnv);
    } else {
      var cache1 := if step.NeedsToken? then OAuth.TokenStep(cache, step.request, now, grant).1 else cache;
      var rest := RequirementResult(steps, entries[1..], cache1, now, grant);
      assert rest.0 == o;
      RequirementFailedAt(steps, entries[1..], cache1, now, grant);
      var k :| 0 <= k < |entries[1..]|
        && steps(entries[1..][k].0, entries[1..][k].1) == Fails(o.reason, o.missingEnv)
        && forall j :: 0 <= j < k ==>
             steps(entries[1..][j].0, entries[1..][j].1).Ready? || steps(entries[1..][j].0, entries[1..][j].1).NeedsToken?;
      assert entries[k + 1] == entries[1..][k];
      forall j | 0 <= j < k + 1
        ensures steps(entries[j].0, entries[j].1).Ready? || steps(entries[j].0, entries[j].1).NeedsToken?
      {
        if j > 0 {
          assert entries[j] == entries[1..][j - 1];
        }
      }
    }
  }

  ghost predicate ThrowsConfigErrors(steps: Steps) {
    forall n, r :: steps(n, r).Throws? ==> steps(n, r).error.code == ConfigError
  }

  /** An error a requirement raises is one of the environment reader's
      `CONFIG_ERROR`s, the token client's `AUTH_ERROR`, or the `REQUEST_ERROR`
      of a token URL that does not parse. */
  ghost predicate RaisedError(e: Error) {
    e.code in {ConfigError, AuthError} || e == OAuth.InvalidTokenUrl
  }

  /** An exception out of a requirement is a `RaisedError`. */
  lemma {:induction false} RequirementRaisedCode(steps: Steps, entries: SecurityRequirement, cache: TokenCache,
                                                 now: int, grant: OAuth.Grant)
    requires ThrowsConfigErrors(steps)
    requires RequirementResult(steps, entries, cache, now, grant).0.RequirementRaised?
    ensures RaisedError(RequirementResult(steps, entries, cache, now, grant).0.error)
    decreases |entries|
  {
    var step := steps(entries[0].0, entries[0].1);
    if step.Ready? {
      RequirementRaisedCode(steps, entries[1..], cache, now, grant);
    } else if step.NeedsToken? {
      var (token, cache1) := OAuth.TokenStep(cache, step.request, now, grant);
      if token.Ok? {
        RequirementRaisedCode(steps, entries[1..], cache1, now, grant);
      } else {
        OAuth.TokenErrors(cache, step.request, now, grant);
      }
    }
  }

  /** OR across requirements: when none can be met, every one of them was
      tried, none was empty, and each is reported once, in order, by its
      keys. */
  lemma {:induction false} UnresolvedReportsAll(steps: Steps, reqs: seq<SecurityRequirement>,
                                                failures: seq<RequirementFailure>, cache: TokenCache,
                                                now: int, grant: OAuth.Grant)
    requires NegotiateFrom(steps, reqs, failures, cache, now, grant).0.Unresolved?
    ensures var fs := NegotiateFrom(steps, reqs, failures, cache, now, grant).0.failures;
      && |fs| == |failures| + |reqs| && fs[..|failures|] == failures
      && forall j :: 0 <= j < |reqs| ==> reqs[j] != [] && fs[|failures| + j].requirement == Keys(reqs[j])
    decreases |reqs|
  {
    if reqs != [] {
      var (o, cache1) := RequirementResult(steps, reqs[0], cache, now, grant);
      var failures1 := failures + [RequirementFailure(Keys(reqs[0]), o.reason, o.missingEnv)];
      UnresolvedReportsAll(steps, reqs[1..], failures1, cache1, now, grant);
      var fs := NegotiateFrom(steps, reqs, failures, cache, now, grant).0.failures;
      assert fs[..|failures1|] == failures1;
      assert fs[..|failures|] == fs[..|failures1|][..|failures|];
      forall j | 0 <= j < |reqs|
        ensures reqs[j] != [] && fs[|failures| + j].requirement == Keys(reqs[j])
      {
        if j == 0 {
          assert fs[|failures|] == fs[..|failures1|][|failures|];
        } else {
          assert reqs[j] == reqs[1..][j - 1];
        }
      }
    }
  }

  /** The token cache as the requirement at index `k` is tried, when every
      requirement before it has been tried from `cache` in order. */
  ghost function CacheBefore(steps: Steps, reqs: seq<SecurityRequirement>, cache: TokenCache,
                             now: int, grant: OAuth.Grant, k: nat): TokenCache
    requires k <= |reqs|
    decreases k
  {
    if k == 0 then cache
    else CacheBefore(steps, reqs[1..], RequirementResult(steps, reqs[0], cache, now, grant).1, now, grant, k - 1)
  }

  /** `res` is what the requirement at index `k` yields, and `k` is the first
      that can be met: every requirement before it is non-empty and failed
      against the cache as it stood when it was tried. */
  ghost predicate FirstMetAt(steps: Steps, reqs: seq<SecurityRequirement>, cache: TokenCache,
                             now: int, grant: OAuth.Grant, res: AuthResult, k: int)
  {
    && 0 <= k < |reqs|
    && res.authUsed == Keys(reqs[k])
    && (reqs[k] == [] ==> res == AuthResult([], []))
    && (reqs[k] != [] ==>
          RequirementResult(steps, reqs[k], CacheBefore(steps, reqs, cache, now, grant, k), now, grant).0
          == AllResolved(res.schemes))
    && forall j :: 0 <= j < k ==>
         && reqs[j] != []
         && RequirementResult(steps, reqs[j], CacheBefore(steps, reqs, cache, now, grant, j), now, grant).0.Failed?
  }

  /** The requirement used is the first that can be met: the result is the
      schemes it resolves to (nothing for an empty requirement), named by its
      keys, and every requirement before it was tried and failed. */
  lemma {:induction false} ChosenSatisfiesOne(steps: Steps, reqs: seq<SecurityRequirement>,
                                              failures: seq<RequirementFailure>, cache: TokenCache,
                                              now: int, grant: OAuth.Grant)
    requires NamesSchemes(steps)
    requires NegotiateFrom(steps, reqs, failures, cache, now, grant).0.Chosen?
    ensures var res := NegotiateFrom(steps, reqs, failures, cache, now, grant).0.result;
      && res.authUsed == Names(res.schemes)
      && exists k :: FirstMetAt(steps, reqs, cache, now, grant, res, k)
    decreases |reqs|
  {
    var res := NegotiateFrom(steps, reqs, failures, cache, now, grant).0.result;
    if reqs[0] == [] {
      assert FirstMetAt(steps, reqs, cache, now, grant, res, 0);
    } else {
      var (o, cache1) := RequirementResult(steps, reqs[0], cache, now, grant);
      if o.AllResolved? {
        RequirementAllResolved(steps, reqs[0], cache, now, grant, o.schemes);
        assert FirstMetAt(steps, reqs, cache, now, grant, res, 0);
      } else {
        var failures1 := failures + [RequirementFailure(Keys(reqs[0]), o.reason, o.missingEnv)];
        ChosenSatisfiesOne(steps, reqs[1..], failures1, cache1, now, grant);
        var k :| FirstMetAt(steps, reqs[1..], cache1, now, grant, res, k);
        FirstMetShift(steps, reqs, cache, now, grant, res, k);
      }
    }
  }

  /** A requirement first met after a failed first one is first met in the
      whole list, one position later. */
  lemma FirstMetShift(steps: Steps, reqs: seq<SecurityRequirement>, cache: TokenCache,
                      now: int, grant: OAuth.Grant, res: AuthResult, k: int)
    requires reqs != [] && reqs[0] != []
    requires RequirementResult(steps, reqs[0], cache, now, grant).0.Failed?
    requires FirstMetAt(steps, reqs[1..], RequirementResult(steps, reqs[0], cache, now, grant).1, now, grant, res, k)
    ensures FirstMetAt(steps, reqs, cache, now, grant, res, k + 1)
  {
    var cache1 := RequirementResult(steps, reqs[0], cache, now, grant).1;
    assert reqs[k + 1] == reqs[1..][k];
    assert CacheBefore(steps, reqs, cache, now, grant, k + 1) == CacheBefore(steps, reqs[1..], cache1, now, grant, k);
    forall j | 0 <= j < k + 1
      ensures reqs[j] != []
      ensures RequirementResult(steps, reqs[j], CacheBefore(steps, reqs, cache, now, grant, j), now, grant).0.Failed?
    {
      if j > 0 {
        assert reqs[j] == reqs[1..][j - 1];
        assert CacheBefore(steps, reqs, cache, now, grant, j) == CacheBefore(steps, reqs[1..], cache1, now, grant, j - 1);
      }
    }
  }

  /** What `resolveAuth` can end with: no requirement (an operation's own
      empty list hides the document's) means no authentication with the cache
      untouched; a success is what the first requirement that can be met
      yields; every error is an `AUTH_ERROR`, a `CONFIG_ERROR`, or the
      `REQUEST_ERROR` of an OAuth2 token URL that does not parse. */
  lemma ResolveOutcomes(api: LoadedApi, endpoint: EndpointDefinition, env: Env.Environment,
                        cache: TokenCache, now: int, grant: OAuth.Grant)
    ensures endpoint.operation.security == Some([]) || Requirements(api, endpoint) == [] ==>
      Resolve(api, endpoint, env, cache, now, grant) == (Ok(AuthResult([], [])), cache)
    ensures var r := Resolve(api, endpoint, env, cache, now, grant).0;
      r.Ok? ==> r.value.authUsed == Names(r.value.schemes)
                && (Requirements(api, endpoint) == [] ==> r.value == AuthResult([], []))
                && (Requirements(api, endpoint) != [] ==>
                      exists k :: FirstMetAt(StepsOf(ContextOf(api, env)), Requirements(api, endpoint), cache, now, grant,
                                             r.value, k))
    ensures var r := Resolve(api, endpoint, env, cache, now, grant).0;
      r.Err? ==> RaisedError(r.error)
  {
    var reqs := Requirements(api, endpoint);
    if reqs != [] {
      var steps := StepsOf(ContextOf(api, env));
      var n := NegotiateFrom(steps, reqs, [], cache, now, grant).0;
      forall name, requested
        ensures steps(name, requested).Throws? ==> steps(name, requested).error.code == ConfigError
        ensures steps(name, requested).Ready? ==> steps(name, requested).resolved.schemeName == name
      {
        StepThrowsConfigError(ContextOf(api, env), name, requested);
        StepNamesScheme(ContextOf(api, env), name, requested);
      }
      if n.Chosen? {
        ChosenSatisfiesOne(steps, reqs, [], cache, now, grant);
      } else if n.Aborted? {
        AbortedCode(steps, reqs, [], cache, now, grant);
      }
    }
  }

  lemma {:induction false} AbortedCode(steps: Steps, reqs: seq<SecurityRequirement>,
                                       failures: seq<RequirementFailure>, cache: TokenCache,
                                       now: int, grant: OAuth.Grant)
    requires ThrowsConfigErrors(steps)
    requires NegotiateFrom(steps, reqs, failures, cache, now, grant).0.Aborted?
    ensures RaisedError(NegotiateFrom(steps, reqs, failures, cache, now, grant).0.error)
    decreases |reqs|
  {
    var (o, cache1) := RequirementResult(steps, reqs[0], cache, now, grant);
    if o.RequirementRaised? {
      RequirementRaisedCode(steps, reqs[0], cache, now, grant);
    } else {
      AbortedCode(steps, reqs[1..], failures + [RequirementFailure(Keys(reqs[0]), o.reason, o.missingEnv)],
                  cache1, now, grant);
    }
  }
}
