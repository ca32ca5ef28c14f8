/** `executeEndpointRequest` (src/http/requestExecutor.ts:51-174): resolve
    the credentials, build the URL, headers and body, send with 429 retries
    and classify the response. The clock, `fetch`, `Math.random` and the
    foreign parsers and encoders are parameters. */
module RequestExecutor {
  import opened Wrappers
  import opened JsString
  import opened JsonValue
  import opened Errors
  import opened Records
  import opened OpenApi
  import opened RequestUrl
  import opened RequestHeaders
  import opened ResponseBody
  import opened Retry
  import opened SeqFacts
  import Env
  import OAuth
  import Auth

  /** The tool arguments of one call. */
  datatype RequestInput = RequestInput(
    pathParams: Option<Record<Json>>,
    query: Option<Record<Json>>,
    headers: Option<Record<string>>,
    cookies: Option<Record<string>>,
    body: RawBody,
    contentType: Option<string>,
    accept: Option<string>,
    timeoutMs: Option<int>,
    retry429: Option<RetryConfig>)

  /** Library functions the executor calls: `encodeURIComponent`,
      `JSON.parse` (`None` for a syntax error), `JSON.stringify`, UTF-8
      decoding, `Date.parse(v) - Date.now()`, whether `new URL(s)` parses
      `s` (it throws otherwise) and the token endpoint. */
  datatype Foreign = Foreign(
    encode: Encoder,
    parsesUrl: string -> bool,
    parseJson: string -> Option<Json>,
    stringify: Json -> string,
    decodeText: seq<bv8> -> string,
    dateDelta: string -> Option<int>,
    grant: OAuth.Grant)

  /** What goes to `fetch`: the URL as base and path plus query entries. */
  datatype SentRequest = SentRequest(
    url: string,
    query: seq<(string, string)>,
    httpMethod: string,
    headers: Record<string>,
    body: Option<Payload>,
    timeoutMs: int)

  datatype RequestSummary = RequestSummary(
    url: string,
    query: seq<(string, string)>,
    httpMethod: string,
    headersRedacted: Record<string>,
    endpointId: string)

  datatype ResponseSummary = ResponseSummary(status: int, headers: Record<string>, body: DecodedBody)

  /** `RequestExecutionResult`, with the attempts and waits of the retry loop
      in place of the elapsed time. */
  datatype ExecutionResult = ExecutionResult(
    request: RequestSummary,
    response: ResponseSummary,
    authUsed: seq<string>,
    attempts: nat,
    sleeps: seq<real>)

  const DefaultTimeoutMs := 30000

  /** The headers before the body's content type: merged, `accept`, the
      credentials, then the cookie header when there is any cookie. */
  function HeadersWithCookie(placed: Outgoing, encode: Encoder): Record<string> {
    if placed.cookies != [] then Set(placed.headers, "cookie", CookieHeader(placed.cookies, encode)) else placed.headers
  }

  /** Where the credentials are placed, starting from the merged headers,
      the call's cookies and the serialised query. */
  function Placement(api: LoadedApi, endpoint: EndpointDefinition, input: RequestInput, extra: Record<string>,
                     auth: Auth.AuthResult): Outgoing {
    var merged := MergeHeaders(api.config.headers.GetOr([]), extra, input.headers.GetOr([]));
    var withAccept := if Auth.Filled(input.accept) then Set(merged, "accept", input.accept.value) else merged;
    var query := QueryPairs(QueryParamsByName(CollectParameters(endpoint)), input.query.GetOr([]));
    ApplySchemes(Outgoing(withAccept, Assign([], input.cookies.GetOr([])), query), auth.schemes)
  }

  /** The content type is added only when one was inferred and no header
      of that name exists in any case. */
  function WithContentType(headers: Record<string>, prepared: PreparedBody): Record<string> {
    if Auth.Filled(prepared.inferredContentType) && !HasHeader(headers, "content-type")
    then Set(headers, "content-type", prepared.inferredContentType.value)
    else headers
  }

  /** The request built once credentials are known: the path expanded (a
      missing parameter is an error), the joined URL parsed (`new URL`
      throws on one it cannot parse), the `_HEADERS` variable read (a bad
      value is an error), then everything assembled. */
  function BuildRequest(api: LoadedApi, endpoint: EndpointDefinition, input: RequestInput, env: Env.Environment,
                        auth: Auth.AuthResult, f: Foreign): Result<SentRequest> {
    var path :- ExpandPath(endpoint.path, input.pathParams, f.encode);
    var url := JoinBaseAndPath(api.baseUrl, path);
    if !f.parsesUrl(url) then Err(InvalidUrl)
    else
      var extra :- Env.ExtraHeaders(api.config.name, env, f.parseJson);
      Ok(Assembled(api, endpoint, input, auth, f, url, extra))
  }

  /** The request to `url` once the `_HEADERS` variable is read: query and
      headers placed, the body prepared, the timeout chosen. */
  function Assembled(api: LoadedApi, endpoint: EndpointDefinition, input: RequestInput, auth: Auth.AuthResult,
                     f: Foreign, url: string, extra: Record<string>): SentRequest {
    var placed := Placement(api, endpoint, input, extra, auth);
    var prepared := PrepareRequestBody(input.body, input.contentType, f.stringify);
    SentRequest(
      url,
      placed.query,
      endpoint.httpMethod.Upper(),
      WithContentType(HeadersWithCookie(placed, f.encode), prepared),
      prepared.body,
      input.timeoutMs.GetOr(api.config.timeoutMs.GetOr(DefaultTimeoutMs)))
  }

  /** The whole call from a token cache: the result, an error for anything
      thrown, and the cache afterwards. */
  function Execute(api: LoadedApi, endpoint: EndpointDefinition, input: RequestInput, env: Env.Environment,
                   cache: Auth.TokenCache, now: int, f: Foreign, transport: nat -> Attempt, random: nat -> real)
    : (Result<ExecutionResult>, Auth.TokenCache)
  {
    var (auth, cache1) := Auth.Resolve(api, endpoint, env, cache, now, f.grant);
    if auth.Err? then (Err(auth.error), cache1)
    else
      match BuildRequest(api, endpoint, input, env, auth.value, f)
      case Err(e) => (Err(e), cache1)
      case Ok(req) => (Send(api, endpoint, input, req, auth.value.authUsed, f, transport, random), cache1)
  }

  /** Sending a built request: the retry loop, then the response
      classified, or the transport error. */
  function Send(api: LoadedApi, endpoint: EndpointDefinition, input: RequestInput, req: SentRequest,
                authUsed: seq<string>, f: Foreign, transport: nat -> Attempt, random: nat -> real): Result<ExecutionResult>
  {
    var o := ResolveRetry429Options(api.config.retry429, input.retry429);
    var site := CallSite(api.config.name, endpoint.endpointId, req.timeoutMs);
    var run := RetryFrom(o, site, transport, DelayPolicyOf(o, f.dateDelta, random), 0);
    match run.outcome
    case Err(e) => Err(e)
    case Ok(response) =>
      Ok(ExecutionResult(
        RequestSummary(req.url, req.query, req.httpMethod, Redacted(req.headers), endpoint.endpointId),
        ResponseSummary(response.status, response.headers, DecodeResponseBody(response, f.decodeText, f.parseJson)),
        authUsed, run.attempts, run.sleeps))
  }

  /** One credential never makes a header or cookie name repeat. */
  lemma ApplySchemeUnique(p: Outgoing, s: Auth.ResolvedScheme)
    requires UniqueKeys(p.headers) && UniqueKeys(p.cookies)
    ensures UniqueKeys(ApplyScheme(p, s).headers) && UniqueKeys(ApplyScheme(p, s).cookies)
  {
    if !s.ApiKeyAuth? {
      SetKeys(p.headers, "authorization", AuthorizationValue(s));
    } else if s.location == InHeader {
      SetKeys(p.headers, s.name, s.value);
    } else if s.location == InCookie {
      SetKeys(p.cookies, s.name, s.value);
    }
  }

  /** Credentials never make a header name repeat. */
  lemma {:induction false} ApplySchemesUnique(o: Outgoing, ss: seq<Auth.ResolvedScheme>)
    requires UniqueKeys(o.headers) && UniqueKeys(o.cookies)
    ensures UniqueKeys(ApplySchemes(o, ss).headers) && UniqueKeys(ApplySchemes(o, ss).cookies)
  {
    if ss != [] {
      ApplySchemesUnique(o, ss[..|ss| - 1]);
      ApplySchemeUnique(ApplySchemes(o, ss[..|ss| - 1]), ss[|ss| - 1]);
    }
  }

  /** The built request has no repeated header name, and carries a content
      type (under any spelling) exactly when the assembled headers already
      had one or the body inferred one. */
  lemma BuiltHeaders(api: LoadedApi, endpoint: EndpointDefinition, input: RequestInput, env: Env.Environment,
                     auth: Auth.AuthResult, f: Foreign)
    requires BuildRequest(api, endpoint, input, env, auth, f).Ok?
    ensures UniqueKeys(BuildRequest(api, endpoint, input, env, auth, f).value.headers)
    ensures var extra := Env.ExtraHeaders(api.config.name, env, f.parseJson).value;
      var before := HeadersWithCookie(Placement(api, endpoint, input, extra, auth), f.encode);
      var prepared := PrepareRequestBody(input.body, input.contentType, f.stringify);
      var after := BuildRequest(api, endpoint, input, env, auth, f).value.headers;
      HasHeader(after, "content-type") <==> HasHeader(before, "content-type") || Auth.Filled(prepared.inferredContentType)
  {
    var extra := Env.ExtraHeaders(api.config.name, env, f.parseJson).value;
    var url := JoinBaseAndPath(api.baseUrl, ExpandPath(endpoint.path, input.pathParams, f.encode).value);
    assert BuildRequest(api, endpoint, input, env, auth, f).value == Assembled(api, endpoint, input, auth, f, url, extra);
    var merged := MergeHeaders(api.config.headers.GetOr([]), extra, input.headers.GetOr([]));
    if Auth.Filled(input.accept) {
      SetKeys(merged, "accept", input.accept.value);
    }
    var withAccept := if Auth.Filled(input.accept) then Set(merged, "accept", input.accept.value) else merged;
    var query := QueryPairs(QueryParamsByName(CollectParameters(endpoint)), input.query.GetOr([]));
    var cookies := Assign([], input.cookies.GetOr([]));
    ApplySchemesUnique(Outgoing(withAccept, cookies, query), auth.schemes);
    var placed := Placement(api, endpoint, input, extra, auth);
    if placed.cookies != [] {
      SetKeys(placed.headers, "cookie", CookieHeader(placed.cookies, f.encode));
    }
    var before := HeadersWithCookie(placed, f.encode);
    var prepared := PrepareRequestBody(input.body, input.contentType, f.stringify);
    if Auth.Filled(prepared.inferredContentType) && !HasHeader(before, "content-type") {
      SetKeys(before, "content-type", prepared.inferredContentType.value);
      HasHeaderAfterSet(before, "content-type", prepared.inferredContentType.value, "content-type");
    }
  }

  /** Building fails, in this order, with the `REQUEST_ERROR` naming the
      first missing path parameter, with the `REQUEST_ERROR` of a joined URL
      that does not parse, or with the `CONFIG_ERROR` of a bad `_HEADERS`
      variable; a built request goes to the joined URL. */
  lemma BuildRequestErrors(api: LoadedApi, endpoint: EndpointDefinition, input: RequestInput, env: Env.Environment,
                           auth: Auth.AuthResult, f: Foreign)
    ensures var r := BuildRequest(api, endpoint, input, env, auth, f);
      var path := ExpandPath(endpoint.path, input.pathParams, f.encode);
      var missing := FirstMissing(PlaceholderNames(endpoint.path), input.pathParams);
      && (path.Err? <==> missing.Some?)
      && (missing.Some? ==> r == Err(MissingPathParameter(missing.value)))
      && (path.Ok? && !f.parsesUrl(JoinBaseAndPath(api.baseUrl, path.value)) ==> r == Err(InvalidUrl))
      && (path.Ok? && f.parsesUrl(JoinBaseAndPath(api.baseUrl, path.value)) ==>
            && (r.Err? <==> Env.ExtraHeaders(api.config.name, env, f.parseJson).Err?)
            && (r.Err? ==> r.error.code == ConfigError)
            && (r.Ok? ==> r.value.url == JoinBaseAndPath(api.baseUrl, path.value)))
  {
    ExpandPathFails(endpoint.path, input.pathParams, f.encode);
    Env.ExtraHeadersCases(api.config.name, env, f.parseJson);
  }

  /** Sending fails only with the `REQUEST_ERROR` of a transport failure.
      A success reports the final response after between one and
      `maxRetries + 1` attempts, and headers whose secret values are all
      `<redacted>`. */
  lemma SendOutcomes(api: LoadedApi, endpoint: EndpointDefinition, input: RequestInput, req: SentRequest,
                     authUsed: seq<string>, f: Foreign, transport: nat -> Attempt, random: nat -> real)
    requires forall i :: 0.0 <= random(i) < 1.0
    ensures var r := Send(api, endpoint, input, req, authUsed, f, transport, random);
      && (r.Err? ==> r.error.code == RequestError)
      && (r.Ok? ==>
            && r.value.authUsed == authUsed
            && 1 <= r.value.attempts <= ResolveRetry429Options(api.config.retry429, input.retry429).maxRetries + 1
            && transport(r.value.attempts - 1).Responded?
            && transport(r.value.attempts - 1).response.status == r.value.response.status
            && |r.value.sleeps| < r.value.attempts
            && (forall k :: 0 <= k < |r.value.sleeps| ==>
                  0.0 < r.value.sleeps[k] <= ResolveRetry429Options(api.config.retry429, input.retry429).maxDelayMs as real)
            && forall i :: 0 <= i < |r.value.request.headersRedacted| && IsSensitiveHeader(r.value.request.headersRedacted[i].0)
                 ==> r.value.request.headersRedacted[i].1 == RedactedValue)
  {
    var o := ResolveRetry429Options(api.config.retry429, input.retry429);
    var site := CallSite(api.config.name, endpoint.endpointId, req.timeoutMs);
    var delay := DelayPolicyOf(o, f.dateDelta, random);
    DelayPolicyBounded(o, f.dateDelta, random);
    RetryRunOutcome(o, site, transport, delay, 0);
    RetryRunBounds(o, site, transport, delay, 0);
  }

  /** What a call can end with: every error is an `AUTH_ERROR`, a
      `CONFIG_ERROR` or a `REQUEST_ERROR`; a success reports the schemes
      chosen by credential resolution; the token cache changes only as
      resolution changes it. */
  lemma ExecuteOutcomes(api: LoadedApi, endpoint: EndpointDefinition, input: RequestInput, env: Env.Environment,
                        cache: Auth.TokenCache, now: int, f: Foreign, transport: nat -> Attempt, random: nat -> real)
    requires forall i :: 0.0 <= random(i) < 1.0
    ensures var r := Execute(api, endpoint, input, env, cache, now, f, transport, random).0;
      var auth := Auth.Resolve(api, endpoint, env, cache, now, f.grant).0;
      && (r.Err? ==> r.error.code in {AuthError, ConfigError, RequestError})
      && (r.Ok? ==> auth.Ok? && r.value.authUsed == auth.value.authUsed)
    ensures Execute(api, endpoint, input, env, cache, now, f, transport, random).1
         == Auth.Resolve(api, endpoint, env, cache, now, f.grant).1
  {
    var (auth, cache1) := Auth.Resolve(api, endpoint, env, cache, now, f.grant);
    Auth.ResolveOutcomes(api, endpoint, env, cache, now, f.grant);
    if auth.Ok? {
      BuildRequestErrors(api, endpoint, input, env, auth.value, f);
      var b := BuildRequest(api, endpoint, input, env, auth.value, f);
      if b.Ok? {
        SendOutcomes(api, endpoint, input, b.value, auth.value.authUsed, f, transport, random);
      }
    }
  }

  /** `executeEndpointRequest`. */
  method ExecuteEndpointRequest(api: LoadedApi, endpoint: EndpointDefinition, input: RequestInput,
                                client: OAuth.OAuthClient, env: Env.Environment, now: int, f: Foreign,
                                transport: nat -> Attempt, random: nat -> real)
    returns (r: Result<ExecutionResult>)
    modifies client
    ensures (r, client.cache) == Execute(api, endpoint, input, env, old(client.cache), now, f, transport, random)
  {
    var auth := Auth.ResolveAuth(api, endpoint, client, env, now, f.grant);
    if auth.Err? {
      return Err(auth.error);
    }
    var built := PrepareRequest(api, endpoint, input, env, auth.value, f);
    if built.Err? {
      return Err(built.error);
    }
    var req := built.value;
    var o := ResolveRetry429Options(api.config.retry429, input.retry429);
    var run := SendWithRetries(o, CallSite(api.config.name, endpoint.endpointId, req.timeoutMs), transport, random, f.dateDelta);
    if run.outcome.Err? {
      return Err(run.outcome.error);
    }
    var response := run.outcome.value;
    BuiltHeaders(api, endpoint, input, env, auth.value, f);
    var headersRedacted := RedactHeaders(req.headers);
    r := Ok(ExecutionResult(
      RequestSummary(req.url, req.query, req.httpMethod, headersRedacted, endpoint.endpointId),
      ResponseSummary(response.status, response.headers, DecodeResponseBody(response, f.decodeText, f.parseJson)),
      auth.value.authUsed, run.attempts, run.sleeps));
  }

  /** Lines 63-104 of `executeEndpointRequest`: the path expanded, the URL
      parsed, the query serialised, the `_HEADERS` variable read, then the headers
      assembled. */
  method PrepareRequest(api: LoadedApi, endpoint: EndpointDefinition, input: RequestInput, env: Env.Environment,
                        auth: Auth.AuthResult, f: Foreign) returns (r: Result<SentRequest>)
    ensures r == BuildRequest(api, endpoint, input, env, auth, f)
  {
    var path := ExpandPath(endpoint.path, input.pathParams, f.encode);
    if path.Err? {
      return Err(path.error);
    }
    var url := JoinBaseAndPath(api.baseUrl, path.value);
    if !f.parsesUrl(url) {
      return Err(InvalidUrl);
    }
    var searchParams := new SearchParams();
    ghost var before := searchParams.entries;
    AppendQueryParams(searchParams, endpoint, input.query.GetOr([]));
    AppendEmpty(before, QueryPairs(QueryParamsByName(CollectParameters(endpoint)), input.query.GetOr([])));
    var extra := Env.ReadApiExtraHeaders(api.config.name, env, f.parseJson);
    if extra.Err? {
      return Err(extra.error);
    }
    var req := FinishRequest(api, endpoint, input, auth, f, url, searchParams, extra.value);
    r := Ok(req);
  }

  /** Lines 72-104 of `executeEndpointRequest`: the headers assembled, the
      body prepared and the timeout chosen. */
  method FinishRequest(api: LoadedApi, endpoint: EndpointDefinition, input: RequestInput, auth: Auth.AuthResult,
                       f: Foreign, url: string, searchParams: SearchParams, extra: Record<string>)
    returns (req: SentRequest)
    requires searchParams.entries == QueryPairs(QueryParamsByName(CollectParameters(endpoint)), input.query.GetOr([]))
    modifies searchParams
    ensures req == Assembled(api, endpoint, input, auth, f, url, extra)
  {
    var prepared := PrepareRequestBody(input.body, input.contentType, f.stringify);
    var headers := AssembleHeaders(api, endpoint, input, extra, auth, searchParams, prepared, f.encode);
    var timeoutMs := input.timeoutMs.GetOr(api.config.timeoutMs.GetOr(DefaultTimeoutMs));
    req := SentRequest(url, searchParams.entries, endpoint.httpMethod.Upper(), headers, prepared.body, timeoutMs);
  }

  /** The header object and the cookie map updated step by step, query
      credentials set on the URL. */
  method AssembleHeaders(api: LoadedApi, endpoint: EndpointDefinition, input: RequestInput, extra: Record<string>,
                         auth: Auth.AuthResult, searchParams: SearchParams, prepared: PreparedBody, encode: Encoder)
    returns (headers: Record<string>)
    requires searchParams.entries == QueryPairs(QueryParamsByName(CollectParameters(endpoint)), input.query.GetOr([]))
    modifies searchParams
    ensures searchParams.entries == Placement(api, endpoint, input, extra, auth).query
    ensures headers == WithContentType(HeadersWithCookie(Placement(api, endpoint, input, extra, auth), encode), prepared)
  {
    var mergedHeaders := MergeHeaders(api.config.headers.GetOr([]), extra, input.headers.GetOr([]));
    if Auth.Filled(input.accept) {
      mergedHeaders := Set(mergedHeaders, "accept", input.accept.value);
    }
    var cookieMap := Assign([], input.cookies.GetOr([]));
    mergedHeaders, cookieMap := ApplyAuth(mergedHeaders, cookieMap, searchParams, auth.schemes);
    if cookieMap != [] {
      mergedHeaders := Set(mergedHeaders, "cookie", CookieHeader(cookieMap, encode));
    }
    headers := WithContentType(mergedHeaders, prepared);
  }
}
