/** The OAuth2 client-credentials token client with its in-memory token
    cache (src/auth/oauthClient.ts; the grant of section 4.4 of RFC 6749).
    URL parsing, the grant exchange itself and the clock are parameters. */
module OAuth {
  import opened Wrappers
  import opened JsString
  import opened JsonValue
  import opened Errors
  import opened OpenApi

  /** `OAuthTokenRequest`. */
  datatype TokenRequest = TokenRequest(
    cacheKey: string,
    tokenUrl: string,
    clientId: string,
    clientSecret: string,
    scopes: seq<string>,
    tokenEndpointAuthMethod: TokenAuthMethod)

  /** `TokenCacheEntry`. */
  datatype CacheEntry = CacheEntry(accessToken: string, expiresAtMs: int)

  /** How the client secret travels to the token endpoint. */
  datatype ClientAuth = SecretInPostBody(secret: string) | SecretInBasicHeader(secret: string)

  /** What is handed to the grant exchange: the authorization server (its
      issuer and token endpoint), the client, its authentication and the
      `scope` form parameter if any. */
  datatype GrantCall = GrantCall(issuer: string, tokenEndpoint: string, clientId: string, clientAuth: ClientAuth,
                                 scope: Option<string>)

  /** How the grant exchange ends: a token response (with `expires_in` in
      seconds if given), an OAuth error response body, a response the library
      could not process, or any other failure (already stringified). */
  datatype GrantReply =
    | Granted(accessToken: string, expiresIn: Option<int>)
    | ResponseBodyError(cause: Json)
    | OperationProcessingError(code: string, message: string)
    | OtherFailure(message: string)

  /** What a token request needs from outside: the origin of a URL as
      `new URL(url).origin` gives it (`None` where the URL does not parse
      and the constructor throws), and the grant exchange with its reply and
      the clock reading when the reply arrived. */
  datatype Grant = Grant(originOf: string -> Option<string>, exchange: GrantCall -> (GrantReply, int))

  /** The `TypeError` of `new URL` on a token URL that does not parse. It is
      thrown before the grant's `try`, so it reaches `asErrorResponse`
      unchanged and is reported as a `REQUEST_ERROR` carrying its message and
      no details; this is that payload. */
  const InvalidTokenUrl: Error := InvalidUrl

  /** The invalid-URL error is reported exactly as the native `TypeError`
      would be. */
  lemma InvalidTokenUrlPayload()
    ensures AsErrorResponse(McpError(InvalidTokenUrl)) == AsErrorResponse(NativeError("Invalid URL"))
    ensures AsErrorResponse(McpError(InvalidTokenUrl)).code == RequestError
  {
  }

  const TokenExpirySafetyMs: int := 60000

  /** A cached entry is used while more than the safety margin remains. */
  predicate IsFresh(entry: CacheEntry, now: int) {
    entry.expiresAtMs - now > TokenExpirySafetyMs
  }

  /** `Date.now() + Math.max(expires_in ?? 3600, 1) * 1000`. */
  function ExpiresAt(at: int, expiresIn: Option<int>): (t: int)
    ensures t >= at + 1000
    ensures expiresIn.None? ==> t == at + 3600000
    ensures expiresIn.Some? && expiresIn.value >= 1 ==> t == at + expiresIn.value * 1000
  {
    var seconds := expiresIn.GetOr(3600);
    at + (if seconds > 1 then seconds else 1) * 1000
  }

  /** The parameters of the grant request. */
  function GrantCallFor(req: TokenRequest, issuer: string): (c: GrantCall)
    ensures c.issuer == issuer
    ensures c.tokenEndpoint == req.tokenUrl && c.clientId == req.clientId
    ensures c.clientAuth.secret == req.clientSecret
    ensures c.clientAuth.SecretInPostBody? <==> req.tokenEndpointAuthMethod == ClientSecretPost
    ensures c.scope.Some? <==> req.scopes != []
  {
    GrantCall(
      issuer,
      req.tokenUrl,
      req.clientId,
      if req.tokenEndpointAuthMethod == ClientSecretPost then SecretInPostBody(req.clientSecret)
      else SecretInBasicHeader(req.clientSecret),
      if |req.scopes| > 0 then Some(Join(req.scopes, " ")) else None)
  }

  /** The `scope` parameter carries exactly the requested scopes: a server
      splitting it on whitespace gets the list back. */
  lemma ScopeParameterRoundTrip(req: TokenRequest, issuer: string)
    requires forall k :: 0 <= k < |req.scopes| ==> req.scopes[k] != "" && NoSpace(req.scopes[k])
    ensures GrantCallFor(req, issuer).scope.Some? ==> Words(GrantCallFor(req, issuer).scope.value) == req.scopes
    ensures GrantCallFor(req, issuer).scope.None? ==> req.scopes == []
  {
    WordsOfJoin(req.scopes);
  }

  /** The `AUTH_ERROR` a failed grant turns into; it always names the token
      URL. */
  function GrantError(req: TokenRequest, reply: GrantReply): (e: Error)
    requires !reply.Granted?
    ensures e.code == AuthError
    ensures e.details.Some? && e.details.value.JObject?
      && |e.details.value.fields| >= 2 && e.details.value.fields[0] == ("tokenUrl", JString(req.tokenUrl))
  {
    match reply
    case ResponseBodyError(cause) =>
      Error(AuthError, "OAuth2 token request failed",
        Some(JObject([("tokenUrl", JString(req.tokenUrl)), ("oauthError", cause)])))
    case OperationProcessingError(code, message) =>
      Error(AuthError, "OAuth2 operation failed",
        Some(JObject([("tokenUrl", JString(req.tokenUrl)), ("code", JString(code)), ("cause", JString(message))])))
    case OtherFailure(message) =>
      Error(AuthError, "OAuth2 token request failed",
        Some(JObject([("tokenUrl", JString(req.tokenUrl)), ("cause", JString(message))])))
  }

  /** One call of `getClientCredentialsToken` on a cache, at time `now`:
      the result and the cache afterwards. */
  function TokenStep(cache: map<string, CacheEntry>, req: TokenRequest, now: int, grant: Grant)
    : (Result<string>, map<string, CacheEntry>)
  {
    if req.cacheKey in cache && IsFresh(cache[req.cacheKey], now) then
      (Ok(cache[req.cacheKey].accessToken), cache)
    else if grant.originOf(req.tokenUrl).None? then
      (Err(InvalidTokenUrl), cache)
    else
      var (reply, at) := grant.exchange(GrantCallFor(req, grant.originOf(req.tokenUrl).value));
      match reply
      case Granted(token, expiresIn) =>
        (Ok(token), cache[req.cacheKey := CacheEntry(token, ExpiresAt(at, expiresIn))])
      case _ => (Err(GrantError(req, reply)), cache)
  }

  /** The token client of one bridge process. */
  class OAuthClient {
    var cache: map<string, CacheEntry>

    constructor()
      ensures cache == map[]
    {
      cache := map[];
    }

    /** `getClientCredentialsToken`: a fresh cached token is returned as it
        is; otherwise the token URL must parse, the grant is requested and a
        token it yields is cached and returned, while a failure leaves the
        cache alone. */
    method GetClientCredentialsToken(req: TokenRequest, now: int, grant: Grant) returns (r: Result<string>)
      modifies this
      ensures (r, cache) == TokenStep(old(cache), req, now, grant)
    {
      if req.cacheKey in cache {
        var cached := cache[req.cacheKey];
        if cached.expiresAtMs - now > TokenExpirySafetyMs {
          return Ok(cached.accessToken);
        }
      }
      var issuer := grant.originOf(req.tokenUrl);
      if issuer.None? {
        return Err(InvalidTokenUrl);
      }
      var call := GrantCallFor(req, issuer.value);
      var outcome := grant.exchange(call);
      var reply := outcome.0;
      if reply.Granted? {
        var seconds := if reply.expiresIn.Some? then reply.expiresIn.value else 3600;
        var expiresAtMs := outcome.1 + (if seconds > 1 then seconds else 1) * 1000;
        cache := cache[req.cacheKey := CacheEntry(reply.accessToken, expiresAtMs)];
        return Ok(reply.accessToken);
      }
      r := Err(GrantError(req, reply));
    }
  }

  /** A fresh cached token is returned without asking the grant exchange:
      the outcome does not depend on it, and the cache is unchanged. */
  lemma CacheHit(cache: map<string, CacheEntry>, req: TokenRequest, now: int, grant: Grant, other: Grant)
    requires req.cacheKey in cache && IsFresh(cache[req.cacheKey], now)
    ensures TokenStep(cache, req, now, grant) == (Ok(cache[req.cacheKey].accessToken), cache)
    ensures TokenStep(cache, req, now, grant) == TokenStep(cache, req, now, other)
  {
  }

  /** Without a fresh entry, a token URL that does not parse is a
      `REQUEST_ERROR` raised before any grant; otherwise the grant exchange,
      addressed to the URL's origin as issuer, decides: a token is cached
      under the request's key until `ExpiresAt` and returned; a failure is an
      `AUTH_ERROR` naming the token URL. Only a token changes the cache. */
  lemma CacheMiss(cache: map<string, CacheEntry>, req: TokenRequest, now: int, grant: Grant)
    requires !(req.cacheKey in cache && IsFresh(cache[req.cacheKey], now))
    ensures var (r, cache') := TokenStep(cache, req, now, grant);
      grant.originOf(req.tokenUrl).None? ==> r == Err(InvalidTokenUrl) && cache' == cache
    ensures var (r, cache') := TokenStep(cache, req, now, grant);
      grant.originOf(req.tokenUrl).Some? ==>
      var call := GrantCallFor(req, grant.originOf(req.tokenUrl).value);
      var (reply, at) := grant.exchange(call);
      && call.issuer == grant.originOf(req.tokenUrl).value
      && (reply.Granted? ==>
            r == Ok(reply.accessToken)
            && cache' == cache[req.cacheKey := CacheEntry(reply.accessToken, ExpiresAt(at, reply.expiresIn))])
      && (!reply.Granted? ==> r.Err? && r.error.code == AuthError && cache' == cache)
  {
  }

  /** A token request fails only with the grant's `AUTH_ERROR` or with the
      invalid-URL `REQUEST_ERROR`. */
  lemma TokenErrors(cache: map<string, CacheEntry>, req: TokenRequest, now: int, grant: Grant)
    ensures var r := TokenStep(cache, req, now, grant).0;
      r.Err? ==> r.error.code == AuthError || r.error == InvalidTokenUrl
  {
    if !(req.cacheKey in cache && IsFresh(cache[req.cacheKey], now)) {
      CacheMiss(cache, req, now, grant);
    }
  }

  /** A call touches no entry but its own key's. */
  lemma OtherKeysUntouched(cache: map<string, CacheEntry>, req: TokenRequest, now: int, grant: Grant, k: string)
    requires k != req.cacheKey
    ensures var cache' := TokenStep(cache, req, now, grant).1;
      (k in cache' <==> k in cache) && (k in cache ==> cache'[k] == cache[k])
  {
  }

  /** A token obtained at time `at` is served from the cache, without a new
      grant, to any later call for the same key made while more than the
      safety margin of its lifetime remains. */
  lemma FreshTokenReused(cache: map<string, CacheEntry>, req: TokenRequest, now: int, grant: Grant,
                         later: int, grant2: Grant)
    requires !(req.cacheKey in cache && IsFresh(cache[req.cacheKey], now))
    requires grant.originOf(req.tokenUrl).Some?
    requires var reply := grant.exchange(GrantCallFor(req, grant.originOf(req.tokenUrl).value));
      reply.0.Granted? && later < ExpiresAt(reply.1, reply.0.expiresIn) - TokenExpirySafetyMs
    ensures var (r1, cache1) := TokenStep(cache, req, now, grant);
      TokenStep(cache1, req, later, grant2) == (r1, cache1)
  {
  }
}
