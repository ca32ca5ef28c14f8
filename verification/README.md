# openapi-dynamic-mcp, modelled in Dafny

This project models the core of `openapi-dynamic-mcp`, an MCP server that
exposes any number of OpenAPI 3.x APIs as generic tools. The parts modelled
are these:

- loading the API registry. This covers the OpenAPI version check, base-URL
  precedence, and the endpoint index with its endpoint-id rule and collision
  error.
- reading per-API settings from environment variables. These are
  `<API>_BASE_URL`, `<API>_HEADERS` and `<API>_<SCHEME>_*`, with their name
  normalisation.
- resolving the security requirements of an endpoint, tried in order (OR)
  with each requirement's schemes all needed (AND).
- the OAuth2 client-credentials token cache.
- building and sending a request:
  - path templates and the query serialisation styles;
  - header precedence, credential placement and the cookie header;
  - the request body and its inferred content type;
  - the 429 retry loop with back-off, jitter and `Retry-After`;
  - response decoding.
- JSON pointer evaluation (section 4 of RFC 6901, with the escaping of
  section 3).
- the `list_api_endpoints` filter, search and cursor paging.
- the mapping of thrown values to error payloads.

Each source module has a Dafny module of its own:

- `Errors`: `src/errors.ts`.
- `JsonPointer`: `src/openapi/jsonPointer.ts`.
- `EndpointIndex`: `src/openapi/endpointIndex.ts`.
- `LoadSpec`: `src/openapi/loadSpec.ts`.
- `Env`: `src/auth/env.ts`.
- `OAuth`: `src/auth/oauthClient.ts`.
- `Auth`: `src/auth/resolveAuth.ts`.
- `ToolCommon`: `src/mcp/tools/common.ts`.
- `ListEndpoints`: `src/mcp/tools/listApiEndpoints.ts`.
- `src/http/requestExecutor.ts` is split into five modules:
  - `Retry`;
  - `RequestUrl`;
  - `RequestHeaders`;
  - `ResponseBody`;
  - `RequestExecutor`, which holds the top-level call.

Several shared modules give the JavaScript semantics the code relies on:

- `JsString`: whitespace, `trim`, `parseInt`, ASCII case mapping and `split(/\s+/)`.
- `Records`: objects as ordered key/value lists with `Object.assign` semantics.
- `JsonValue`: JSON values and `String(v)`.
- `Sorting`: a stable sort.
- `OpenApi`: the document types.
- `Wrappers`: `Option`.
- `SeqFacts`: two facts about sequence concatenation used by the proofs.

Code that updates state in place keeps that form:

- The token cache is the `cache` field of the class `OAuth.OAuthClient`.
- The query string is the `entries` field of the class `RequestUrl.SearchParams`.

Each loop in the source is a method with invariants, with one exception: the
`flat` loop inside the `expandPath` replacement callback is the function
`RequestUrl.FlatPairs`, because the callback is part of the expansion
function `RequestUrl.ExpandPath`. Each method is proved equal to a
specification function, and the properties are proved about that function.

Library calls are parameters of the model:

- `JSON.parse`, `JSON.stringify` and `encodeURIComponent`;
- the UTF-8 decoder and `Date.parse`;
- the origin of a token URL as `new URL` parses it, and whether `new URL` parses the request URL;
- the token endpoint exchange and `fetch`;
- `Math.random`.

The clock is an explicit `now` argument.

## Model

| member | source | states |
|---|---|---|
| Errors.AsErrorResponse | src/errors.ts:21-46 | An `OpenApiMcpError` keeps its code, message and details. Any other `Error` becomes `REQUEST_ERROR` with its message and no details. Any other value becomes `REQUEST_ERROR` "Unknown error" with the value as details. |
| Errors.PayloadCodeOrigin | src/errors.ts:1-7 | A code other than `REQUEST_ERROR` comes only from an `OpenApiMcpError`. Every payload code is one of the six wire names. |
| Errors.PayloadTagRecoversCode | src/errors.ts:1-7 | The error kind of any payload is recovered from its wire name alone. |
| Errors.CodeOfTag | src/errors.ts:1-7 | A wire name maps back to the kind that has it, and to nothing when no kind has it. |
| JsString.ParseInt | src/openapi/jsonPointer.ts:20 | `parseInt(s, 10)` is NaN exactly when, after leading whitespace and one sign, no digit follows. |
| JsString.NatToStringRoundTrip | src/openapi/jsonPointer.ts:20 | `parseInt(String(n))` is `n` for every natural number. |
| JsString.WordsOfJoin | src/auth/env.ts:104 | Splitting on whitespace undoes joining non-empty, space-free words with single spaces. |
| JsString.Trim | src/mcp/tools/listApiEndpoints.ts:28 | The trimmed string has no whitespace at either end. |
| JsString.TrimSlice | src/mcp/tools/listApiEndpoints.ts:28 | The trimmed string is a slice of the input with only whitespace before and after it. |
| JsString.TrimTrailingSlashes | src/http/requestExecutor.ts:446-450 | The result is a prefix of the input without a trailing `/`. A string without a trailing `/` is unchanged. |
| Records.SetGet | src/auth/env.ts:58-68 | After an assignment the key reads as the assigned value. Every other key reads as before. |
| Records.SetKeys | src/auth/env.ts:58-68 | Assignment appends a new key at the end (insertion order), keeps the place of an existing key, and keeps keys unique. |
| Records.AssignGet | src/http/requestExecutor.ts:66-70 | With `Object.assign`/spread, the later object's keys win and the other keys keep the earlier value. |
| JsonPointer.UnescapeEscape | src/openapi/jsonPointer.ts:15 | Unescaping (`~1` then `~0`, section 4 of RFC 6901) undoes escaping (section 3), and an escaped token holds no `/`. |
| JsonPointer.SplitJoin | src/openapi/jsonPointer.ts:12-14 | `split("/")` of joined parts without `/` gives the parts back. |
| JsonPointer.JoinSplit | src/openapi/jsonPointer.ts:12-14 | Joining the pieces of `split("/")` with `/` gives the string back. |
| JsonPointer.TokensOfPointer | src/openapi/jsonPointer.ts:12-15 | The pointer built from any reference tokens yields exactly those tokens. |
| JsonPointer.Step | src/openapi/jsonPointer.ts:18-42 | On an array a token succeeds iff it parses to an index within bounds, and yields that item. On an object it succeeds iff it is a key, and yields its value. Otherwise it is a `SCHEMA_ERROR` carrying the "index out of bounds" or "target does not exist" message and `{pointer, token}`. |
| JsonPointer.GetByJsonPointer | src/openapi/jsonPointer.ts:3-46 | The method returns the evaluation of the pointer on the document. |
| JsonPointer.WalkTokens | src/openapi/jsonPointer.ts:17-45 | The cursor loop returns the walk of the tokens from the root, or the error of the first failing step. |
| JsonPointer.EvaluateCases | src/openapi/jsonPointer.ts:4-15 | An absent or empty pointer gives the root. A pointer not starting with `/` gives the `SCHEMA_ERROR` "JSON pointer must start with '/'". Otherwise the tokens are walked from the root. |
| JsonPointer.WalkErrors | src/openapi/jsonPointer.ts:21-41 | A failed walk is a `SCHEMA_ERROR` with one of the two lookup messages. |
| JsonPointer.EvaluatePointerOf | src/openapi/jsonPointer.ts:3-46 | Evaluating the pointer built from tokens walks exactly those tokens. |
| JsonPointer.IndexToken | src/openapi/jsonPointer.ts:19-24 | The token `String(n)` selects item `n` of an array longer than `n`. |
| JsonPointer.EvaluateCompose | src/openapi/jsonPointer.ts:17-45 | Evaluating `p1 + p2` succeeds iff `p2` succeeds on `p1`'s target, and gives the same value. |
| JsonPointer.WalkAppend | src/openapi/jsonPointer.ts:17-45 | Walking `a + b` is walking `a` then `b`. |
| EndpointIndex.NormalizePathForId | src/openapi/endpointIndex.ts:16-18 | The id path is non-empty and has no whitespace. It ends in `/` only when it is `/`. |
| EndpointIndex.NormalizePathIdempotent | src/openapi/endpointIndex.ts:16-18 | Normalising an id path twice changes nothing more. |
| EndpointIndex.CountMapCounts | src/openapi/endpointIndex.ts:27-41 | The count map holds, for each operationId, how many operations carry it. |
| EndpointIndex.EndpointIdRule | src/openapi/endpointIndex.ts:58-63 | An operation's id is its operationId when that is unique. Otherwise it is `METHOD path` with the normalised path. |
| EndpointIndex.CountOperations | src/openapi/endpointIndex.ts:27-41 | The counting loop builds the count map of the document's operationIds. |
| EndpointIndex.RegisterOperations | src/openapi/endpointIndex.ts:43-91 | The registering loop computes the specified registration: the endpoints in order with their map, or the first collision. |
| EndpointIndex.RegisteredIndex | src/openapi/endpointIndex.ts:43-101 | After a successful registration the sorted list is a sorted permutation of the endpoints. The map has exactly their ids, each mapped to its endpoint. |
| EndpointIndex.BuildEndpointIndex | src/openapi/endpointIndex.ts:20-101 | The counting and registering loops and the final sort compute the index of the document. |
| EndpointIndex.IndexFacts | src/openapi/endpointIndex.ts:20-101 | Building succeeds iff the endpoint ids are distinct, and fails otherwise with `SCHEMA_ERROR`. The map holds every endpoint under its id. The list is a sorted permutation of the scanned endpoints. |
| EndpointIndex.RegisterOkIffDistinct | src/openapi/endpointIndex.ts:46-91 | Registration succeeds iff no two endpoints share an id. |
| EndpointIndex.RegisterErr | src/openapi/endpointIndex.ts:77-86 | A collision is a `SCHEMA_ERROR` naming an id held by two endpoints. |
| EndpointIndex.RegisterOk | src/openapi/endpointIndex.ts:46-91 | A successful registration keeps the endpoints in order, and its map has exactly their ids, each mapped to its endpoint. |
| EndpointIndex.EndpointLeTotalPreorder | src/openapi/endpointIndex.ts:93-98 | The path-then-method order is a total preorder, so the sort is well defined. |
| EndpointIndex.AllMethodsScanned | src/openapi/endpointIndex.ts:5 | Every HTTP method of the model is among the eight methods scanned. |
| EndpointIndex.SitesCount | src/openapi/endpointIndex.ts:46-56 | One endpoint is produced per operation of each path item. |
| EndpointIndex.SitesSound | src/openapi/endpointIndex.ts:46-56 | Every produced endpoint is an operation of its path item under its method. |
| Env.NormalizeIsNormal | src/auth/env.ts:11-17 | A normalised segment has only `A-Z`, `0-9` and `_`, no `__`, and no `_` at either end. |
| Env.NormalizeIdempotent | src/auth/env.ts:11-17 | Normalising twice equals normalising once. |
| Env.NormalSegmentFixed | src/auth/env.ts:11-17 | An already normal segment is left unchanged. |
| Env.NormalizeIgnoresCase | src/auth/env.ts:11-17 | Letter case of the input does not matter. |
| Env.SchemePrefixShape | src/auth/env.ts:19-25 | A scheme prefix is the API prefix followed by `_`, in the variable-name alphabet. |
| Env.ReadApiBaseUrl | src/auth/env.ts:27-29 | A base URL is read iff `<API>_BASE_URL` is set. |
| Env.ReadApiKeyValue | src/auth/env.ts:73-79 | A key is read iff `<API>_<SCHEME>_API_KEY` is set. |
| Env.ReadersIgnoreCase | src/auth/env.ts:19-29 | The readers give the same result for lower-cased API and scheme names. |
| Env.ReadApiExtraHeaders | src/auth/env.ts:31-71 | The method (its copy loop is `Env.CopyStringFields`) computes the `_HEADERS` result. |
| Env.ExtraHeadersCases | src/auth/env.ts:31-71 | Unset or empty gives no headers. Invalid JSON or a non-object gives `CONFIG_ERROR`. An object gives its fields. |
| Env.StringFieldsOkIff | src/auth/env.ts:58-68 | Copying succeeds iff every value is a string. |
| Env.StringFieldsValues | src/auth/env.ts:58-68 | Every header name maps to its string value. |
| Env.StringFieldsKeys | src/auth/env.ts:58-68 | The copied headers have exactly the object's keys. |
| Env.StringFieldsFailure | src/auth/env.ts:63-66 | A failure is the `CONFIG_ERROR` for the first non-string value. |
| Env.ParseTokenAuthMethod | src/auth/env.ts:88-98 | Unset or empty gives no method. `client_secret_basic` and `client_secret_post` give themselves. Any other value is a `CONFIG_ERROR`. |
| Env.ParseScopes | src/auth/env.ts:87-104 | A non-empty `_SCOPES` gives its whitespace-separated words, each non-empty. |
| Env.ReadOAuthClientCredentials | src/auth/env.ts:81-107 | Reading fails, with `CONFIG_ERROR`, iff `_TOKEN_AUTH_METHOD` is set to a value other than empty or the two known methods. Otherwise the method is the variable's value. Scopes are present iff `_SCOPES` is non-empty. |
| Env.ScopesRoundTrip | src/auth/env.ts:104 | Scopes written space-separated are read back exactly. |
| Env.ReadHttpAuthCredentials | src/auth/resolveAuth.ts:159-188 | Token, username and password are read iff `_TOKEN`, `_USERNAME` and `_PASSWORD` are set. |
| OAuth.ExpiresAt | src/auth/oauthClient.ts:59-60 | Expiry is `now + max(expires_in ?? 3600, 1)` seconds, so at least one second ahead. |
| OAuth.GrantCallFor | src/auth/oauthClient.ts:29-43 | The grant goes to the given issuer and to the token URL, with the client id and secret. The secret is in the body iff the method is `client_secret_post`. `scope` is sent iff there are scopes. |
| OAuth.ScopeParameterRoundTrip | src/auth/oauthClient.ts:41-43 | The `scope` parameter splits back into exactly the requested scopes. |
| OAuth.GrantError | src/auth/oauthClient.ts:64-84 | Every failed exchange becomes an `AUTH_ERROR` whose details name the token URL. |
| OAuth.InvalidTokenUrlPayload | src/auth/oauthClient.ts:30 | The error for a token URL that does not parse is reported exactly as the `TypeError` of `new URL`: `REQUEST_ERROR` with its message. |
| OAuth.OAuthClient.GetClientCredentialsToken | src/auth/oauthClient.ts:23-85 | The result and the new cache are one token step on the old cache. This includes the `REQUEST_ERROR` for a token URL that does not parse. |
| OAuth.CacheHit | src/auth/oauthClient.ts:24-27 | An entry with more than 60 s left is returned, the cache is unchanged, and the exchange is not consulted. |
| OAuth.CacheMiss | src/auth/oauthClient.ts:29-84 | Otherwise, a token URL that does not parse is a `REQUEST_ERROR` before any grant, with the cache unchanged. A parsed URL's origin is the issuer, and the exchange decides. A token is returned and cached under the key with its expiry. An error is an `AUTH_ERROR` and leaves the cache unchanged. |
| OAuth.OtherKeysUntouched | src/auth/oauthClient.ts:57-61 | A call changes no other cache key. |
| OAuth.TokenErrors | src/auth/oauthClient.ts:23-85 | A token request fails only with an `AUTH_ERROR` or the invalid-URL `REQUEST_ERROR`. |
| OAuth.FreshTokenReused | src/auth/oauthClient.ts:23-61 | A token fetched now is served from the cache by a second call while it stays fresh. |
| Auth.ResolveScopes | src/auth/resolveAuth.ts:228-247 | Environment scopes win when non-empty, then configuration scopes, then the requested scopes, then the flow's scope names. |
| Auth.CacheKeyIgnoresScopeOrder | src/auth/resolveAuth.ts:126-133 | The token cache key is the same for any order of the same scopes. |
| Auth.ResolveRequirement | src/auth/resolveAuth.ts:48-202 | The inner loop, with token fetches through the client, computes the requirement's outcome and the new cache. |
| Auth.ResolveAuth | src/auth/resolveAuth.ts:29-226 | The method's result and the new token cache are those of the resolution function. |
| Auth.ResolveOutcomes | src/auth/resolveAuth.ts:29-226 | No requirements, or an operation's `security: []`, needs no authentication and leaves the token cache untouched. A success's `authUsed` is its schemes' names. It is the result of the first requirement that can be met, after every earlier one failed. Every error is `AUTH_ERROR`, `CONFIG_ERROR`, or the `REQUEST_ERROR` of a token URL that does not parse. |
| Auth.RequirementAllResolved | src/auth/resolveAuth.ts:52-209 | A requirement resolves only when every scheme resolves, in order. `authUsed` is the requirement's scheme names. |
| Auth.RequirementEachResolved | src/auth/resolveAuth.ts:52-209 | A resolved requirement has one scheme per entry, in order. Each is the entry's own resolved scheme, or an OAuth2 scheme under the entry's name when the entry needed a token. |
| Auth.RequirementFailedAt | src/auth/resolveAuth.ts:52-202 | A failed requirement fails at its first failing scheme, with that scheme's reason and missing variables. |
| Auth.RequirementRaisedCode | src/auth/resolveAuth.ts:88-142 | Exceptions out of a requirement are `CONFIG_ERROR` from the environment, `AUTH_ERROR` from the token exchange, or the `REQUEST_ERROR` of a token URL that does not parse. |
| Auth.UnresolvedReportsAll | src/auth/resolveAuth.ts:211-225 | When none resolves, every requirement is reported in order, with its keys. |
| Auth.ChosenSatisfiesOne | src/auth/resolveAuth.ts:43-209 | The chosen requirement is the first that can be met. Every earlier requirement is non-empty and failed against the token cache as it stood when tried. The result is what the chosen one resolves to (nothing for an empty one). Its `authUsed` is that requirement's keys and its schemes' names. |
| Auth.AbortedCode | src/auth/resolveAuth.ts:43-225 | An aborted negotiation carries `AUTH_ERROR`, `CONFIG_ERROR`, or the `REQUEST_ERROR` of a token URL that does not parse. |
| Auth.MissingEnvNamed | src/auth/resolveAuth.ts:61-188 | A failed scheme lists at most two distinct variables, all under its `<API>_<SCHEME>_` prefix. |
| Auth.TokenRequestFacts | src/auth/resolveAuth.ts:55-142 | The same facts hold for any scheme step that asks for a token. |
| Auth.OAuthStepRequest | src/auth/resolveAuth.ts:88-142 | A token request has a non-empty client id, secret and token URL. `_TOKEN_URL` wins when set. The scopes are sorted, and the cache key is built from exactly these values. |
| Auth.StepNamesScheme | src/auth/resolveAuth.ts:71-195 | A resolved scheme carries its own name. |
| Auth.StepThrowsConfigError | src/auth/resolveAuth.ts:88-92 | Only the environment reader throws from a scheme step, with `CONFIG_ERROR`. |
| Auth.HttpSchemeUnsupported | src/auth/resolveAuth.ts:152-157 | An `http` scheme other than bearer and basic, in any case, fails with the unsupported reason and no variables. |
| Retry.ResolveRetry429Options | src/http/requestExecutor.ts:176-200 | The resolved options are valid: retries are at least 0, both delays are at least 1 ms, and jitter lies in [0, 1]. |
| Retry.RetryDefaults | src/http/requestExecutor.ts:43-49 | With nothing configured: 0 retries, 250 ms base, 5000 ms cap, 0.2 jitter, and `Retry-After` respected. |
| Retry.ResolveRetryFixedPoint | src/http/requestExecutor.ts:176-200 | Valid options pass through unchanged, whether given as the input or as the configuration. Resolved options resolve to themselves. |
| Retry.ParseRetryAfterMs | src/http/requestExecutor.ts:225-249 | Digits give seconds as ms, when positive. Otherwise the trimmed header goes to the date branch: the result is the date delta exactly when that is a positive number. Absent or empty gives none. Results are positive. |
| Retry.BlankRetryAfter | src/http/requestExecutor.ts:230-242 | A whitespace-only header trims to the empty string and reaches the date branch, so it gives none (`Date.parse("")` is `NaN`). |
| Retry.RetryAfterSeconds | src/http/requestExecutor.ts:225-249 | `Retry-After: n` asks for `n * 1000` ms, or nothing for 0. |
| Retry.RetryDelayBounds | src/http/requestExecutor.ts:202-223 | The delay is within [0, maxDelay]. It is the `Retry-After` value capped when respected and present. Otherwise it is base·2^i capped: exactly that without jitter, else within ±ratio of it. |
| Retry.DelayAfterBounds | src/http/requestExecutor.ts:207-223 | Once the honoured `Retry-After` and the capped back-off are known, the same bounds hold for any capped value in [0, maxDelay]. |
| Retry.CappedBackoffBounds | src/http/requestExecutor.ts:214-215 | The capped back-off `min(base·2^i, maxDelay)` lies in [1, maxDelay]. |
| Retry.DelayPolicyBounded | src/http/requestExecutor.ts:107-147 | Whatever the responses and `Math.random` values (in [0, 1)), no delay the loop computes exceeds maxDelay. |
| Retry.JitterBounds | src/http/requestExecutor.ts:212-219 | Jitter keeps the delay within ±ratio of the capped delay, and non-negative. |
| Retry.SendWithRetries | src/http/requestExecutor.ts:107-147 | The attempt loop computes the specified retry run, including its waits. |
| Retry.RetryRunBounds | src/http/requestExecutor.ts:107-147 | At least one and at most `maxRetries + 1` attempts are made. There are fewer waits than attempts, and each wait lies in (0, maxDelay]. |
| Retry.RetryRunOutcome | src/http/requestExecutor.ts:107-147 | Every attempt but the last got 429. The last failed in transport, was not 429, or exhausted the retries. |
| Retry.NoRetriesSingleAttempt | src/http/requestExecutor.ts:105-147 | With 0 retries there is exactly one attempt and no wait. |
| Retry.TransportError | src/http/requestExecutor.ts:118-130 | A transport failure becomes a `REQUEST_ERROR`. |
| RequestUrl.Flatten | src/http/requestExecutor.ts:321-324 | The loop lists each field's name and `String(value)`, alternately. |
| RequestUrl.FlatPairs | src/http/requestExecutor.ts:372-375 | The `flat` list of `expandPath` alternates each field's name and `String(value)`, two items per field. |
| RequestUrl.PlaceholderEnd | src/http/requestExecutor.ts:361 | `\{([^}]+)\}` matches at the start iff `{` is followed by a non-empty name and a closing `}`, where the match ends. |
| RequestUrl.ExpandPathFails | src/http/requestExecutor.ts:360-381 | Expansion fails iff some placeholder has no value, with the `REQUEST_ERROR` for the first missing one. |
| RequestUrl.ExpandPathLiteral | src/http/requestExecutor.ts:360-381 | A template without `{` is unchanged. |
| RequestUrl.ExpandPathAfterLiteral | src/http/requestExecutor.ts:360-381 | Literal text is copied in front of the expansion of the rest. |
| RequestUrl.ExpandPathPlaceholder | src/http/requestExecutor.ts:366-379 | A leading `{name}` becomes the encoded value: items comma-joined for arrays, name/value pairs for objects. |
| RequestUrl.JoinBaseAndPath | src/http/requestExecutor.ts:446-450 | The URL is the base without trailing slashes, then `/`, then the path without its leading `/`. |
| RequestUrl.JoinBaseAndPathNormalizes | src/http/requestExecutor.ts:446-450 | An extra trailing slash on the base, or a leading slash on the path, makes no difference. |
| RequestUrl.SearchParams.Append | src/http/requestExecutor.ts:255-330 | `append` adds one entry at the end. |
| RequestUrl.SearchParams.Set | src/http/requestExecutor.ts:83 | `set` replaces the entries of that name. |
| RequestUrl.SetParamEffect | src/http/requestExecutor.ts:83 | After `set` the name has exactly the one value, and all other entries are unchanged and in order. |
| RequestUrl.SerializeQueryValue | src/http/requestExecutor.ts:285-330 | The method appends exactly the entries of the value's style. |
| RequestUrl.AppendDeepObject | src/http/requestExecutor.ts:292-298 | The deepObject loop appends `key[nk]` entries for the non-null fields, in order. |
| RequestUrl.AppendExplodedItems | src/http/requestExecutor.ts:302-306 | The exploded array loop appends one `key` entry per item, in order. |
| RequestUrl.AppendExplodedFields | src/http/requestExecutor.ts:315-320 | The exploded object loop appends one entry per field, under the field's own name, in order. |
| RequestUrl.QueryValueShape | src/http/requestExecutor.ts:285-330 | Entries carry the parameter's name, except deepObject ones, which are `key[field]` for a field of the object. |
| RequestUrl.DeepObjectPairsFrom | src/http/requestExecutor.ts:292-298 | Every deepObject entry names a non-null field of the object. |
| RequestUrl.DeepObjectPairsAll | src/http/requestExecutor.ts:292-298 | Without null fields, each field gives one entry, in order. |
| RequestUrl.DeclaredQueryParams | src/http/requestExecutor.ts:260-268 | The loop builds the map of declared query parameters. |
| RequestUrl.QueryParamsByNameLast | src/http/requestExecutor.ts:260-268 | A name is in the map iff a query parameter declares it. The map holds the last such declaration (operation over path item). |
| RequestUrl.AppendQueryParams | src/http/requestExecutor.ts:255-283 | The entries of the whole query object are appended, in key order. |
| RequestUrl.QueryPairsConcat | src/http/requestExecutor.ts:270-282 | The entries of two query objects are the concatenation of each one's entries. |
| RequestUrl.QueryPairsSkipsNull | src/http/requestExecutor.ts:272-274 | `null` query values add nothing. |
| RequestHeaders.HasHeader | src/http/requestExecutor.ts:452-454 | True iff some key equals the name, ignoring case. |
| RequestHeaders.HasHeaderAfterSet | src/http/requestExecutor.ts:72-74 | After setting a header it is present under any spelling. Other presence is unchanged. |
| RequestHeaders.RedactHeaders | src/http/requestExecutor.ts:456-467 | The copy loop computes the redacted headers. |
| RequestHeaders.RedactedGet | src/http/requestExecutor.ts:456-467 | Redacting keeps the keys. Secret names read `<redacted>`, and every other header keeps its value. |
| RequestHeaders.RedactedIdempotent | src/http/requestExecutor.ts:456-467 | Redacting twice changes nothing more. |
| RequestHeaders.PrepareRequestBody | src/http/requestExecutor.ts:332-358 | No body for absent or `null`. Otherwise:<br>- bytes go as they are, typed `application/octet-stream`;<br>- a string goes as it is, typed `text/plain`;<br>- other JSON goes stringified, typed `application/json`.<br>An override wins. |
| RequestHeaders.ApplyAuth | src/http/requestExecutor.ts:78-91 | The loop places each credential. |
| RequestHeaders.ApplySchemesLastWins | src/http/requestExecutor.ts:78-91 | Each header and cookie reads as the last scheme writing it left it, else as before. |
| RequestHeaders.ApplyQueryKey | src/http/requestExecutor.ts:82-83 | A query API key becomes the only value of its name. Other entries are unchanged. |
| RequestHeaders.BasicSendsBearerUndefined | src/http/requestExecutor.ts:89-90 | An HTTP basic scheme sends `authorization: Bearer undefined`. |
| RequestHeaders.CookieHeaderAppend | src/http/requestExecutor.ts:93-97 | Cookies are written `name=value` with encoded parts, in order, joined by `; `. |
| RequestHeaders.MergePrecedence | src/http/requestExecutor.ts:66-70 | Call headers win over `_HEADERS`, which wins over configuration headers. |
| RequestExecutor.ApplySchemesUnique | src/http/requestExecutor.ts:78-91 | Credentials never repeat a header or cookie name. |
| RequestExecutor.BuiltHeaders | src/http/requestExecutor.ts:66-102 | Header names are unique. `content-type` is present, under any spelling, iff it already was or the body inferred one. |
| RequestExecutor.BuildRequestErrors | src/http/requestExecutor.ts:63-70 | Building fails, in this order: with the `REQUEST_ERROR` for the first missing path parameter; with the "Invalid URL" `REQUEST_ERROR` when `new URL` cannot parse the joined base and path (a relative server URL, say); or with the `CONFIG_ERROR` of a bad `_HEADERS` variable. Otherwise the request goes to the joined URL. |
| RequestExecutor.SendOutcomes | src/http/requestExecutor.ts:105-173 | Sending fails only with `REQUEST_ERROR`. A success reports `authUsed` and 1 to `maxRetries + 1` attempts. It carries the last attempt's status. There are fewer waits than attempts, each in (0, maxDelay], and every secret header value is `<redacted>`. |
| RequestExecutor.ExecuteOutcomes | src/http/requestExecutor.ts:51-174 | Every error is `AUTH_ERROR`, `CONFIG_ERROR` or `REQUEST_ERROR`. A success reports the `authUsed` of credential resolution. The new token cache is the one resolution leaves. |
| RequestExecutor.ExecuteEndpointRequest | src/http/requestExecutor.ts:51-174 | The method's result and new token cache are those of the execution function. |
| RequestExecutor.PrepareRequest | src/http/requestExecutor.ts:63-104 | The request-building steps, the URL parse included, compute the specified request, or its first error. |
| RequestExecutor.FinishRequest | src/http/requestExecutor.ts:72-104 | Once the URL and `_HEADERS` are known, the body, headers and timeout are those of the specified request. |
| RequestExecutor.AssembleHeaders | src/http/requestExecutor.ts:66-102 | Header, cookie and query updates match the placement function. |
| ResponseBody.DecodeResponseBody | src/http/requestExecutor.ts:383-430 | 204 and 205 give no body. JSON is given only when the content type mentions json and the text parses. Text is the decoded bytes. Binary is non-empty bytes. |
| ResponseBody.DecodeResponseBodyCases | src/http/requestExecutor.ts:383-430 | The exact condition of each body shape: the json, text-pattern and empty-body rules. |
| Sorting.SortBySorted | src/openapi/endpointIndex.ts:93-98 | The sort gives an ordered permutation of its input. |
| Sorting.SortByPermutationInvariant | src/openapi/endpointIndex.ts:93-98 | Permutations of one list sort alike under an antisymmetric order. |
| Sorting.SortStringsCanonical | src/auth/resolveAuth.ts:132 | `scopes.sort()` is ordered and independent of the input order. |
| LoadSpec.VersionMajorMatches | src/openapi/loadSpec.ts:14-31 | The version matches the format regex iff a split exists, and the major number is its leading digits. |
| LoadSpec.SupportedVersions | src/openapi/loadSpec.ts:14-31 | The check passes iff the format matches and the major is at least 3. Otherwise it is a `SCHEMA_ERROR` with the format or major message. |
| LoadSpec.BaseUrlPrecedence | src/openapi/loadSpec.ts:33-55 | `<API>_BASE_URL` wins, then the configuration, then the first server URL. An empty chosen value, or none at all, is the `CONFIG_ERROR` with the resolution order. A resolved URL is never empty. |
| LoadSpec.LoadDocumentOk | src/openapi/loadSpec.ts:118-141 | Loading succeeds iff `openapi` is present and supported, the index builds and a base URL resolves. The result holds the configuration, the document, the index and the base URL. |
| LoadSpec.LoadDocumentErrors | src/openapi/loadSpec.ts:118-128 | Loading errors are `SCHEMA_ERROR` or `CONFIG_ERROR`. |
| LoadSpec.LoadSingleApi | src/openapi/loadSpec.ts:57-142 | The method computes the loader function, index loop included. |
| LoadSpec.LoadApiRegistry | src/openapi/loadSpec.ts:144-156 | The loop builds the registry fold. |
| LoadSpec.RegistryKeys | src/openapi/loadSpec.ts:150-153 | The registry's keys are exactly the lower-cased configured names. |
| LoadSpec.RegistryLastWins | src/openapi/loadSpec.ts:150-153 | A lower-cased name maps to the API of the last configuration with that name. |
| LoadSpec.RegistryEntryConfig | src/openapi/loadSpec.ts:133-141 | Every registry entry keeps its own configuration. |
| LoadSpec.RegistryFailure | src/openapi/loadSpec.ts:144-156 | The registry loads iff every API loads. Otherwise the error is that of the first failing one. |
| LoadSpec.RegistryErrorPersists | src/openapi/loadSpec.ts:150-153 | A failure ends the fold, and later APIs do not change it. |
| ToolCommon.RequireApiIgnoresCase | src/mcp/tools/common.ts:38-44 | Lookup is by lower-cased name, so case does not matter. |
| ToolCommon.RequireApiAfterLoad | src/mcp/tools/common.ts:38-44 | On a loaded registry a name is found iff some configured name matches it ignoring case. Otherwise the result is the `API_NOT_FOUND` "Unknown API". |
| ToolCommon.ToStringMap | src/mcp/tools/common.ts:65-80 | Absent gives `{}`. Otherwise the loop's result is the string map. |
| ToolCommon.StringMapGet | src/mcp/tools/common.ts:72-79 | Every key reads as `String(value)`. `null` values are skipped. |
| ToolCommon.StringMapKeys | src/mcp/tools/common.ts:72-79 | The keys are exactly those with non-null values. |
| ListEndpoints.PageSize | src/mcp/tools/listApiEndpoints.ts:29 | `min(limit ?? 50, 200)`. |
| ListEndpoints.CursorOffsetCases | src/mcp/tools/listApiEndpoints.ts:30-33 | No or blank cursor, a non-number or a negative gives 0. `String(n)` gives `n`. |
| ListEndpoints.FilteredMembers | src/mcp/tools/listApiEndpoints.ts:35-72 | An endpoint is listed iff it passes the method, tag, path and search filters. Order is kept. |
| ListEndpoints.FilteredAppend | src/mcp/tools/listApiEndpoints.ts:35-72 | Filtering distributes over concatenation. |
| ListEndpoints.NoFiltersKeepAll | src/mcp/tools/listApiEndpoints.ts:35-72 | Without filters every endpoint is listed. |
| ListEndpoints.SomeTermMatchesIff | src/mcp/tools/listApiEndpoints.ts:48-69 | Search passes iff some term occurs in some of the id, method, path, summary, description, operationId or tags. |
| ListEndpoints.BlankTermMatchesAll | src/mcp/tools/listApiEndpoints.ts:28 | A blank search matches every endpoint. |
| ListEndpoints.PageShape | src/mcp/tools/listApiEndpoints.ts:74-88 | The page is the summaries from the offset, at most page size, and exactly that when enough remain. `nextCursor` is present iff more remain, as the next offset. |
| ListEndpoints.NextPageContinues | src/mcp/tools/listApiEndpoints.ts:74-76 | Following `nextCursor` gives the page right after. |
| ListEndpoints.ListApiEndpointsCases | src/mcp/tools/listApiEndpoints.ts:18-92 | An unknown API gives `API_NOT_FOUND`. Otherwise the result is the page of the filtered endpoints. |

## Left out

- Parsing of the OpenAPI source is not modelled: file or URL loading, YAML/JSON parsing, `swagger2openapi` conversion, `$ref` dereferencing and the "Invalid OpenAPI document" check. In `LoadSpec.LoadSingle` these are a `dereference` function parameter. `schemaPath` handling is not part of this model.
- `new URL(...)` normalisation and `url.toString()` are not modelled. Whether the joined request URL parses is the `parsesUrl` function of `RequestExecutor.Foreign`; when it does not, the call ends with the "Invalid URL" `REQUEST_ERROR`. A parsed URL is the joined base and path plus the query entries; any query already in the base URL is not modelled.
- `fetch`, `AbortController`, the timeout timer and the `setTimeout` sleep are oracles. A per-attempt transport function gives a response or an error. Waits are recorded, not taken.
- `Date.now()` and `timingMs` are not modelled. The clock is a `now` argument, and the token exchange reports its own reading.
- `Retry.ParseRetryAfterMs`: `Date.parse` of an HTTP date is a `dateDelta` function parameter. That `Date.parse("")` is `NaN` is a precondition of `Retry.BlankRetryAfter`, not a property of the parameter.
- `Retry.RetryDelayBounds`: JavaScript doubles are modelled as exact reals. Rounding, `NaN` and `Infinity` from non-finite configuration are not modelled.
- Numbers are unbounded. `parseInt` results beyond 2^53 and JSON numbers are integers, so fractional JSON numbers are not modelled.
- `JsonValue`: `undefined` and `null` in objects are the one value `JNull`.
- `JsonPointer.Step`: `token in object` also finds inherited keys such as `constructor`; the model looks only at the object's own keys.
- `Auth.StepFor` and `RequestUrl.PathParam`: `securitySchemes[schemeName]` and `pathParams?.[group]` also find inherited keys such as `constructor`. The source then reports "Unsupported security scheme type 'undefined'", or expands the placeholder with `String` of a function. The model looks only at own keys, so it reports the scheme as not found, or the path parameter as missing.
- `EndpointIndex.EndpointLeTotalPreorder`: `localeCompare` is modelled as ordinal order of code points. ICU collation is not modelled.
- `Sorting.SortStringsCanonical`: `scopes.sort()` compares UTF-16 code units, while the model compares code points. The two orders differ only between characters outside the Basic Multilingual Plane and characters from U+E000 to U+FFFF.
- `Auth.OAuthStep`: `scopes.sort()` sorts in place the array `resolveScopes` returns. When that array is the configuration's `oauth2.scopes` or the document's requirement scope list, the source also reorders that shared array. The model sorts a copy and leaves the configuration and the document unchanged.
- `Records.SetKeys`: records keep insertion order. JavaScript lists integer-like keys ("0", "200") first, in ascending numeric order, before the others. The model does not reproduce that, so for such keys it differs from the source in these outputs: the order of the merged headers (spread of configuration, `_HEADERS` and call headers), the cookie header string, the query entries appended by `RequestUrl.AppendQueryParams`, and the redacted header echo.
- `JsString.Upper` and `JsString.Lower` map ASCII letters only. Other characters pass unchanged.
- `Env.ReadHttpAuthCredentials`: `readHttpAuthCredentials` is imported by `src/auth/resolveAuth.ts` but is not part of this model. It is modelled from the variables `resolveAuth` reports missing (`_TOKEN`, `_USERNAME`, `_PASSWORD`).
- `RequestHeaders.BasicSendsBearerUndefined` describes the code as written. HTTP basic credentials are sent as `Bearer undefined`, because `requestExecutor.ts` has no base64 encoding step.
- `ListEndpoints.ListApiEndpoints` requires `limit >= 1`. The input schema rejects other limits before the handler runs.
- Input validation with zod, the MCP `ok`/`fail` wrappers and the `JSON.stringify` of tool output are not modelled.
- The library calls `encodeURIComponent`, `JSON.parse`, `JSON.stringify`, the UTF-8 decoder and `Math.random` are function parameters, so their own behaviour is not modelled.
- The `oauth4webapi` grant request and response processing are the `exchange` function of `OAuth.Grant`. It reports a token response, a response-body error, a processing error or another error.
- `OAuth.TokenStep`: WHATWG URL parsing of the token URL is the `originOf` function of `OAuth.Grant`. It gives the origin, or nothing where `new URL` throws. The thrown `TypeError` is modelled by its payload (`REQUEST_ERROR`, message "Invalid URL", no details), not as a separate thrown value.
- Concurrency between simultaneous tool calls is not modelled. Each call runs on the token cache in sequence.
