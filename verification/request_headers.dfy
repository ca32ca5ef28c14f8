/** Headers and body of an outgoing request (src/http/requestExecutor.ts):
    the header merge, where each resolved credential goes, the cookie
    header, body preparation, `hasHeader` and `redactHeaders`. */
module RequestHeaders {
  import opened Wrappers
  import opened JsString
  import opened JsonValue
  import opened Records
  import opened OpenApi
  import opened RequestUrl
  import Auth

  // ----- `hasHeader` -----

  /** `hasHeader`: some key equals `name` ignoring case. */
  function HasHeader(headers: Record<string>, name: string): (b: bool)
    ensures b <==> exists i :: 0 <= i < |headers| && Lower(headers[i].0) == Lower(name)
  {
    if headers == [] then false
    else
      assert forall i :: 1 <= i < |headers| ==> headers[i] == headers[1..][i - 1];
      Lower(headers[0].0) == Lower(name) || HasHeader(headers[1..], name)
  }

  /** Assigning a header makes it present under any spelling of its name
      that differs only in case, and keeps every other answer. */
  lemma {:induction false} HasHeaderAfterSet(headers: Record<string>, key: string, value: string, name: string)
    ensures HasHeader(Set(headers, key, value), name) <==> HasHeader(headers, name) || Lower(key) == Lower(name)
  {
    var h' := Set(headers, key, value);
    if headers == [] {
      assert h' == [(key, value)];
      assert h'[1..] == [];
    } else if headers[0].0 == key {
      assert h'[0] == (key, value) && h'[1..] == headers[1..];
    } else {
      assert h'[0] == headers[0] && h'[1..] == Set(headers[1..], key, value);
      HasHeaderAfterSet(headers[1..], key, value, name);
    }
  }

  // ----- `redactHeaders` -----

  /** Header names whose values are secrets: `authorization`, `cookie`,
      and any name containing `api-key`, all compared in lower case. */
  predicate IsSensitiveHeader(key: string) {
    var lower := Lower(key);
    lower == "authorization" || Contains(lower, "api-key") || lower == "cookie"
  }

  const RedactedValue := "<redacted>"

  /** The headers with every secret value replaced, in their own order. */
  function Redacted(headers: Record<string>): (r: Record<string>)
    ensures |r| == |headers|
    ensures forall i :: 0 <= i < |r| ==> r[i].0 == headers[i].0
  {
    seq(|headers|, i requires 0 <= i < |headers| =>
      (headers[i].0, if IsSensitiveHeader(headers[i].0) then RedactedValue else headers[i].1))
  }

  /** The same keys; a secret name reads as `<redacted>` and every other
      name reads as before. */
  lemma {:induction false} RedactedGet(headers: Record<string>, k: string)
    ensures Keys(Redacted(headers)) == Keys(headers)
    ensures Records.Get(Redacted(headers), k)
         == if k in Keys(headers) && IsSensitiveHeader(k) then Some(RedactedValue) else Records.Get(headers, k)
  {
    var r := Redacted(headers);
    if headers != [] {
      assert Keys(r) == [r[0].0] + Keys(r[1..]);
      assert Keys(headers) == [headers[0].0] + Keys(headers[1..]);
      assert r[1..] == Redacted(headers[1..]);
      RedactedGet(headers[1..], k);
    }
  }

  /** Redacting twice changes nothing more. */
  lemma RedactedIdempotent(headers: Record<string>)
    ensures Redacted(Redacted(headers)) == Redacted(headers)
  {
  }

  /** `redactHeaders`: the entries copied one by one into a fresh object. */
  method RedactHeaders(headers: Record<string>) returns (result: Record<string>)
    requires UniqueKeys(headers)
    ensures result == Redacted(headers)
  {
    result := [];
    var i := 0;
    while i < |headers|
      invariant 0 <= i <= |headers|
      invariant result == Redacted(headers[..i])
    {
      var (key, value) := headers[i];
      assert Keys(result) == Keys(headers[..i]);
      assert key !in Keys(result);
      var v := if IsSensitiveHeader(key) then RedactedValue else value;
      SetNewKey(result, key, v);
      result := Set(result, key, v);
      assert result == Redacted(headers[..i + 1]);
      i := i + 1;
    }
    assert headers[..i] == headers;
  }

  // ----- `prepareRequestBody` -----

  /** The tool's `body` argument: absent, a JSON value, or raw bytes. */
  datatype RawBody = NoBody | JsonInput(value: Json) | BytesInput(bytes: seq<bv8>)

  /** What `fetch` is given. */
  datatype Payload = TextPayload(text: string) | BytesPayload(bytes: seq<bv8>)

  datatype PreparedBody = PreparedBody(body: Option<Payload>, inferredContentType: Option<string>)

  /** `prepareRequestBody`; `stringify` is `JSON.stringify`. */
  function PrepareRequestBody(raw: RawBody, contentTypeOverride: Option<string>, stringify: Json -> string): (p: PreparedBody)
    ensures p.body.None? <==> raw.NoBody? || raw == JsonInput(JNull)
    ensures p.body.None? ==> p.inferredContentType.None?
    ensures p.body.Some? && contentTypeOverride.Some? ==> p.inferredContentType == contentTypeOverride
    ensures raw.BytesInput? ==>
      && p.body == Some(BytesPayload(raw.bytes))
      && (contentTypeOverride.None? ==> p.inferredContentType == Some("application/octet-stream"))
    ensures raw.JsonInput? && raw.value.JString? ==>
      && p.body == Some(TextPayload(raw.value.s))
      && (contentTypeOverride.None? ==> p.inferredContentType == Some("text/plain"))
    ensures raw.JsonInput? && !raw.value.JString? && !raw.value.JNull? ==>
      && p.body == Some(TextPayload(stringify(raw.value)))
      && (contentTypeOverride.None? ==> p.inferredContentType == Some("application/json"))
  {
    match raw
    case NoBody => PreparedBody(None, None)
    case BytesInput(bytes) => PreparedBody(Some(BytesPayload(bytes)), Some(contentTypeOverride.GetOr("application/octet-stream")))
    case JsonInput(v) =>
      if v.JNull? then PreparedBody(None, None)
      else if v.JString? then PreparedBody(Some(TextPayload(v.s)), Some(contentTypeOverride.GetOr("text/plain")))
      else PreparedBody(Some(TextPayload(stringify(v))), Some(contentTypeOverride.GetOr("application/json")))
  }

  // ----- Credentials -----

  /** `Bearer ${scheme.token}` for every scheme that is not an API key; a
      basic scheme carries no token, which prints as `undefined`. */
  function AuthorizationValue(s: Auth.ResolvedScheme): string
    requires !s.ApiKeyAuth?
  {
    "Bearer " + if s.BasicAuth? then "undefined" else s.token
  }

  /** The three places a credential can go. */
  datatype Outgoing = Outgoing(headers: Record<string>, cookies: Record<string>, query: seq<(string, string)>)

  /** One pass of the credential loop. */
  function ApplyScheme(o: Outgoing, s: Auth.ResolvedScheme): Outgoing {
    match s
    case ApiKeyAuth(_, location, name, value) =>
      (match location
       case InHeader => o.(headers := Set(o.headers, name, value))
       case InQuery => o.(query := SetParam(o.query, name, value))
       case InCookie => o.(cookies := Set(o.cookies, name, value)))
    case _ => o.(headers := Set(o.headers, "authorization", AuthorizationValue(s)))
  }

  /** The credential loop over the chosen schemes, in order. */
  function ApplySchemes(o: Outgoing, ss: seq<Auth.ResolvedScheme>): Outgoing {
    if ss == [] then o else ApplyScheme(ApplySchemes(o, ss[..|ss| - 1]), ss[|ss| - 1])
  }

  /** The header a scheme writes, if it writes one. */
  function HeaderWrite(s: Auth.ResolvedScheme): Option<(string, string)> {
    match s
    case ApiKeyAuth(_, location, name, value) => if location == InHeader then Some((name, value)) else None
    case _ => Some(("authorization", AuthorizationValue(s)))
  }

  /** The cookie a scheme writes, if it writes one. */
  function CookieWrite(s: Auth.ResolvedScheme): Option<(string, string)> {
    if s.ApiKeyAuth? && s.location == InCookie then Some((s.name, s.value)) else None
  }

  /** The value the last scheme writing `k` writes. */
  function LastWrite(ss: seq<Auth.ResolvedScheme>, write: Auth.ResolvedScheme -> Option<(string, string)>, k: string): Option<string> {
    if ss == [] then None
    else
      var w := write(ss[|ss| - 1]);
      if w.Some? && w.value.0 == k then Some(w.value.1) else LastWrite(ss[..|ss| - 1], write, k)
  }

  /** One credential: the header and the cookie it writes read as written,
      and every other name reads as before. */
  lemma ApplySchemeGet(p: Outgoing, s: Auth.ResolvedScheme, k: string)
    ensures var h := HeaderWrite(s);
      Records.Get(ApplyScheme(p, s).headers, k)
      == if h.Some? && h.value.0 == k then Some(h.value.1) else Records.Get(p.headers, k)
    ensures var c := CookieWrite(s);
      Records.Get(ApplyScheme(p, s).cookies, k)
      == if c.Some? && c.value.0 == k then Some(c.value.1) else Records.Get(p.cookies, k)
  {
    if !s.ApiKeyAuth? {
      SetGet(p.headers, "authorization", AuthorizationValue(s), k);
    } else if s.location == InHeader {
      SetGet(p.headers, s.name, s.value, k);
    } else if s.location == InCookie {
      SetGet(p.cookies, s.name, s.value, k);
    }
  }

  /** After the loop a header reads as the last scheme that wrote it left
      it, or as before when none did; the same for cookies. */
  lemma {:induction false} ApplySchemesLastWins(o: Outgoing, ss: seq<Auth.ResolvedScheme>, k: string)
    ensures Records.Get(ApplySchemes(o, ss).headers, k)
         == if LastWrite(ss, HeaderWrite, k).Some? then LastWrite(ss, HeaderWrite, k) else Records.Get(o.headers, k)
    ensures Records.Get(ApplySchemes(o, ss).cookies, k)
         == if LastWrite(ss, CookieWrite, k).Some? then LastWrite(ss, CookieWrite, k) else Records.Get(o.cookies, k)
  {
    if ss != [] {
      var init := ss[..|ss| - 1];
      ApplySchemesLastWins(o, init, k);
      ApplySchemeGet(ApplySchemes(o, init), ss[|ss| - 1], k);
    }
  }

  /** A query API key ends up as the only value of its name, and the other
      query entries stay as they were. */
  lemma ApplyQueryKey(o: Outgoing, schemeName: string, name: string, value: string)
    ensures var q := ApplySchemes(o, [Auth.ApiKeyAuth(schemeName, InQuery, name, value)]).query;
      ValuesOf(q, name) == [value] && Others(q, name) == Others(o.query, name)
  {
    assert [Auth.ApiKeyAuth(schemeName, InQuery, name, value)][..0] == [];
    SetParamEffect(o.query, name, value, false);
  }

  /** An HTTP basic scheme is sent as the literal `Bearer undefined`. */
  lemma BasicSendsBearerUndefined(o: Outgoing, schemeName: string, username: string, password: string)
    ensures Records.Get(ApplySchemes(o, [Auth.BasicAuth(schemeName, username, password)]).headers, "authorization")
         == Some("Bearer undefined")
  {
    var s := Auth.BasicAuth(schemeName, username, password);
    assert [s][..0] == [];
    assert AuthorizationValue(s) == "Bearer " + "undefined" == "Bearer undefined";
    SetGet(o.headers, "authorization", AuthorizationValue(s), "authorization");
  }

  /** The credential loop of `executeEndpointRequest` (lines 78-91):
      header and cookie objects are assigned, query keys `set` on the
      URL. */
  method ApplyAuth(headers: Record<string>, cookies: Record<string>, sp: SearchParams, schemes: seq<Auth.ResolvedScheme>)
    returns (headers': Record<string>, cookies': Record<string>)
    modifies sp
    ensures Outgoing(headers', cookies', sp.entries) == ApplySchemes(Outgoing(headers, cookies, old(sp.entries)), schemes)
  {
    headers', cookies' := headers, cookies;
    var i := 0;
    while i < |schemes|
      invariant 0 <= i <= |schemes|
      invariant Outgoing(headers', cookies', sp.entries) == ApplySchemes(Outgoing(headers, cookies, old(sp.entries)), schemes[..i])
    {
      assert schemes[..i + 1][..i] == schemes[..i];
      var s := schemes[i];
      if s.ApiKeyAuth? {
        if s.location == InHeader {
          headers' := Set(headers', s.name, s.value);
        } else if s.location == InQuery {
          sp.Set(s.name, s.value);
        } else {
          cookies' := Set(cookies', s.name, s.value);
        }
      } else {
        headers' := Set(headers', "authorization", AuthorizationValue(s));
      }
      i := i + 1;
    }
    assert schemes[..i] == schemes;
  }

  // ----- The cookie header -----

  function CookiePair(cookie: (string, string), encode: Encoder): string {
    encode(cookie.0) + "=" + encode(cookie.1)
  }

  function CookiePairs(cookies: Record<string>, encode: Encoder): (ps: seq<string>)
    ensures |ps| == |cookies| && forall i :: 0 <= i < |cookies| ==> ps[i] == CookiePair(cookies[i], encode)
  {
    seq(|cookies|, i requires 0 <= i < |cookies| => CookiePair(cookies[i], encode))
  }

  /** `encodeURIComponent(key)=encodeURIComponent(value)` for each cookie,
      joined by `; `. */
  function CookieHeader(cookies: Record<string>, encode: Encoder): string {
    Join(CookiePairs(cookies, encode), "; ")
  }

  /** Cookies are written in their order, one `name=value` pair each, with
      `; ` between pairs (the cookie-string of section 5.4 of RFC 6265). */
  lemma CookieHeaderAppend(c1: Record<string>, c2: Record<string>, encode: Encoder)
    requires c1 != [] && c2 != []
    ensures CookieHeader(c1 + c2, encode) == CookieHeader(c1, encode) + "; " + CookieHeader(c2, encode)
    ensures CookieHeader(c2[..1], encode) == encode(c2[0].0) + "=" + encode(c2[0].1)
  {
    assert CookiePairs(c1 + c2, encode) == CookiePairs(c1, encode) + CookiePairs(c2, encode);
    JoinAppend(CookiePairs(c1, encode), CookiePairs(c2, encode), "; ");
  }

  // ----- The merge -----

  /** `{...config.headers, ...extra, ...input.headers}`. */
  function MergeHeaders(configHeaders: Record<string>, extra: Record<string>, inputHeaders: Record<string>): (h: Record<string>)
    ensures UniqueKeys(h)
  {
    Assign(Assign(Assign([], configHeaders), extra), inputHeaders)
  }

  /** A header the call gives wins over the `_HEADERS` variable, which wins
      over the configuration. */
  lemma MergePrecedence(configHeaders: Record<string>, extra: Record<string>, inputHeaders: Record<string>, k: string)
    requires UniqueKeys(configHeaders) && UniqueKeys(extra) && UniqueKeys(inputHeaders)
    ensures Records.Get(MergeHeaders(configHeaders, extra, inputHeaders), k)
         == if k in Keys(inputHeaders) then Records.Get(inputHeaders, k)
            else if k in Keys(extra) then Records.Get(extra, k)
            else Records.Get(configHeaders, k)
  {
    AssignGet(Assign(Assign([], configHeaders), extra), inputHeaders, k);
    AssignGet(Assign([], configHeaders), extra, k);
    AssignGet([], configHeaders, k);
  }
}
