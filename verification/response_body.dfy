/** A response as the executor receives it, and the classification of its
    body (`decodeResponseBody` in src/http/requestExecutor.ts). Decoding the
    bytes as UTF-8 text and `JSON.parse` are parameters. */
module ResponseBody {
  import opened Wrappers
  import opened JsString
  import opened JsonValue
  import opened Records

  /** Status, headers (names in lower case, as `Headers` reports them) and
      the raw body. */
  datatype HttpResponse = HttpResponse(status: int, headers: Record<string>, body: seq<bv8>)

  /** The four body shapes of a tool result. A binary body is kept as its
      bytes; the result carries them base64-encoded. */
  datatype DecodedBody =
    | EmptyBody
    | JsonBody(json: Json)
    | TextBody(text: string)
    | BinaryBody(bytes: seq<bv8>)

  function ContentTypeOf(r: HttpResponse): string {
    Records.Get(r.headers, "content-type").GetOr("")
  }

  /** `contentType.toLowerCase().includes("json")`. */
  predicate MentionsJson(contentType: string) {
    Contains(Lower(contentType), "json")
  }

  /** The text patterns, each matched case-insensitively at the start, or a
      `charset=` anywhere. */
  predicate TextLike(contentType: string) {
    var lower := Lower(contentType);
    || IsPrefix("text/", lower)
    || IsPrefix("application/xml", lower)
    || IsPrefix("application/x-www-form-urlencoded", lower)
    || IsPrefix("application/graphql", lower)
    || Contains(lower, "charset=")
  }

  /** `decodeResponseBody`: no body for 204 and 205; a JSON content type
      parses the text (empty text is no body, unparsable text stays text);
      a textual content type gives the text; anything else is binary unless
      there are no bytes. */
  function DecodeResponseBody(r: HttpResponse, decodeText: seq<bv8> -> string,
                              parseJson: string -> Option<Json>): (d: DecodedBody)
    ensures r.status == 204 || r.status == 205 ==> d.EmptyBody?
    ensures d.JsonBody? ==> MentionsJson(ContentTypeOf(r)) && parseJson(decodeText(r.body)) == Some(d.json)
    ensures d.TextBody? ==> d.text == decodeText(r.body)
    ensures d.BinaryBody? ==> d.bytes == r.body && r.body != []
  {
    if r.status == 204 || r.status == 205 then EmptyBody
    else
      var contentType := ContentTypeOf(r);
      if MentionsJson(contentType) then
        var text := decodeText(r.body);
        if text == "" then EmptyBody
        else
          match parseJson(text)
          case Some(v) => JsonBody(v)
          case None => TextBody(text)
      else if TextLike(contentType) then TextBody(decodeText(r.body))
      else if |r.body| == 0 then EmptyBody
      else BinaryBody(r.body)
  }

  /** When each body shape is produced, outside the two no-content
      statuses. */
  lemma DecodeResponseBodyCases(r: HttpResponse, decodeText: seq<bv8> -> string, parseJson: string -> Option<Json>)
    requires r.status != 204 && r.status != 205
    ensures var d := DecodeResponseBody(r, decodeText, parseJson);
      var ct := ContentTypeOf(r);
      var text := decodeText(r.body);
      && (d.EmptyBody? <==> (MentionsJson(ct) && text == "") || (!MentionsJson(ct) && !TextLike(ct) && r.body == []))
      && (d.JsonBody? <==> MentionsJson(ct) && text != "" && parseJson(text).Some?)
      && (d.TextBody? <==>
            (MentionsJson(ct) && text != "" && parseJson(text).None?) || (!MentionsJson(ct) && TextLike(ct)))
      && (d.BinaryBody? <==> !MentionsJson(ct) && !TextLike(ct) && r.body != [])
  {
  }
}
