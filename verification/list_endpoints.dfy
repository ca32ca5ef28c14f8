/** The `list_api_endpoints` tool (src/mcp/tools/listApiEndpoints.ts): a
    conjunction of optional filters, a case-insensitive search that succeeds
    when any term occurs in any field, and offset paging with a decimal
    cursor. */
module ListEndpoints {
  import opened Wrappers
  import opened JsString
  import opened Errors
  import opened OpenApi
  import LoadSpec
  import ToolCommon

  /** The tool's arguments, after schema validation. */
  datatype ListInput = ListInput(
    apiName: string,
    httpMethod: Option<string>,
    tag: Option<string>,
    pathContains: Option<string>,
    search: Option<seq<string>>,
    limit: Option<int>,
    cursor: Option<string>)

  /** The argument schema admits only a positive integer limit. */
  predicate ValidLimit(limit: Option<int>) {
    limit.Some? ==> limit.value >= 1
  }

  /** One listed endpoint. */
  datatype EndpointSummary = EndpointSummary(
    endpointId: string,
    httpMethod: string,
    path: string,
    operationId: Option<string>,
    summary: Option<string>,
    tags: seq<string>)

  datatype EndpointPage = EndpointPage(endpoints: seq<EndpointSummary>, nextCursor: Option<string>)

  const DefaultLimit := 50
  const MaxLimit := 200

  /** `Math.min(limit ?? 50, 200)`. */
  function PageSize(limit: Option<int>): (n: int)
    requires ValidLimit(limit)
    ensures 1 <= n <= MaxLimit
    ensures limit.None? ==> n == DefaultLimit
    ensures limit.Some? ==> n == if limit.value < MaxLimit then limit.value else MaxLimit
  {
    var requested := limit.GetOr(DefaultLimit);
    if requested < MaxLimit then requested else MaxLimit
  }

  /** The offset a cursor names: `parseInt` of a non-blank cursor, else 0;
      a result that is not a number (`None`) or is negative reads as 0. */
  function CursorOffset(cursor: Option<string>): nat {
    var offset := if cursor.Some? && Trim(cursor.value) != "" then ParseInt(cursor.value) else Some(0);
    if offset.Some? && offset.value >= 0 then offset.value else 0
  }

  /** A missing or blank cursor, and one that does not read as a
      non-negative number, start at 0; the decimal form of `n` starts at `n`. */
  lemma CursorOffsetCases(cursor: Option<string>, n: nat)
    ensures cursor.None? || Trim(cursor.value) == "" ==> CursorOffset(cursor) == 0
    ensures cursor.Some? && (ParseInt(cursor.value).None? || ParseInt(cursor.value).value < 0) ==> CursorOffset(cursor) == 0
    ensures CursorOffset(Some(NatToString(n))) == n
  {
    NatToStringRoundTrip(n);
    var s := NatToString(n);
    assert !IsSpace(s[0]);
    assert Trim(s) != "" by {
      assert TrimStart(s) == s;
    }
  }

  /** The method filter: absent or empty lets every endpoint through. */
  predicate MethodPasses(filter: Option<string>, e: EndpointDefinition) {
    filter.None? || Lower(filter.value) == "" || e.httpMethod.Name() == Lower(filter.value)
  }

  predicate TagPasses(tag: Option<string>, e: EndpointDefinition) {
    tag.None? || tag.value == "" || tag.value in e.tags.GetOr([])
  }

  predicate PathPasses(pathContains: Option<string>, e: EndpointDefinition) {
    pathContains.None? || pathContains.value == "" || Contains(e.path, pathContains.value)
  }

  /** The search terms, trimmed and lower-cased. */
  function SearchTerms(search: Option<seq<string>>): (terms: seq<string>)
    ensures |terms| == |search.GetOr([])|
    ensures forall k :: 0 <= k < |terms| ==> terms[k] == Lower(Trim(search.GetOr([])[k]))
  {
    var raw := search.GetOr([]);
    seq(|raw|, k requires 0 <= k < |raw| => Lower(Trim(raw[k])))
  }

  function Optional(v: Option<string>): seq<string> {
    if v.Some? then [v.value] else []
  }

  /** The lower-cased fields the search looks in. */
  function Haystack(e: EndpointDefinition): (values: seq<string>)
    ensures |values| >= 3
  {
    var fields := [e.endpointId, e.httpMethod.Name(), e.path] + Optional(e.operationId) + Optional(e.summary)
      + Optional(e.description) + e.tags.GetOr([]);
    seq(|fields|, k requires 0 <= k < |fields| => Lower(fields[k]))
  }

  /** `values.some(value => value.includes(term))`. */
  function SomeValueHas(values: seq<string>, term: string): bool {
    if values == [] then false else Contains(values[0], term) || SomeValueHas(values[1..], term)
  }

  /** `terms.some(term => values.some(...))`. */
  function SomeTermMatches(terms: seq<string>, values: seq<string>): bool {
    if terms == [] then false else SomeValueHas(values, terms[0]) || SomeTermMatches(terms[1..], values)
  }

  predicate SearchPasses(terms: seq<string>, e: EndpointDefinition) {
    terms == [] || SomeTermMatches(terms, Haystack(e))
  }

  /** Whether an endpoint is kept. */
  predicate Keep(input: ListInput, e: EndpointDefinition) {
    MethodPasses(input.httpMethod, e) && TagPasses(input.tag, e) && PathPasses(input.pathContains, e)
    && SearchPasses(SearchTerms(input.search), e)
  }

  function Filtered(endpoints: seq<EndpointDefinition>, input: ListInput): (kept: seq<EndpointDefinition>)
    ensures |kept| <= |endpoints|
  {
    if endpoints == [] then []
    else (if Keep(input, endpoints[0]) then [endpoints[0]] else []) + Filtered(endpoints[1..], input)
  }

  function Summary(e: EndpointDefinition): EndpointSummary {
    EndpointSummary(e.endpointId, e.httpMethod.Name(), e.path, e.operationId, e.summary, e.tags.GetOr([]))
  }

  function Summaries(es: seq<EndpointDefinition>): (ss: seq<EndpointSummary>)
    ensures |ss| == |es| && forall k :: 0 <= k < |es| ==> ss[k] == Summary(es[k])
  {
    seq(|es|, k requires 0 <= k < |es| => Summary(es[k]))
  }

  /** `filtered.slice(start, start + size)`: positions past the end are
      clamped to it. */
  function Slice<T>(s: seq<T>, start: nat, size: nat): (r: seq<T>)
    ensures |r| <= size
    ensures start >= |s| ==> r == []
    ensures start < |s| ==> r == s[start..if start + size < |s| then start + size else |s|]
  {
    if start >= |s| then [] else s[start..if start + size < |s| then start + size else |s|]
  }

  /** The page the tool returns for the endpoints of one API. */
  function Page(endpoints: seq<EndpointDefinition>, input: ListInput): EndpointPage
    requires ValidLimit(input.limit)
  {
    var filtered := Filtered(endpoints, input);
    var offset := CursorOffset(input.cursor);
    var paged := Slice(filtered, offset, PageSize(input.limit));
    var nextOffset := offset + |paged|;
    EndpointPage(Summaries(paged), if nextOffset < |filtered| then Some(NatToString(nextOffset)) else None)
  }

  /** `listApiEndpointsTool`, after validation: the API must exist. */
  function ListApiEndpoints(registry: LoadSpec.ApiRegistry, input: ListInput): Result<EndpointPage>
    requires ValidLimit(input.limit)
  {
    var api :- ToolCommon.RequireApi(registry, input.apiName);
    Ok(Page(api.endpoints, input))
  }

  /** An endpoint is listed exactly when it is one of the API's and passes
      every filter. */
  lemma {:induction false} FilteredMembers(endpoints: seq<EndpointDefinition>, input: ListInput, e: EndpointDefinition)
    ensures e in Filtered(endpoints, input) <==> e in endpoints && Keep(input, e)
  {
    if endpoints != [] {
      FilteredMembers(endpoints[1..], input, e);
      assert endpoints == [endpoints[0]] + endpoints[1..];
    }
  }

  /** Filtering keeps the original order: filtering a concatenation
      concatenates the filtered parts. */
  lemma {:induction false} FilteredAppend(a: seq<EndpointDefinition>, b: seq<EndpointDefinition>, input: ListInput)
    ensures Filtered(a + b, input) == Filtered(a, input) + Filtered(b, input)
  {
    if a == [] {
      assert a + b == b;
    } else {
      assert (a + b)[0] == a[0];
      assert (a + b)[1..] == a[1..] + b;
      FilteredAppend(a[1..], b, input);
    }
  }

  /** Without filters and search terms every endpoint is kept. */
  lemma {:induction false} NoFiltersKeepAll(endpoints: seq<EndpointDefinition>, input: ListInput)
    requires input.httpMethod.None? && input.tag.None? && input.pathContains.None? && input.search.None?
    ensures Filtered(endpoints, input) == endpoints
  {
    if endpoints != [] {
      NoFiltersKeepAll(endpoints[1..], input);
      assert endpoints == [endpoints[0]] + endpoints[1..];
    }
  }

  lemma {:induction false} SomeValueHasIff(values: seq<string>, term: string)
    ensures SomeValueHas(values, term) <==> exists v :: v in values && Contains(v, term)
  {
    if values != [] {
      SomeValueHasIff(values[1..], term);
      if Contains(values[0], term) {
        assert values[0] in values;
      } else {
        forall v | v in values && Contains(v, term) ensures v in values[1..] {
          var i :| 0 <= i < |values| && values[i] == v;
          assert i != 0;
          assert values[1..][i - 1] == v;
        }
      }
    }
  }

  /** The search succeeds when some term occurs in some field. */
  lemma {:induction false} SomeTermMatchesIff(terms: seq<string>, values: seq<string>)
    ensures SomeTermMatches(terms, values) <==> exists t, v :: t in terms && v in values && Contains(v, t)
  {
    if terms != [] {
      SomeValueHasIff(values, terms[0]);
      SomeTermMatchesIff(terms[1..], values);
      if !SomeValueHas(values, terms[0]) {
        forall t, v | t in terms && v in values && Contains(v, t) ensures t in terms[1..] {
          var i :| 0 <= i < |terms| && terms[i] == t;
          assert i != 0;
          assert terms[1..][i - 1] == t;
        }
      } else {
        assert terms[0] in terms;
      }
    }
  }

  /** A term found in a field is enough. */
  lemma {:induction false} SomeTermMatchesWitness(terms: seq<string>, values: seq<string>, k: nat, i: nat)
    requires k < |terms| && i < |values| && Contains(values[i], terms[k])
    ensures SomeTermMatches(terms, values)
  {
    SomeValueHasIff(values, terms[k]);
    assert values[i] in values;
    if k > 0 {
      SomeTermMatchesWitness(terms[1..], values, k - 1, i);
    }
  }

  lemma ContainsEmpty(s: string)
    ensures Contains(s, "")
  {
    assert IsPrefix("", s);
  }

  /** A blank search term occurs in every field, so it lets every endpoint
      through the search. */
  lemma BlankTermMatchesAll(search: seq<string>, k: nat, e: EndpointDefinition)
    requires k < |search| && Trim(search[k]) == ""
    ensures SearchPasses(SearchTerms(Some(search)), e)
  {
    var terms := SearchTerms(Some(search));
    var values := Haystack(e);
    assert terms[k] == "";
    ContainsEmpty(values[0]);
    SomeTermMatchesWitness(terms, values, k, 0);
  }

  /** The page is the run of filtered endpoints starting at the cursor's
      offset, at most one page size long, in order; `nextCursor` is given
      exactly when endpoints remain after it, and names the offset just past
      the page. */
  lemma PageShape(endpoints: seq<EndpointDefinition>, input: ListInput)
    requires ValidLimit(input.limit)
    ensures var page := Page(endpoints, input);
      var filtered := Filtered(endpoints, input);
      var offset := CursorOffset(input.cursor);
      |page.endpoints| <= PageSize(input.limit)
      && (forall k :: 0 <= k < |page.endpoints| ==>
            offset + k < |filtered| && page.endpoints[k] == Summary(filtered[offset + k]))
      && (page.nextCursor.Some? <==> offset + |page.endpoints| < |filtered|)
      && (page.nextCursor.Some? ==> page.nextCursor.value == NatToString(offset + |page.endpoints|))
    ensures var filtered := Filtered(endpoints, input);
      var offset := CursorOffset(input.cursor);
      offset < |filtered| ==>
        |Page(endpoints, input).endpoints| == if offset + PageSize(input.limit) < |filtered| then PageSize(input.limit)
          else |filtered| - offset
  {
  }

  /** Passing back `nextCursor` lists the page that follows: it starts where
      the previous one ended. */
  lemma NextPageContinues(endpoints: seq<EndpointDefinition>, input: ListInput)
    requires ValidLimit(input.limit)
    requires Page(endpoints, input).nextCursor.Some?
    ensures CursorOffset(Page(endpoints, input).nextCursor) ==
      CursorOffset(input.cursor) + |Page(endpoints, input).endpoints|
  {
    var page := Page(endpoints, input);
    CursorOffsetCases(page.nextCursor, CursorOffset(input.cursor) + |page.endpoints|);
  }

  /** An unknown API is reported as `API_NOT_FOUND`; a known one is listed. */
  lemma ListApiEndpointsCases(registry: LoadSpec.ApiRegistry, input: ListInput)
    requires ValidLimit(input.limit)
    ensures ListApiEndpoints(registry, input).Err? <==> Lower(input.apiName) !in registry.byName
    ensures ListApiEndpoints(registry, input).Err? ==> ListApiEndpoints(registry, input).error.code == ApiNotFound
    ensures ListApiEndpoints(registry, input).Ok? ==>
      ListApiEndpoints(registry, input).value == Page(registry.byName[Lower(input.apiName)].endpoints, input)
  {
  }
}
