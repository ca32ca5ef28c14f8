/** The endpoint index (src/openapi/endpointIndex.ts): every operation of the
    document gets an endpoint id, ids never collide, and the listing is
    ordered by path and then by method. */
module EndpointIndex {
  import opened Wrappers
  import opened JsString
  import opened Sorting
  import opened JsonValue
  import opened Errors
  import opened OpenApi

  /** `path.replace(/\s+/g, '')`. */
  function RemoveSpaces(s: string): (r: string)
    ensures NoSpace(r)
    ensures NoSpace(s) ==> r == s
  {
    if s == [] then []
    else
      assert s == [s[0]] + s[1..];
      (if IsSpace(s[0]) then [] else [s[0]]) + RemoveSpaces(s[1..])
  }

  /** `normalizePathForId`: whitespace removed, trailing slashes removed, and
      the empty result replaced by `/`. */
  function NormalizePathForId(path: string): (r: string)
    ensures r != "" && NoSpace(r)
    ensures r == "/" || r[|r| - 1] != '/'
  {
    var t := TrimTrailingSlashes(RemoveSpaces(path));
    if t == "" then "/" else t
  }

  /** Normalizing a normalized path changes nothing. */
  lemma NormalizePathIdempotent(path: string)
    ensures NormalizePathForId(NormalizePathForId(path)) == NormalizePathForId(path)
  {
    var r := NormalizePathForId(path);
    assert RemoveSpaces(r) == r;
    if r == "/" {
      assert TrimTrailingSlashes(r) == TrimTrailingSlashes(r[..0]);
    }
  }

  /** One operation found while scanning: its path, method and objects. */
  datatype OpSite = OpSite(path: string, httpMethod: HttpMethod, operation: Operation, pathItem: PathItem)

  /** The operations of one path item, for the methods `ms`, in that order. */
  function MethodSites(path: string, item: PathItem, ms: seq<HttpMethod>): seq<OpSite> {
    if ms == [] then []
    else
      var m := ms[|ms| - 1];
      MethodSites(path, item, ms[..|ms| - 1])
        + (if m in item.operations then [OpSite(path, m, item.operations[m], item)] else [])
  }

  function ItemSites(entry: (string, Option<PathItem>)): seq<OpSite> {
    if entry.1.None? then [] else MethodSites(entry.0, entry.1.value, Methods)
  }

  /** Every operation of the document, path by path and method by method. */
  function Sites(paths: seq<(string, Option<PathItem>)>): seq<OpSite> {
    if paths == [] then []
    else Sites(paths[..|paths| - 1]) + ItemSites(paths[|paths| - 1])
  }

  /** `op?.operationId` is truthy. */
  predicate HasOpId(op: Operation) {
    op.operationId.Some? && op.operationId.value != ""
  }

  function Bump(counts: map<string, nat>, site: OpSite): map<string, nat> {
    if HasOpId(site.operation) then
      var id := site.operation.operationId.value;
      counts[id := (if id in counts then counts[id] else 0) + 1]
    else counts
  }

  /** `opIdCounts` after scanning `sites`. */
  function CountMap(sites: seq<OpSite>): map<string, nat> {
    if sites == [] then map[] else Bump(CountMap(sites[..|sites| - 1]), sites[|sites| - 1])
  }

  /** How many of `sites` declare the operationId `id`. */
  function Occurrences(sites: seq<OpSite>, id: string): nat {
    if sites == [] then 0
    else Occurrences(sites[..|sites| - 1], id) + (if sites[|sites| - 1].operation.operationId == Some(id) then 1 else 0)
  }

  lemma {:induction false} CountMapCounts(sites: seq<OpSite>, id: string)
    requires id != ""
    ensures (if id in CountMap(sites) then CountMap(sites)[id] else 0) == Occurrences(sites, id)
  {
    if sites != [] {
      CountMapCounts(sites[..|sites| - 1], id);
    }
  }

  function FallbackId(site: OpSite): string {
    site.httpMethod.Upper() + " " + NormalizePathForId(site.path)
  }

  /** The id of an operation: its operationId when that is counted exactly
      once, otherwise `METHOD normalized-path`. */
  function EndpointIdOf(counts: map<string, nat>, site: OpSite): string {
    var op := site.operation;
    if HasOpId(op) && op.operationId.value in counts && counts[op.operationId.value] == 1
    then op.operationId.value
    else FallbackId(site)
  }

  function EndpointOf(counts: map<string, nat>, site: OpSite): EndpointDefinition {
    var op := site.operation;
    EndpointDefinition(EndpointIdOf(counts, site), site.httpMethod, site.path,
      op.operationId, op.summary, op.description, op.tags, op, site.pathItem)
  }

  function EndpointsOf(counts: map<string, nat>, sites: seq<OpSite>): (eps: seq<EndpointDefinition>)
    ensures |eps| == |sites|
    ensures forall k :: 0 <= k < |sites| ==> eps[k] == EndpointOf(counts, sites[k])
  {
    seq(|sites|, k requires 0 <= k < |sites| => EndpointOf(counts, sites[k]))
  }

  function CollisionError(e: EndpointDefinition): Error {
    Error(SchemaError, "Endpoint ID collision for '" + e.endpointId + "'",
      Some(JObject([("path", JString(e.path)), ("method", JString(e.httpMethod.Name()))])))
  }

  type Registry = Result<(seq<EndpointDefinition>, map<string, EndpointDefinition>)>

  /** Registering one more endpoint: a collision if its id is taken. */
  function AddEndpoint(reg: Registry, e: EndpointDefinition): Registry {
    match reg
    case Err(err) => Err(err)
    case Ok(acc) =>
      if e.endpointId in acc.1 then Err(CollisionError(e))
      else Ok((acc.0 + [e], acc.1[e.endpointId := e]))
  }

  /** Registering endpoints one at a time: the list and the id map, or the
      error for the first endpoint whose id is already taken. */
  function Register(eps: seq<EndpointDefinition>): Registry {
    if eps == [] then Ok(([], map[])) else AddEndpoint(Register(eps[..|eps| - 1]), eps[|eps| - 1])
  }

  predicate DistinctIds(eps: seq<EndpointDefinition>) {
    forall i, j :: 0 <= i < j < |eps| ==> eps[i].endpointId != eps[j].endpointId
  }

  function Ids(eps: seq<EndpointDefinition>): set<string> {
    set k | 0 <= k < |eps| :: eps[k].endpointId
  }

  lemma IdsSnoc(eps: seq<EndpointDefinition>, e: EndpointDefinition)
    ensures Ids(eps + [e]) == Ids(eps) + {e.endpointId}
  {
    var s := eps + [e];
    forall id | id in Ids(s) ensures id in Ids(eps) + {e.endpointId} {
      var k :| 0 <= k < |s| && s[k].endpointId == id;
      if k < |eps| { assert eps[k] == s[k]; }
    }
    forall id | id in Ids(eps) ensures id in Ids(s) {
      var k :| 0 <= k < |eps| && eps[k].endpointId == id;
      assert s[k] == eps[k];
    }
    assert s[|eps|] == e;
  }

  /** A successful registration keeps the list and stores every endpoint
      under its own id, so the map has exactly as many entries as the list. */
  lemma {:induction false} RegisterOk(eps: seq<EndpointDefinition>)
    requires Register(eps).Ok?
    ensures Register(eps).value.0 == eps
    ensures Register(eps).value.1.Keys == Ids(eps)
    ensures |Register(eps).value.1| == |eps|
    ensures forall k :: 0 <= k < |eps| ==> Register(eps).value.1[eps[k].endpointId] == eps[k]
  {
    if eps != [] {
      var init := eps[..|eps| - 1];
      var e := eps[|eps| - 1];
      assert eps == init + [e];
      assert Register(eps) == AddEndpoint(Register(init), e);
      RegisterOk(init);
      var acc := Register(init).value;
      assert e.endpointId !in acc.1;
      var m := acc.1[e.endpointId := e];
      assert Register(eps) == Ok((init + [e], m));
      IdsSnoc(init, e);
      MapInsertSize(acc.1, e.endpointId, e);
      forall k | 0 <= k < |eps| ensures m[eps[k].endpointId] == eps[k] {
        if k < |init| {
          assert eps[k] == init[k];
          assert init[k].endpointId in acc.1;
        }
      }
    }
  }

  lemma MapInsertSize<K, V>(m: map<K, V>, k: K, v: V)
    requires k !in m
    ensures m[k := v].Keys == m.Keys + {k}
    ensures |m[k := v]| == |m| + 1
  {
    assert m[k := v].Keys == m.Keys + {k};
  }

  /** Registration succeeds exactly when no two endpoints share an id. */
  lemma {:induction false} RegisterOkIffDistinct(eps: seq<EndpointDefinition>)
    ensures Register(eps).Ok? <==> DistinctIds(eps)
  {
    if eps != [] {
      var init := eps[..|eps| - 1];
      var e := eps[|eps| - 1];
      assert eps == init + [e];
      assert Register(eps) == AddEndpoint(Register(init), e);
      RegisterOkIffDistinct(init);
      DistinctSnoc(init, e);
      if Register(init).Ok? {
        RegisterOk(init);
        assert e.endpointId in Register(init).value.1 <==> e.endpointId in Ids(init);
      }
    }
  }

  /** Appending keeps the ids distinct exactly when the list had distinct
      ids and the new id is not among them. */
  lemma DistinctSnoc(eps: seq<EndpointDefinition>, e: EndpointDefinition)
    ensures DistinctIds(eps + [e]) <==> DistinctIds(eps) && e.endpointId !in Ids(eps)
  {
    var s := eps + [e];
    assert forall k :: 0 <= k < |eps| ==> s[k] == eps[k];
    if e.endpointId in Ids(eps) {
      var i :| 0 <= i < |eps| && eps[i].endpointId == e.endpointId;
      assert s[i].endpointId == s[|eps|].endpointId;
    }
    if DistinctIds(eps) && e.endpointId !in Ids(eps) {
      forall i, j | 0 <= i < j < |s| ensures s[i].endpointId != s[j].endpointId {
        if j == |eps| {
          assert s[i].endpointId in Ids(eps);
        }
      }
    }
  }

  /** A failed registration is a `SCHEMA_ERROR` for an endpoint whose id an
      earlier endpoint already holds. */
  lemma {:induction false} RegisterErr(eps: seq<EndpointDefinition>)
    requires Register(eps).Err?
    ensures Register(eps).error.code == SchemaError
    ensures exists i, j ::
      0 <= i < j < |eps| && eps[i].endpointId == eps[j].endpointId && Register(eps).error == CollisionError(eps[j])
  {
    var init := eps[..|eps| - 1];
    var e := eps[|eps| - 1];
    assert forall k :: 0 <= k < |init| ==> init[k] == eps[k];
    if Register(init).Err? {
      RegisterErr(init);
      var i, j :| 0 <= i < j < |init| && init[i].endpointId == init[j].endpointId
        && Register(init).error == CollisionError(init[j]);
      assert eps[i].endpointId == eps[j].endpointId && Register(eps).error == CollisionError(eps[j]);
    } else {
      RegisterOk(init);
      var i :| 0 <= i < |init| && init[i].endpointId == e.endpointId;
      assert eps[i].endpointId == eps[|eps| - 1].endpointId;
    }
  }

  /** Order of the listing: by path, then by method name. */
  predicate EndpointLe(a: EndpointDefinition, b: EndpointDefinition) {
    if a.path == b.path then StrLe(a.httpMethod.Name(), b.httpMethod.Name()) else StrLe(a.path, b.path)
  }

  lemma EndpointLeTotalPreorder()
    ensures TotalPreorder(EndpointLe)
  {
    forall a: EndpointDefinition, b: EndpointDefinition ensures EndpointLe(a, b) || EndpointLe(b, a) {
      StrLeTotal(a.path, b.path);
      StrLeTotal(a.httpMethod.Name(), b.httpMethod.Name());
    }
    forall a: EndpointDefinition, b: EndpointDefinition, c: EndpointDefinition
      | EndpointLe(a, b) && EndpointLe(b, c) ensures EndpointLe(a, c)
    {
      if a.path == b.path && b.path == c.path {
        StrLeTransitive(a.httpMethod.Name(), b.httpMethod.Name(), c.httpMethod.Name());
      } else if a.path == b.path {
      } else if b.path == c.path {
      } else {
        StrLeTransitive(a.path, b.path, c.path);
        if a.path == c.path {
          StrLeAntisymmetric(a.path, b.path);
        }
      }
    }
  }

  datatype EndpointIndex = EndpointIndex(endpoints: seq<EndpointDefinition>, endpointById: map<string, EndpointDefinition>)

  function DocumentSites(doc: Document): seq<OpSite> {
    Sites(doc.paths.GetOr([]))
  }

  /** The endpoints of the document in scanning order, with their ids. */
  function DocumentEndpoints(doc: Document): seq<EndpointDefinition> {
    var sites := DocumentSites(doc);
    EndpointsOf(CountMap(sites), sites)
  }

  /** What `buildEndpointIndex` returns for `doc`. */
  function IndexOf(doc: Document): Result<EndpointIndex> {
    match Register(DocumentEndpoints(doc))
    case Err(err) => Err(err)
    case Ok(acc) => Ok(EndpointIndex(SortBy(acc.0, EndpointLe), acc.1))
  }

  lemma CountMapSnoc(s: seq<OpSite>, x: OpSite)
    ensures CountMap(s + [x]) == Bump(CountMap(s), x)
  {
    assert (s + [x])[..|s + [x]| - 1] == s;
  }

  lemma SitesSnoc(ps: seq<(string, Option<PathItem>)>, i: nat)
    requires i < |ps|
    ensures Sites(ps[..i + 1]) == Sites(ps[..i]) + ItemSites(ps[i])
  {
    assert ps[..i + 1][..i] == ps[..i];
  }

  lemma MethodSitesSnoc(path: string, item: PathItem, ms: seq<HttpMethod>, j: nat)
    requires j < |ms|
    ensures MethodSites(path, item, ms[..j + 1]) == MethodSites(path, item, ms[..j])
      + (if ms[j] in item.operations then [OpSite(path, ms[j], item.operations[ms[j]], item)] else [])
  {
    assert ms[..j + 1][..j] == ms[..j];
  }

  lemma {:induction false} SitesPrefix(ps: seq<(string, Option<PathItem>)>, k: nat)
    requires k <= |ps|
    ensures Sites(ps[..k]) <= Sites(ps)
    decreases |ps| - k
  {
    if k < |ps| {
      var init := ps[..|ps| - 1];
      assert init[..k] == ps[..k];
      SitesPrefix(init, k);
    } else {
      assert ps[..k] == ps;
    }
  }

  lemma {:induction false} MethodSitesPrefix(path: string, item: PathItem, ms: seq<HttpMethod>, k: nat)
    requires k <= |ms|
    ensures MethodSites(path, item, ms[..k]) <= MethodSites(path, item, ms)
    decreases |ms| - k
  {
    if k < |ms| {
      var init := ms[..|ms| - 1];
      assert init[..k] == ms[..k];
      MethodSitesPrefix(path, item, init, k);
    } else {
      assert ms[..k] == ms;
    }
  }

  lemma ScannedPrefix(before: seq<OpSite>, path: string, item: PathItem, ms: seq<HttpMethod>, j: nat)
    requires j <= |ms|
    ensures before + MethodSites(path, item, ms[..j]) <= before + MethodSites(path, item, ms)
  {
    MethodSitesPrefix(path, item, ms, j);
    var a := MethodSites(path, item, ms[..j]);
    var b := MethodSites(path, item, ms);
    assert b == a + b[|a|..];
    assert before + b == (before + a) + b[|a|..];
  }

  /** Registration of the endpoints derived from `sites`, site by site. */
  function RegisterSites(counts: map<string, nat>, sites: seq<OpSite>): Registry {
    if sites == [] then Ok(([], map[]))
    else AddEndpoint(RegisterSites(counts, sites[..|sites| - 1]), EndpointOf(counts, sites[|sites| - 1]))
  }

  lemma {:induction false} RegisterSitesIsRegister(counts: map<string, nat>, sites: seq<OpSite>)
    ensures RegisterSites(counts, sites) == Register(EndpointsOf(counts, sites))
  {
    if sites != [] {
      var init := sites[..|sites| - 1];
      RegisterSitesIsRegister(counts, init);
      assert EndpointsOf(counts, sites)[..|sites| - 1] == EndpointsOf(counts, init);
    }
  }

  lemma RegisterSitesSnoc(counts: map<string, nat>, done: seq<OpSite>, site: OpSite)
    ensures RegisterSites(counts, done + [site]) == AddEndpoint(RegisterSites(counts, done), EndpointOf(counts, site))
  {
    assert (done + [site])[..|done + [site]| - 1] == done;
  }

  /** Once registering a prefix of the sites has failed, registering all of
      them fails the same way. */
  lemma {:induction false} ErrorOnPrefix(counts: map<string, nat>, done: seq<OpSite>, all: seq<OpSite>)
    requires done <= all
    requires RegisterSites(counts, done).Err?
    ensures RegisterSites(counts, all) == RegisterSites(counts, done)
    decreases |all|
  {
    if |all| > |done| {
      var init := all[..|all| - 1];
      assert done <= init;
      ErrorOnPrefix(counts, done, init);
    } else {
      assert all == done;
    }
  }

  lemma CollisionEndsItem(counts: map<string, nat>, before: seq<OpSite>, path: string, item: PathItem,
                           ms: seq<HttpMethod>, j: nat)
    requires j <= |ms|
    requires RegisterSites(counts, before + MethodSites(path, item, ms[..j])).Err?
    ensures RegisterSites(counts, before + MethodSites(path, item, ms))
         == RegisterSites(counts, before + MethodSites(path, item, ms[..j]))
  {
    ScannedPrefix(before, path, item, ms, j);
    ErrorOnPrefix(counts, before + MethodSites(path, item, ms[..j]), before + MethodSites(path, item, ms));
  }

  /** One method of the first pass: an operation with an operationId bumps
      its count, anything else leaves the counts as they were. */
  lemma CountStep(counts: map<string, nat>, before: seq<OpSite>, path: string, item: PathItem, ms: seq<HttpMethod>, j: nat)
    requires j < |ms|
    requires counts == CountMap(before + MethodSites(path, item, ms[..j]))
    ensures ms[j] in item.operations ==>
      CountMap(before + MethodSites(path, item, ms[..j + 1])) == Bump(counts, OpSite(path, ms[j], item.operations[ms[j]], item))
    ensures ms[j] !in item.operations ==> CountMap(before + MethodSites(path, item, ms[..j + 1])) == counts
  {
    var scanned := before + MethodSites(path, item, ms[..j]);
    MethodSitesSnoc(path, item, ms, j);
    if ms[j] in item.operations {
      var site := OpSite(path, ms[j], item.operations[ms[j]], item);
      assert before + MethodSites(path, item, ms[..j + 1]) == scanned + [site];
      CountMapSnoc(scanned, site);
    } else {
      assert before + MethodSites(path, item, ms[..j + 1]) == scanned;
    }
  }

  /** The first pass over one path item: count the operationIds of its
      operations, method by method. */
  method CountItem(counts: map<string, nat>, ghost before: seq<OpSite>, path: string, item: PathItem, ms: seq<HttpMethod>)
    returns (counts': map<string, nat>)
    requires counts == CountMap(before)
    ensures counts' == CountMap(before + MethodSites(path, item, ms))
  {
    counts' := counts;
    var j := 0;
    assert before + MethodSites(path, item, ms[..j]) == before;
    while j < |ms|
      invariant 0 <= j <= |ms|
      invariant counts' == CountMap(before + MethodSites(path, item, ms[..j]))
    {
      var m := ms[j];
      CountStep(counts', before, path, item, ms, j);
      if m in item.operations {
        var op := item.operations[m];
        if HasOpId(op) {
          var id := op.operationId.value;
          counts' := counts'[id := (if id in counts' then counts'[id] else 0) + 1];
        }
      }
      j := j + 1;
    }
    assert ms[..j] == ms;
  }

  /** One operation of the second pass: its endpoint is added, or its id
      is already taken and registration fails. */
  lemma RegisterStep(counts: map<string, nat>, before: seq<OpSite>, path: string, item: PathItem,
                     ms: seq<HttpMethod>, j: nat, eps: seq<EndpointDefinition>, ids: map<string, EndpointDefinition>)
    requires j < |ms| && ms[j] in item.operations
    requires RegisterSites(counts, before + MethodSites(path, item, ms[..j])) == Ok((eps, ids))
    ensures var e := EndpointOf(counts, OpSite(path, ms[j], item.operations[ms[j]], item));
      e.endpointId in ids ==> RegisterSites(counts, before + MethodSites(path, item, ms[..j + 1])) == Err(CollisionError(e))
    ensures var e := EndpointOf(counts, OpSite(path, ms[j], item.operations[ms[j]], item));
      e.endpointId !in ids ==>
        RegisterSites(counts, before + MethodSites(path, item, ms[..j + 1])) == Ok((eps + [e], ids[e.endpointId := e]))
  {
    var site := OpSite(path, ms[j], item.operations[ms[j]], item);
    var scanned := before + MethodSites(path, item, ms[..j]);
    MethodSitesSnoc(path, item, ms, j);
    assert before + MethodSites(path, item, ms[..j + 1]) == scanned + [site];
    RegisterSitesSnoc(counts, scanned, site);
  }

  /** The second pass over one path item: derive each operation's id and
      register it, stopping at the first id already taken. */
  method RegisterItem(counts: map<string, nat>, ghost before: seq<OpSite>, path: string, item: PathItem, ms: seq<HttpMethod>,
                      endpoints: seq<EndpointDefinition>, byId: map<string, EndpointDefinition>)
    returns (r: Result<(seq<EndpointDefinition>, map<string, EndpointDefinition>)>)
    requires RegisterSites(counts, before) == Ok((endpoints, byId))
    ensures r == RegisterSites(counts, before + MethodSites(path, item, ms))
  {
    var eps, ids := endpoints, byId;
    var j := 0;
    assert before + MethodSites(path, item, ms[..j]) == before;
    while j < |ms|
      invariant 0 <= j <= |ms|
      invariant RegisterSites(counts, before + MethodSites(path, item, ms[..j])) == Ok((eps, ids))
    {
      var m := ms[j];
      if m in item.operations {
        var endpoint := EndpointOf(counts, OpSite(path, m, item.operations[m], item));
        RegisterStep(counts, before, path, item, ms, j, eps, ids);
        if endpoint.endpointId in ids {
          CollisionEndsItem(counts, before, path, item, ms, j + 1);
          return Err(CollisionError(endpoint));
        }
        ids := ids[endpoint.endpointId := endpoint];
        eps := eps + [endpoint];
        assert RegisterSites(counts, before + MethodSites(path, item, ms[..j + 1])) == Ok((eps, ids));
      } else {
        MethodSitesSnoc(path, item, ms, j);
        assert MethodSites(path, item, ms[..j + 1]) == MethodSites(path, item, ms[..j]);
      }
      j := j + 1;
    }
    assert ms[..j] == ms;
    r := Ok((eps, ids));
  }

  /** The first pass of `buildEndpointIndex`: operationId counts over
      every path item. */
  method CountOperations(paths: seq<(string, Option<PathItem>)>) returns (counts: map<string, nat>)
    ensures counts == CountMap(Sites(paths))
  {
    counts := map[];
    var i := 0;
    while i < |paths|
      invariant 0 <= i <= |paths|
      invariant counts == CountMap(Sites(paths[..i]))
    {
      SitesSnoc(paths, i);
      if paths[i].1.Some? {
        counts := CountItem(counts, Sites(paths[..i]), paths[i].0, paths[i].1.value, Methods);
      } else {
        assert Sites(paths[..i + 1]) == Sites(paths[..i]);
      }
      i := i + 1;
    }
    assert paths[..i] == paths;
  }

  /** A collision within the first `k` path items ends the registration. */
  lemma CollisionEndsPaths(counts: map<string, nat>, paths: seq<(string, Option<PathItem>)>, k: nat)
    requires k <= |paths|
    requires RegisterSites(counts, Sites(paths[..k])).Err?
    ensures RegisterSites(counts, Sites(paths)) == RegisterSites(counts, Sites(paths[..k]))
  {
    SitesPrefix(paths, k);
    ErrorOnPrefix(counts, Sites(paths[..k]), Sites(paths));
  }

  /** The second pass of `buildEndpointIndex`: every operation registered
      under its derived id, stopping at the first collision. */
  method RegisterOperations(counts: map<string, nat>, paths: seq<(string, Option<PathItem>)>)
    returns (r: Result<(seq<EndpointDefinition>, map<string, EndpointDefinition>)>)
    ensures r == RegisterSites(counts, Sites(paths))
  {
    var endpoints: seq<EndpointDefinition> := [];
    var byId: map<string, EndpointDefinition> := map[];
    var i := 0;
    while i < |paths|
      invariant 0 <= i <= |paths|
      invariant RegisterSites(counts, Sites(paths[..i])) == Ok((endpoints, byId))
    {
      SitesSnoc(paths, i);
      if paths[i].1.Some? {
        var step := RegisterItem(counts, Sites(paths[..i]), paths[i].0, paths[i].1.value, Methods, endpoints, byId);
        if step.Err? {
          CollisionEndsPaths(counts, paths, i + 1);
          return step;
        }
        endpoints, byId := step.value.0, step.value.1;
      } else {
        assert Sites(paths[..i + 1]) == Sites(paths[..i]);
      }
      i := i + 1;
    }
    assert paths[..i] == paths;
    r := Ok((endpoints, byId));
  }

  /** `buildEndpointIndex`: one pass counts operationIds, a second pass
      derives ids and registers every operation (failing on the first id
      collision), and the list is then sorted by path and method. */
  method BuildEndpointIndex(doc: Document) returns (r: Result<EndpointIndex>)
    ensures r == IndexOf(doc)
  {
    var paths := doc.paths.GetOr([]);
    var counts := CountOperations(paths);
    var registered := RegisterOperations(counts, paths);
    RegisterSitesIsRegister(counts, Sites(paths));
    if registered.Err? {
      return Err(registered.error);
    }
    r := Ok(EndpointIndex(SortBy(registered.value.0, EndpointLe), registered.value.1));
  }

  /** The id of every endpoint, stated without the count map: an operationId
      that no other operation of the document declares is the id, and any
      other operation (no operationId, an empty one, or one shared with
      another operation) gets `METHOD normalized-path`. */
  lemma EndpointIdRule(sites: seq<OpSite>, k: nat)
    requires k < |sites|
    ensures EndpointsOf(CountMap(sites), sites)[k].endpointId ==
      var op := sites[k].operation;
      if HasOpId(op) && Occurrences(sites, op.operationId.value) == 1 then op.operationId.value
      else FallbackId(sites[k])
  {
    var op := sites[k].operation;
    if HasOpId(op) {
      CountMapCounts(sites, op.operationId.value);
    }
  }

  /** What a successful index holds: the list is ordered by path and method
      and is a permutation of the scanned endpoints; the id map has an entry
      for each endpoint, under its own id, and no other; and the index fails
      exactly when two operations end up with the same id, with a
      `SCHEMA_ERROR`. */
  lemma IndexFacts(doc: Document)
    ensures IndexOf(doc).Ok? <==> DistinctIds(DocumentEndpoints(doc))
    ensures IndexOf(doc).Err? ==> IndexOf(doc).error.code == SchemaError
    ensures IndexOf(doc).Ok? ==>
      var idx := IndexOf(doc).value;
      && SortedBy(idx.endpoints, EndpointLe)
      && multiset(idx.endpoints) == multiset(DocumentEndpoints(doc))
      && |idx.endpoints| == |idx.endpointById| == |DocumentSites(doc)|
      && idx.endpointById.Keys == Ids(DocumentEndpoints(doc))
      && (forall e :: e in idx.endpoints ==> e.endpointId in idx.endpointById && idx.endpointById[e.endpointId] == e)
  {
    var eps := DocumentEndpoints(doc);
    assert |eps| == |DocumentSites(doc)|;
    RegisterOkIffDistinct(eps);
    if Register(eps).Ok? {
      RegisteredIndex(eps);
    } else {
      RegisterErr(eps);
    }
  }

  /** The index made from a successful registration: the list sorted, and
      every endpoint found under its own id. */
  lemma RegisteredIndex(eps: seq<EndpointDefinition>)
    requires Register(eps).Ok?
    ensures var acc := Register(eps).value;
      var sorted := SortBy(acc.0, EndpointLe);
      && SortedBy(sorted, EndpointLe)
      && multiset(sorted) == multiset(eps)
      && |sorted| == |acc.1| == |eps|
      && acc.1.Keys == Ids(eps)
      && (forall e :: e in sorted ==> e.endpointId in acc.1 && acc.1[e.endpointId] == e)
  {
    RegisterOk(eps);
    EndpointLeTotalPreorder();
    SortBySorted(eps, EndpointLe);
    var acc := Register(eps).value;
    forall e | e in SortBy(acc.0, EndpointLe)
      ensures e.endpointId in acc.1 && acc.1[e.endpointId] == e
    {
      assert e in multiset(eps);
      var k :| 0 <= k < |eps| && eps[k] == e;
    }
  }

  /** Every HTTP method is one of those scanned. */
  lemma AllMethodsScanned(m: HttpMethod)
    ensures m in Methods
  {
    match m
    case Get => assert Methods[0] == Get;
    case Put => assert Methods[1] == Put;
    case Post => assert Methods[2] == Post;
    case Delete => assert Methods[3] == Delete;
    case Options => assert Methods[4] == Options;
    case Head => assert Methods[5] == Head;
    case Patch => assert Methods[6] == Patch;
    case Trace => assert Methods[7] == Trace;
  }

  lemma FoundSnoc(init: seq<HttpMethod>, last: HttpMethod, ops: map<HttpMethod, Operation>)
    requires last !in init
    ensures |set m | m in init + [last] && m in ops| == |set m | m in init && m in ops| + (if last in ops then 1 else 0)
  {
    var found := set m | m in init + [last] && m in ops;
    var before := set m | m in init && m in ops;
    if last in ops {
      assert found == before + {last};
    } else {
      assert found == before;
    }
  }

  lemma {:induction false} MethodSitesCount(path: string, item: PathItem, ms: seq<HttpMethod>)
    requires forall i, j :: 0 <= i < j < |ms| ==> ms[i] != ms[j]
    ensures |MethodSites(path, item, ms)| == |set m | m in ms && m in item.operations|
  {
    if ms != [] {
      var init := ms[..|ms| - 1];
      var last := ms[|ms| - 1];
      MethodSitesCount(path, item, init);
      assert ms == init + [last];
      assert last !in init by {
        forall i | 0 <= i < |init| ensures init[i] != last {
          assert init[i] == ms[i];
        }
      }
      FoundSnoc(init, last, item.operations);
    } else {
      assert (set m | m in ms && m in item.operations) == {};
    }
  }

  /** The number of operations the path items declare. */
  function OperationTotal(paths: seq<(string, Option<PathItem>)>): nat {
    if paths == [] then 0
    else
      var item := paths[|paths| - 1].1;
      OperationTotal(paths[..|paths| - 1]) + (if item.Some? then |item.value.operations| else 0)
  }

  /** Every operation of every path item is scanned exactly once: the
      number of endpoints is the number of (path, method) pairs. */
  lemma {:induction false} SitesCount(paths: seq<(string, Option<PathItem>)>)
    ensures |Sites(paths)| == OperationTotal(paths)
  {
    if paths != [] {
      SitesCount(paths[..|paths| - 1]);
      var entry := paths[|paths| - 1];
      if entry.1.Some? {
        var ops := entry.1.value.operations;
        MethodSitesCount(entry.0, entry.1.value, Methods);
        forall m | m in ops ensures m in Methods { AllMethodsScanned(m); }
        assert (set m | m in Methods && m in ops) == ops.Keys;
      }
    }
  }

  /** Each scanned operation is the one its path item declares for its
      method, under its path. */
  lemma {:induction false} SitesSound(paths: seq<(string, Option<PathItem>)>, k: nat)
    requires k < |Sites(paths)|
    ensures var site := Sites(paths)[k];
      && site.httpMethod in site.pathItem.operations
      && site.operation == site.pathItem.operations[site.httpMethod]
      && (site.path, Some(site.pathItem)) in paths
  {
    var init := paths[..|paths| - 1];
    var entry := paths[|paths| - 1];
    if k < |Sites(init)| {
      SitesSound(init, k);
    } else {
      MethodSitesSound(entry.0, entry.1.value, Methods, k - |Sites(init)|);
    }
  }

  lemma {:induction false} MethodSitesSound(path: string, item: PathItem, ms: seq<HttpMethod>, k: nat)
    requires k < |MethodSites(path, item, ms)|
    ensures var site := MethodSites(path, item, ms)[k];
      site.path == path && site.pathItem == item && site.httpMethod in item.operations
      && site.operation == item.operations[site.httpMethod]
  {
    var init := ms[..|ms| - 1];
    if k < |MethodSites(path, item, init)| {
      MethodSitesSound(path, item, init, k);
    }
  }
}
