/** URL construction in src/http/requestExecutor.ts: path-template
    expansion, joining the base URL and the path, and query serialisation
    onto a `URLSearchParams`. `encodeURIComponent` is a parameter. */
module RequestUrl {
  import opened Wrappers
  import opened JsString
  import opened JsonValue
  import opened Errors
  import opened Records
  import opened OpenApi
  import opened SeqFacts

  /** `encodeURIComponent`. */
  type Encoder = string -> string

  /** `flat.push(k, String(v))` over the entries of an object: names and
      values alternate. The loop of the `expandPath` replacement callback is
      this function, as the callback is part of `ExpandPath`. */
  function FlatPairs(fields: seq<(string, Json)>): (flat: seq<string>)
    ensures |flat| == 2 * |fields|
    ensures forall i :: 0 <= i < |fields| ==> flat[2 * i] == fields[i].0 && flat[2 * i + 1] == ToJsString(fields[i].1)
  {
    if fields == [] then []
    else FlatPairs(fields[..|fields| - 1]) + [fields[|fields| - 1].0, ToJsString(fields[|fields| - 1].1)]
  }

  /** The `flat` loop of `serializeQueryValue` for a non-exploded object. */
  method Flatten(fields: seq<(string, Json)>) returns (flat: seq<string>)
    ensures flat == FlatPairs(fields)
  {
    flat := [];
    var i := 0;
    while i < |fields|
      invariant 0 <= i <= |fields|
      invariant flat == FlatPairs(fields[..i])
    {
      assert fields[..i + 1][..i] == fields[..i];
      flat := flat + [fields[i].0, ToJsString(fields[i].1)];
      i := i + 1;
    }
    assert fields[..i] == fields;
  }

  // ----- Path templates (`expandPath`) -----

  /** The index of the first `}` of `t` at or after `i`. */
  function CloseFrom(t: string, i: nat): (r: Option<nat>)
    requires i <= |t|
    ensures r.Some? ==> i <= r.value < |t| && t[r.value] == '}' && forall k :: i <= k < r.value ==> t[k] != '}'
    ensures r.None? ==> forall k :: i <= k < |t| ==> t[k] != '}'
    decreases |t| - i
  {
    if i == |t| then None else if t[i] == '}' then Some(i) else CloseFrom(t, i + 1)
  }

  predicate NoCloseBefore(t: string, j: int)
    requires j <= |t|
  {
    forall k :: 1 <= k < j ==> t[k] != '}'
  }

  /** Where the placeholder `\{([^}]+)\}` that starts `t` closes: `t` opens
      with `{`, and the first `}` after it leaves a non-empty name. */
  function PlaceholderEnd(t: string): (r: Option<nat>)
    ensures r.Some? <==> t != [] && t[0] == '{' && (exists j :: 2 <= j < |t| && t[j] == '}' && NoCloseBefore(t, j))
    ensures r.Some? ==> 2 <= r.value < |t| && t[r.value] == '}' && forall k :: 1 <= k < r.value ==> t[k] != '}'
  {
    if t != [] && t[0] == '{' then
      match CloseFrom(t, 1)
      case Some(j) => if j >= 2 then Some(j) else None
      case None => None
    else None
  }

  /** `pathParams?.[name]`, with `null` treated as missing. */
  function PathParam(params: Option<Record<Json>>, name: string): Option<Json> {
    match params
    case None => None
    case Some(r) =>
      match Records.Get(r, name)
      case Some(v) => if v.JNull? then None else Some(v)
      case None => None
  }

  function MissingPathParameter(name: string): Error {
    Error(RequestError, "Missing path parameter '" + name + "'", None)
  }

  /** What replaces one placeholder: encoded items joined by commas for an
      array, one encoded `k1,v1,k2,v2` segment for an object, the encoded
      string otherwise. */
  function RenderPathValue(v: Json, encode: Encoder): string {
    match v
    case JArray(items) => Join(seq(|items|, i requires 0 <= i < |items| => encode(ToJsString(items[i]))), ",")
    case JObject(fields) => encode(Join(FlatPairs(fields), ","))
    case _ => encode(ToJsString(v))
  }

  /** `expandPath`: every placeholder, scanning left to right, is replaced
      by its rendered value; the first missing one is an error. */
  function ExpandPath(t: string, params: Option<Record<Json>>, encode: Encoder): Result<string>
    decreases |t|
  {
    if t == [] then Ok([])
    else
      match PlaceholderEnd(t)
      case Some(j) =>
        var name := t[1..j];
        if PathParam(params, name).None? then Err(MissingPathParameter(name))
        else
          var rest :- ExpandPath(t[j + 1..], params, encode);
          Ok(RenderPathValue(PathParam(params, name).value, encode) + rest)
      case None =>
        var rest :- ExpandPath(t[1..], params, encode);
        Ok([t[0]] + rest)
  }

  /** The placeholder names of a template, in order. */
  function PlaceholderNames(t: string): (ns: seq<string>)
    ensures forall k :: 0 <= k < |ns| ==> ns[k] != [] && '}' !in ns[k]
    decreases |t|
  {
    if t == [] then []
    else
      match PlaceholderEnd(t)
      case Some(j) =>
        assert forall k :: 0 <= k < j - 1 ==> t[1..j][k] == t[k + 1];
        [t[1..j]] + PlaceholderNames(t[j + 1..])
      case None => PlaceholderNames(t[1..])
  }

  /** The first name with no usable value. */
  function FirstMissing(ns: seq<string>, params: Option<Record<Json>>): (m: Option<string>)
    ensures m.None? <==> forall k :: 0 <= k < |ns| ==> PathParam(params, ns[k]).Some?
    ensures m.Some? ==> m.value in ns && PathParam(params, m.value).None?
  {
    if ns == [] then None
    else if PathParam(params, ns[0]).None? then Some(ns[0])
    else FirstMissing(ns[1..], params)
  }

  /** Expansion fails exactly when some placeholder has no value (absent
      or `null`), and then it names the first such placeholder. */
  lemma {:induction false} ExpandPathFails(t: string, params: Option<Record<Json>>, encode: Encoder)
    ensures var r := ExpandPath(t, params, encode);
      var missing := FirstMissing(PlaceholderNames(t), params);
      && (r.Err? <==> missing.Some?)
      && (r.Err? ==> r.error == MissingPathParameter(missing.value))
    decreases |t|
  {
    if t != [] {
      match PlaceholderEnd(t)
      case Some(j) =>
        var ns := PlaceholderNames(t);
        var rest := PlaceholderNames(t[j + 1..]);
        assert ns == [t[1..j]] + rest;
        assert ns[0] == t[1..j] && ns[1..] == rest;
        if PathParam(params, t[1..j]).Some? {
          ExpandPathFails(t[j + 1..], params, encode);
          assert FirstMissing(ns, params) == FirstMissing(rest, params);
        }
      case None =>
        ExpandPathFails(t[1..], params, encode);
    }
  }

  /** A template without `{` comes back unchanged. */
  lemma {:induction false} ExpandPathLiteral(t: string, params: Option<Record<Json>>, encode: Encoder)
    requires '{' !in t
    ensures ExpandPath(t, params, encode) == Ok(t)
    ensures PlaceholderNames(t) == []
    decreases |t|
  {
    if t != [] {
      assert '{' !in t[1..];
      ExpandPathLiteral(t[1..], params, encode);
      ExpandPathLiteralStep(t, params, encode);
    }
  }

  lemma ExpandPathLiteralStep(t: string, params: Option<Record<Json>>, encode: Encoder)
    requires t != [] && t[0] != '{'
    requires ExpandPath(t[1..], params, encode) == Ok(t[1..]) && PlaceholderNames(t[1..]) == []
    ensures ExpandPath(t, params, encode) == Ok(t)
    ensures PlaceholderNames(t) == []
  {
    assert PlaceholderEnd(t).None?;
    assert [t[0]] + t[1..] == t;
  }

  /** Literal text before a template is copied in front of its expansion. */
  lemma {:induction false} ExpandPathAfterLiteral(lit: string, t: string, params: Option<Record<Json>>, encode: Encoder)
    requires '{' !in lit
    ensures var r := ExpandPath(lit + t, params, encode);
      var r' := ExpandPath(t, params, encode);
      && r.Ok? == r'.Ok?
      && (r.Ok? ==> r.value == lit + r'.value)
      && (r.Err? ==> r.error == r'.error)
    decreases |lit|
  {
    if lit != [] {
      assert '{' !in lit[1..];
      ExpandPathAfterLiteral(lit[1..], t, params, encode);
      ExpandPathAfterLiteralStep(lit, t, params, encode);
    } else {
      assert lit + t == t;
    }
  }

  lemma ExpandPathAfterLiteralStep(lit: string, t: string, params: Option<Record<Json>>, encode: Encoder)
    requires lit != [] && lit[0] != '{'
    requires var r := ExpandPath(lit[1..] + t, params, encode);
      var r' := ExpandPath(t, params, encode);
      && r.Ok? == r'.Ok?
      && (r.Ok? ==> r.value == lit[1..] + r'.value)
      && (r.Err? ==> r.error == r'.error)
    ensures var r := ExpandPath(lit + t, params, encode);
      var r' := ExpandPath(t, params, encode);
      && r.Ok? == r'.Ok?
      && (r.Ok? ==> r.value == lit + r'.value)
      && (r.Err? ==> r.error == r'.error)
  {
    var u := lit + t;
    assert u[0] == lit[0] && PlaceholderEnd(u).None?;
    assert u[1..] == lit[1..] + t;
    var r' := ExpandPath(t, params, encode);
    if r'.Ok? {
      AppendAssoc([lit[0]], lit[1..], r'.value);
      assert [lit[0]] + lit[1..] == lit;
    }
  }

  /** A leading `{name}` is replaced by the rendered value of `name`. */
  lemma ExpandPathPlaceholder(name: string, rest: string, params: Option<Record<Json>>, encode: Encoder)
    requires name != [] && '}' !in name
    ensures var r := ExpandPath("{" + name + "}" + rest, params, encode);
      && (PathParam(params, name).None? ==> r == Err(MissingPathParameter(name)))
      && (PathParam(params, name).Some? ==>
            && r.Ok? == ExpandPath(rest, params, encode).Ok?
            && (r.Ok? ==> r.value == RenderPathValue(PathParam(params, name).value, encode) + ExpandPath(rest, params, encode).value))
  {
    var t := "{" + name + "}" + rest;
    assert t[|name| + 1] == '}';
    assert forall k :: 1 <= k < |name| + 1 ==> t[k] == name[k - 1];
    assert PlaceholderEnd(t) == Some(|name| + 1);
    assert t[1..|name| + 1] == name;
    assert t[|name| + 2..] == rest;
  }

  // ----- Base URL and path (`joinBaseAndPath`) -----

  /** The base without its trailing slashes, then the path with a leading
      slash added when it has none. */
  function JoinBaseAndPath(baseUrl: string, apiPath: string): (url: string)
    ensures var b := TrimTrailingSlashes(baseUrl);
      && IsPrefix(b, url) && |b| < |url| && |b| + |apiPath| <= |url| <= |b| + 1 + |apiPath|
      && url[|b|] == '/' && url[|url| - |apiPath|..] == apiPath
  {
    var path := if IsPrefix("/", apiPath) then apiPath else "/" + apiPath;
    TrimTrailingSlashes(baseUrl) + path
  }

  /** Trailing slashes on the base make no difference, and neither does a
      missing leading slash on the path. */
  lemma JoinBaseAndPathNormalizes(baseUrl: string, apiPath: string)
    ensures JoinBaseAndPath(baseUrl + "/", apiPath) == JoinBaseAndPath(baseUrl, apiPath)
    ensures !IsPrefix("/", apiPath) ==> JoinBaseAndPath(baseUrl, "/" + apiPath) == JoinBaseAndPath(baseUrl, apiPath)
  {
    assert (baseUrl + "/")[..|baseUrl|] == baseUrl;
    assert IsPrefix("/", "/" + apiPath);
  }

  // ----- `URLSearchParams` -----

  /** `set(name, value)`: the first entry with that name takes the value
      and the later ones go; with none, the entry is appended. */
  function SetParam(es: seq<(string, string)>, name: string, value: string): seq<(string, string)> {
    SetParamFrom(es, name, value, false)
  }

  function SetParamFrom(es: seq<(string, string)>, name: string, value: string, seen: bool): seq<(string, string)> {
    if es == [] then (if seen then [] else [(name, value)])
    else if es[0].0 == name then
      if seen then SetParamFrom(es[1..], name, value, true)
      else [(name, value)] + SetParamFrom(es[1..], name, value, true)
    else [es[0]] + SetParamFrom(es[1..], name, value, seen)
  }

  /** The entries not named `name`, in order. */
  function Others(es: seq<(string, string)>, name: string): (os: seq<(string, string)>)
    ensures |os| <= |es|
  {
    if es == [] then []
    else if es[0].0 == name then Others(es[1..], name)
    else [es[0]] + Others(es[1..], name)
  }

  /** The values under `name`, in order. */
  function ValuesOf(es: seq<(string, string)>, name: string): seq<string> {
    if es == [] then []
    else if es[0].0 == name then [es[0].1] + ValuesOf(es[1..], name)
    else ValuesOf(es[1..], name)
  }

  /** After `set`, `name` has exactly the one value, and every other entry
      is kept in order. */
  lemma {:induction false} SetParamEffect(es: seq<(string, string)>, name: string, value: string, seen: bool)
    ensures ValuesOf(SetParamFrom(es, name, value, seen), name) == if seen then [] else [value]
    ensures Others(SetParamFrom(es, name, value, seen), name) == Others(es, name)
  {
    if es != [] {
      SetParamEffect(es[1..], name, value, es[0].0 == name || seen);
      var r := SetParamFrom(es, name, value, seen);
      if es[0].0 == name && !seen {
        assert r[0] == (name, value) && r[1..] == SetParamFrom(es[1..], name, value, true);
      } else if es[0].0 != name {
        assert r[0] == es[0] && r[1..] == SetParamFrom(es[1..], name, value, seen);
      }
    }
  }

  /** The query part of the URL being built. */
  class SearchParams {
    var entries: seq<(string, string)>

    constructor()
      ensures entries == []
    {
      entries := [];
    }

    method Append(name: string, value: string)
      modifies this
      ensures entries == old(entries) + [(name, value)]
    {
      entries := entries + [(name, value)];
    }

    method Set(name: string, value: string)
      modifies this
      ensures entries == SetParam(old(entries), name, value)
    {
      entries := SetParam(entries, name, value);
    }
  }

  // ----- Query serialisation (`serializeQueryValue`, `appendQueryParams`) -----

  function Bracketed(key: string, nestedKey: string): string {
    key + "[" + nestedKey + "]"
  }

  /** The deepObject entries: `key[nk]=String(v)` for each field whose value
      is not `null`. */
  function DeepObjectPairs(key: string, fields: seq<(string, Json)>): (ps: seq<(string, string)>)
    ensures |ps| <= |fields|
  {
    if fields == [] then []
    else
      var last := fields[|fields| - 1];
      DeepObjectPairs(key, fields[..|fields| - 1])
        + (if last.1.JNull? then [] else [(Bracketed(key, last.0), ToJsString(last.1))])
  }

  /** Every deepObject entry names a field of the object under `key` and
      carries that field's non-null value. */
  lemma {:induction false} DeepObjectPairsFrom(key: string, fields: seq<(string, Json)>, p: (string, string))
    requires p in DeepObjectPairs(key, fields)
    ensures exists i :: 0 <= i < |fields| && !fields[i].1.JNull?
                        && p == (Bracketed(key, fields[i].0), ToJsString(fields[i].1))
  {
    var init := fields[..|fields| - 1];
    if p in DeepObjectPairs(key, init) {
      DeepObjectPairsFrom(key, init, p);
      var i :| 0 <= i < |init| && !init[i].1.JNull? && p == (Bracketed(key, init[i].0), ToJsString(init[i].1));
      assert fields[i] == init[i];
    }
  }

  /** Without `null` fields every field gives exactly one entry, in order. */
  lemma {:induction false} DeepObjectPairsAll(key: string, fields: seq<(string, Json)>)
    requires forall i :: 0 <= i < |fields| ==> !fields[i].1.JNull?
    ensures var ps := DeepObjectPairs(key, fields);
      |ps| == |fields| && forall i :: 0 <= i < |fields| ==> ps[i] == (Bracketed(key, fields[i].0), ToJsString(fields[i].1))
  {
    if fields != [] {
      DeepObjectPairsAll(key, fields[..|fields| - 1]);
    }
  }

  function ItemStrings(items: seq<Json>): (ss: seq<string>)
    ensures |ss| == |items| && forall i :: 0 <= i < |items| ==> ss[i] == ToJsString(items[i])
  {
    seq(|items|, i requires 0 <= i < |items| => ToJsString(items[i]))
  }

  /** The entries `serializeQueryValue` appends for one query value. */
  function QueryValuePairs(key: string, value: Json, style: string, explode: bool): seq<(string, string)> {
    if style == "deepObject" && IsPlainObject(value) then DeepObjectPairs(key, value.fields)
    else
      match value
      case JArray(items) =>
        if explode then seq(|items|, i requires 0 <= i < |items| => (key, ToJsString(items[i])))
        else [(key, Join(ItemStrings(items), ","))]
      case JObject(fields) =>
        if explode then seq(|fields|, i requires 0 <= i < |fields| => (fields[i].0, ToJsString(fields[i].1)))
        else [(key, Join(FlatPairs(fields), ","))]
      case _ => [(key, ToJsString(value))]
  }

  /** Which names the entries carry: the parameter's own name, except for
      a deepObject object (`key[nk]`) and an exploded object (the object's
      own keys); and how many entries there are. */
  lemma QueryValueShape(key: string, value: Json, style: string, explode: bool)
    ensures var ps := QueryValuePairs(key, value, style, explode);
      && (style == "deepObject" && value.JObject? ==>
            forall p :: p in ps ==> exists i :: 0 <= i < |value.fields| && p.0 == Bracketed(key, value.fields[i].0))
      && (value.JObject? && style != "deepObject" && explode ==>
            |ps| == |value.fields| && forall i :: 0 <= i < |ps| ==> ps[i].0 == value.fields[i].0)
      && (value.JArray? && explode ==>
            |ps| == |value.items| && forall i :: 0 <= i < |ps| ==> ps[i] == (key, ToJsString(value.items[i])))
      && (!value.JObject? && !(value.JArray? && explode) ==> |ps| == 1 && ps[0].0 == key)
  {
    if style == "deepObject" && value.JObject? {
      forall p | p in QueryValuePairs(key, value, style, explode)
        ensures exists i :: 0 <= i < |value.fields| && p.0 == Bracketed(key, value.fields[i].0)
      {
        DeepObjectPairsFrom(key, value.fields, p);
      }
    }
  }

  /** `serializeQueryValue`: appends the entries for one value. */
  method SerializeQueryValue(sp: SearchParams, key: string, value: Json, style: string, explode: bool)
    modifies sp
    ensures sp.entries == old(sp.entries) + QueryValuePairs(key, value, style, explode)
  {
    if style == "deepObject" && IsPlainObject(value) {
      AppendDeepObject(sp, key, value.fields);
      return;
    }
    if value.JArray? {
      var items := value.items;
      if explode {
        AppendExplodedItems(sp, key, items);
        return;
      }
      sp.Append(key, Join(ItemStrings(items), ","));
      return;
    }
    if IsPlainObject(value) {
      var fields := value.fields;
      if explode {
        AppendExplodedFields(sp, fields);
        return;
      }
      var flat := Flatten(fields);
      sp.Append(key, Join(flat, ","));
      return;
    }
    sp.Append(key, ToJsString(value));
  }

  /** The deepObject loop: one `key[nk]` entry per non-null field. */
  method AppendDeepObject(sp: SearchParams, key: string, fields: seq<(string, Json)>)
    modifies sp
    ensures sp.entries == old(sp.entries) + DeepObjectPairs(key, fields)
  {
    var i := 0;
    while i < |fields|
      invariant 0 <= i <= |fields|
      invariant sp.entries == old(sp.entries) + DeepObjectPairs(key, fields[..i])
    {
      assert fields[..i + 1][..i] == fields[..i];
      if !fields[i].1.JNull? {
        sp.Append(Bracketed(key, fields[i].0), ToJsString(fields[i].1));
      }
      i := i + 1;
    }
    assert fields[..i] == fields;
  }

  /** The exploded array loop: one `key` entry per item. */
  method AppendExplodedItems(sp: SearchParams, key: string, items: seq<Json>)
    modifies sp
    ensures sp.entries == old(sp.entries) + seq(|items|, k requires 0 <= k < |items| => (key, ToJsString(items[k])))
  {
    var i := 0;
    while i < |items|
      invariant 0 <= i <= |items|
      invariant sp.entries == old(sp.entries) + seq(i, k requires 0 <= k < i => (key, ToJsString(items[k])))
    {
      sp.Append(key, ToJsString(items[i]));
      i := i + 1;
    }
  }

  /** The exploded object loop: one entry per field, under the field's own
      name. */
  method AppendExplodedFields(sp: SearchParams, fields: seq<(string, Json)>)
    modifies sp
    ensures sp.entries == old(sp.entries) + seq(|fields|, k requires 0 <= k < |fields| => (fields[k].0, ToJsString(fields[k].1)))
  {
    var i := 0;
    while i < |fields|
      invariant 0 <= i <= |fields|
      invariant sp.entries == old(sp.entries) + seq(i, k requires 0 <= k < i => (fields[k].0, ToJsString(fields[k].1)))
    {
      sp.Append(fields[i].0, ToJsString(fields[i].1));
      i := i + 1;
    }
  }

  /** `[...pathItem.parameters ?? [], ...operation.parameters ?? []]`. */
  function CollectParameters(endpoint: EndpointDefinition): seq<ParameterOrRef> {
    endpoint.pathItem.parameters.GetOr([]) + endpoint.operation.parameters.GetOr([])
  }

  predicate IsQueryParam(p: ParameterOrRef) {
    p.Param? && p.param.location == "query"
  }

  /** The `byName` map: declared query parameters by name, a later
      declaration replacing an earlier one. */
  function QueryParamsByName(ps: seq<ParameterOrRef>): map<string, ParameterObject> {
    if ps == [] then map[]
    else
      var m := QueryParamsByName(ps[..|ps| - 1]);
      var last := ps[|ps| - 1];
      if IsQueryParam(last) then m[last.param.name := last.param] else m
  }

  /** `ps[i]` is the last query parameter named `name`. */
  ghost predicate LastDeclared(ps: seq<ParameterOrRef>, i: int, name: string) {
    && 0 <= i < |ps| && IsQueryParam(ps[i]) && ps[i].param.name == name
    && forall j :: i < j < |ps| ==> !(IsQueryParam(ps[j]) && ps[j].param.name == name)
  }

  /** Some query parameter of `ps` is named `name`. */
  ghost predicate Declares(ps: seq<ParameterOrRef>, name: string) {
    exists i :: 0 <= i < |ps| && IsQueryParam(ps[i]) && ps[i].param.name == name
  }

  lemma DeclaresSnoc(ps: seq<ParameterOrRef>, name: string)
    requires ps != []
    ensures var last := ps[|ps| - 1];
      Declares(ps, name) <==> Declares(ps[..|ps| - 1], name) || (IsQueryParam(last) && last.param.name == name)
  {
    var init := ps[..|ps| - 1];
    if Declares(init, name) {
      var i :| 0 <= i < |init| && IsQueryParam(init[i]) && init[i].param.name == name;
      assert ps[i] == init[i];
    }
    if Declares(ps, name) {
      var i :| 0 <= i < |ps| && IsQueryParam(ps[i]) && ps[i].param.name == name;
      if i < |init| {
        assert ps[i] == init[i];
      }
    }
  }

  /** The entry for `name` is the last query parameter with that name. */
  lemma LastDeclaredSnoc(ps: seq<ParameterOrRef>, i: int, name: string)
    requires ps != [] && LastDeclared(ps[..|ps| - 1], i, name)
    requires var last := ps[|ps| - 1]; !(IsQueryParam(last) && last.param.name == name)
    ensures LastDeclared(ps, i, name) && ps[i] == ps[..|ps| - 1][i]
  {
  }

  /** A name is in the map exactly when some query parameter declares it,
      and it maps to the last such declaration; references and other
      locations never count. */
  lemma {:induction false} QueryParamsByNameLast(ps: seq<ParameterOrRef>, name: string)
    ensures var m := QueryParamsByName(ps);
      && (name in m <==> exists i :: 0 <= i < |ps| && IsQueryParam(ps[i]) && ps[i].param.name == name)
      && (name in m ==> exists i :: LastDeclared(ps, i, name) && ps[i].param == m[name])
  {
    if ps != [] {
      var init := ps[..|ps| - 1];
      var last := ps[|ps| - 1];
      QueryParamsByNameLast(init, name);
      DeclaresSnoc(ps, name);
      assert Declares(init, name) <==> name in QueryParamsByName(init);
      var m := QueryParamsByName(ps);
      if IsQueryParam(last) && last.param.name == name {
        assert LastDeclared(ps, |ps| - 1, name);
      } else if name in m {
        var i :| LastDeclared(init, i, name) && init[i].param == m[name];
        LastDeclaredSnoc(ps, i, name);
      }
    }
  }

  /** The `byName` loop of `appendQueryParams`. */
  method DeclaredQueryParams(endpoint: EndpointDefinition) returns (byName: map<string, ParameterObject>)
    ensures byName == QueryParamsByName(CollectParameters(endpoint))
  {
    var ps := CollectParameters(endpoint);
    byName := map[];
    var i := 0;
    while i < |ps|
      invariant 0 <= i <= |ps|
      invariant byName == QueryParamsByName(ps[..i])
    {
      assert ps[..i + 1][..i] == ps[..i];
      if IsQueryParam(ps[i]) {
        byName := byName[ps[i].param.name := ps[i].param];
      }
      i := i + 1;
    }
    assert ps[..i] == ps;
  }

  /** The style and explode flag a query key is serialised with: the
      declared ones, defaulting to form and exploded; undeclared keys use
      form and exploded. */
  function StyleFor(byName: map<string, ParameterObject>, key: string): (string, bool) {
    if key in byName then (byName[key].style.GetOr("form"), byName[key].explode.GetOr(true))
    else ("form", true)
  }

  /** The entries for one key of the query object: none for `null`. */
  function EntryPairs(byName: map<string, ParameterObject>, entry: (string, Json)): seq<(string, string)> {
    if entry.1.JNull? then []
    else
      var (style, explode) := StyleFor(byName, entry.0);
      QueryValuePairs(entry.0, entry.1, style, explode)
  }

  /** The entries for a whole query object. */
  function QueryPairs(byName: map<string, ParameterObject>, query: Record<Json>): seq<(string, string)> {
    if query == [] then []
    else QueryPairs(byName, query[..|query| - 1]) + EntryPairs(byName, query[|query| - 1])
  }

  /** A query made only of `null` values adds nothing, and the entries of
      two query objects one after the other are the entries of each. */
  lemma {:induction false} QueryPairsConcat(byName: map<string, ParameterObject>, q1: Record<Json>, q2: Record<Json>)
    ensures QueryPairs(byName, q1 + q2) == QueryPairs(byName, q1) + QueryPairs(byName, q2)
    decreases |q2|
  {
    if q2 != [] {
      var q := q1 + q2;
      var init := q2[..|q2| - 1];
      assert q[..|q| - 1] == q1 + init;
      assert q[|q| - 1] == q2[|q2| - 1];
      QueryPairsConcat(byName, q1, init);
      assert QueryPairs(byName, q) == QueryPairs(byName, q1 + init) + EntryPairs(byName, q2[|q2| - 1]);
      assert QueryPairs(byName, q2) == QueryPairs(byName, init) + EntryPairs(byName, q2[|q2| - 1]);
    } else {
      assert q1 + q2 == q1;
    }
  }

  lemma {:induction false} QueryPairsSkipsNull(byName: map<string, ParameterObject>, query: Record<Json>)
    requires forall i :: 0 <= i < |query| ==> query[i].1.JNull?
    ensures QueryPairs(byName, query) == []
  {
    if query != [] {
      QueryPairsSkipsNull(byName, query[..|query| - 1]);
    }
  }

  lemma QueryPairsSnoc(byName: map<string, ParameterObject>, query: Record<Json>, i: nat)
    requires i < |query|
    ensures QueryPairs(byName, query[..i + 1]) == QueryPairs(byName, query[..i]) + EntryPairs(byName, query[i])
  {
    assert query[..i + 1][..i] == query[..i];
  }

  /** One key of the query object: its entries, none for `null`. */
  method AppendEntry(sp: SearchParams, byName: map<string, ParameterObject>, entry: (string, Json))
    modifies sp
    ensures sp.entries == old(sp.entries) + EntryPairs(byName, entry)
  {
    var (key, value) := entry;
    if !value.JNull? {
      var (style, explode) := StyleFor(byName, key);
      SerializeQueryValue(sp, key, value, style, explode);
    } else {
      assert sp.entries + [] == sp.entries;
    }
  }

  /** `appendQueryParams`. */
  lemma AppendStep(byName: map<string, ParameterObject>, query: Record<Json>, i: nat,
                    start: seq<(string, string)>, before: seq<(string, string)>, after: seq<(string, string)>)
    requires i < |query|
    requires before == start + QueryPairs(byName, query[..i])
    requires after == before + EntryPairs(byName, query[i])
    ensures after == start + QueryPairs(byName, query[..i + 1])
  {
    QueryPairsSnoc(byName, query, i);
    AppendAssoc(start, QueryPairs(byName, query[..i]), EntryPairs(byName, query[i]));
  }

  method AppendQueryParams(sp: SearchParams, endpoint: EndpointDefinition, query: Record<Json>)
    modifies sp
    ensures sp.entries == old(sp.entries) + QueryPairs(QueryParamsByName(CollectParameters(endpoint)), query)
  {
    var byName := DeclaredQueryParams(endpoint);
    ghost var start := sp.entries;
    var i := 0;
    while i < |query|
      invariant 0 <= i <= |query|
      invariant sp.entries == start + QueryPairs(byName, query[..i])
    {
      ghost var before := sp.entries;
      AppendEntry(sp, byName, query[i]);
      AppendStep(byName, query, i, start, before, sp.entries);
      i := i + 1;
    }
    assert query[..i] == query;
  }
}
