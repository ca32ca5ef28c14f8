/** Helpers shared by the MCP tools (src/mcp/tools/common.ts): finding a
    loaded API by name, and flattening a tool argument into a string map. */
module ToolCommon {
  import opened Wrappers
  import opened JsString
  import opened JsonValue
  import opened Errors
  import opened OpenApi
  import Records
  import LoadSpec

  /** `requireApi`: the registry is keyed by lower-cased name. */
  function RequireApi(registry: LoadSpec.ApiRegistry, apiName: string): Result<LoadedApi> {
    var key := Lower(apiName);
    if key in registry.byName then Ok(registry.byName[key])
    else Err(Error(ApiNotFound, "Unknown API '" + apiName + "'", None))
  }

  /** The lookup ignores ASCII letter case: spelling the name in capitals
      finds the same API. */
  lemma RequireApiIgnoresCase(registry: LoadSpec.ApiRegistry, apiName: string)
    ensures RequireApi(registry, Upper(apiName)).Ok? == RequireApi(registry, apiName).Ok?
    ensures RequireApi(registry, apiName).Ok? ==>
      RequireApi(registry, Upper(apiName)).value == RequireApi(registry, apiName).value
  {
    forall i | 0 <= i < |apiName| ensures Lower(Upper(apiName))[i] == Lower(apiName)[i] {
      assert Upper(apiName)[i] == UpperChar(apiName[i]);
    }
    assert Lower(Upper(apiName)) == Lower(apiName);
  }

  /** On a loaded registry a name is found exactly when some configured API
      has the same lower-cased name; otherwise the error is `API_NOT_FOUND`. */
  lemma RequireApiAfterLoad(configs: seq<ApiConfig>, load: LoadSpec.Loader, apiName: string)
    requires LoadSpec.Registry(configs, load).Ok?
    ensures RequireApi(LoadSpec.Registry(configs, load).value, apiName).Ok? <==>
      exists i :: 0 <= i < |configs| && Lower(configs[i].name) == Lower(apiName)
    ensures RequireApi(LoadSpec.Registry(configs, load).value, apiName).Err? ==>
      RequireApi(LoadSpec.Registry(configs, load).value, apiName).error.code == ApiNotFound
  {
    LoadSpec.RegistryKeys(configs, load);
  }

  /** The string a present, non-null value is stored as; `None` for a value
      that is skipped. */
  function Stringified(v: Option<Json>): Option<string> {
    if v.None? || v.value.JNull? then None else Some(ToJsString(v.value))
  }

  /** The map `toStringMap` builds from the entries of an object. */
  function StringMapOf(fields: Records.Record<Json>): Records.Record<string>
    decreases |fields|
  {
    if fields == [] then []
    else
      var prev := StringMapOf(fields[..|fields| - 1]);
      var e := fields[|fields| - 1];
      if e.1.JNull? then prev else Records.Set(prev, e.0, ToJsString(e.1))
  }

  /** `toStringMap`: an absent object gives the empty map; otherwise each
      entry that is not null is stored under its key as `String(item)`. */
  method ToStringMap(value: Option<Records.Record<Json>>) returns (out: Records.Record<string>)
    ensures out == if value.None? then [] else StringMapOf(value.value)
  {
    if value.None? {
      return [];
    }
    var fields := value.value;
    out := [];
    for i := 0 to |fields|
      invariant out == StringMapOf(fields[..i])
    {
      assert fields[..i + 1][..i] == fields[..i];
      var (key, item) := fields[i];
      if item.JNull? {
        continue;
      }
      out := Records.Set(out, key, ToJsString(item));
    }
    assert fields[..|fields|] == fields;
  }

  /** Every key of the object that holds a non-null value is kept with its
      string form; a null-valued or absent key is absent from the map. */
  lemma {:induction false} StringMapGet(fields: Records.Record<Json>, k: string)
    requires Records.UniqueKeys(fields)
    ensures Records.Get(StringMapOf(fields), k) == Stringified(Records.Get(fields, k))
    decreases |fields|
  {
    if fields != [] {
      var init := fields[..|fields| - 1];
      var e := fields[|fields| - 1];
      assert fields == init + [e];
      assert Records.UniqueKeys(init);
      assert e.0 !in Records.Keys(init);
      StringMapGet(init, k);
      Records.GetSnoc(init, e, k);
      if !e.1.JNull? {
        Records.SetGet(StringMapOf(init), e.0, ToJsString(e.1), k);
      }
    }
  }

  /** The keys of the map are among the object's keys, and are exactly
      those whose value is not null. */
  lemma StringMapKeys(fields: Records.Record<Json>, k: string)
    requires Records.UniqueKeys(fields)
    ensures k in Records.Keys(StringMapOf(fields)) <==> Records.Get(fields, k).Some? && !Records.Get(fields, k).value.JNull?
    ensures k in Records.Keys(StringMapOf(fields)) ==> k in Records.Keys(fields)
  {
    StringMapGet(fields, k);
  }
}
