/** JSON values as the bridge receives them after `JSON.parse` (numbers are
    modelled as integers), and JavaScript's `String(v)` conversion. */
module JsonValue {
  import opened Wrappers
  import opened JsString

  datatype Json =
    | JNull
    | JBool(b: bool)
    | JNumber(n: int)
    | JString(s: string)
    | JArray(items: seq<Json>)
    | JObject(fields: seq<(string, Json)>)

  /** `String(v)`: arrays join their elements with commas (`null` elements
      print as nothing) and every object prints as `[object Object]`. */
  function ToJsString(v: Json): string
    decreases v
  {
    match v
    case JNull => "null"
    case JBool(b) => if b then "true" else "false"
    case JNumber(n) => IntToString(n)
    case JString(s) => s
    case JArray(items) =>
      Join(seq(|items|, i requires 0 <= i < |items| =>
        if items[i].JNull? then "" else ToJsString(items[i])), ",")
    case JObject(_) => "[object Object]"
  }

  /** `isPlainObject`: a truthy non-array object. */
  predicate IsPlainObject(v: Json) {
    v.JObject?
  }
}
