/** A decoded JSON document, as Go's encoding/json produces it when it decodes into
    `interface{}`: objects become `map[string]interface{}`, arrays `[]interface{}`. */
module Json {
  import opened Wrappers

  datatype Json =
    | JNull
    | JBool(b: bool)
    | JNumber(n: real)
    | JString(str: string)
    | JArray(items: seq<Json>)
    | JObject(fields: map<string, Json>)

  /** A decoded JSON object, Go's `map[string]interface{}`. */
  type Object = map<string, Json>

  /** Go's `object[key] != nil`: the key is present and its value is not JSON null
      (a null member decodes to a nil interface value). */
  predicate IsSet(obj: Object, key: string)
  {
    key in obj && obj[key] != JNull
  }

  /** responseutils.GetJSONObject: the nested object stored under `key`, or nil when the key is
      absent or null. A non-object value there makes the Go type assertion panic; callers must
      exclude it. */
  function GetJSONObject(obj: Object, key: string): (r: Option<Object>)
    requires IsSet(obj, key) ==> obj[key].JObject?
    ensures r.Some? <==> IsSet(obj, key)
    ensures r.Some? ==> obj[key] == JObject(r.value)
  {
    if IsSet(obj, key) then Some(obj[key].fields) else None
  }
}
