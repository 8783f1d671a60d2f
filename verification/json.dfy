/** The JSON-shaped values that reach the validators and that the database stores
    in its `Record<string, unknown>` columns (proposal content, organisation settings). */
module JsonValues {
  import opened Wrappers

  /** A JSON value. Numbers are kept as integers: no operation here inspects them. */
  datatype Json =
    | JNull
    | JBool(b: bool)
    | JNumber(n: int)
    | JString(s: string)
    | JArray(items: seq<Json>)
    | JObject(fields: map<string, Json>)

  /** Property access `obj[key]`: a missing key reads as `undefined`, here `None`. */
  function Lookup(fields: map<string, Json>, key: string): (v: Option<Json>)
    ensures v.Some? <==> key in fields
    ensures v.Some? ==> v.value == fields[key]
  {
    if key in fields then Some(fields[key]) else None
  }
}
