/**
 * A parsed JSON document, as `serde_json::Value` holds it. Parsing JSON text is not part of
 * this model: the JSON front-end starts from this tree. A JSON number is represented by the
 * `f64` that `as_f64()` yields for it.
 */
module JsonModel {
  import Numbers
  import opened Results

  datatype Json =
    | JNull
    | JBool(b: bool)
    | JNumber(n: Numbers.F64)
    | JString(s: string)
    | JArray(items: seq<Json>)
    | JObject(fields: map<string, Json>)

  /** `serde_json::Value::get(key)`: the member of an object, and nothing for any other JSON value. */
  function Get(j: Json, key: string): Option<Json> {
    if j.JObject? && key in j.fields then Some(j.fields[key]) else None
  }
}
