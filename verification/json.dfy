/** The generic JSON value tree `serde_json::Value` that JSON-LD script
    bodies decode to. Parsing itself is a collaborator outside the model. */
module Json {

  /** `serde_json::Value`. Numbers keep their textual form: the extraction
      never inspects them. Objects have unique keys, as serde_json's map. */
  datatype Value =
    | Null
    | Bool(b: bool)
    | Number(repr: string)
    | String(str: string)
    | Array(items: seq<Value>)
    | Object(fields: map<string, Value>)

  /** serde_json's `value[key]`: the field of an object, and `Null` for a
      missing key or for a value that is not an object. */
  function Index(v: Value, key: string): Value {
    if v.Object? && key in v.fields then v.fields[key] else Null
  }
}
