/**
 * The JSON value type of serde_json (`serde_json::Value`), as the model needs it.
 * Objects are maps from keys to values (serde_json's default map keeps one value
 * per key). JSON text syntax is not modelled: decoding and rendering are passed in
 * as functions where they are needed.
 */
module Json {
  import opened Wrappers

  datatype Value =
    | Null
    | Bool(b: bool)
    | Number(n: real)
    | Str(s: string)
    | Array(items: seq<Value>)
    | Object(fields: map<string, Value>)

  /** `Value::get(key)`: the member of an object, and nothing for every other kind of value. */
  function Get(v: Value, key: string): (r: Option<Value>)
    ensures r.Some? <==> v.Object? && key in v.fields
    ensures r.Some? ==> r.value == v.fields[key]
  {
    match v
    case Object(fields) => if key in fields then Some(fields[key]) else None
    case _ => None
  }

  /** `Value::as_str()`. */
  function AsStr(v: Value): (r: Option<string>)
    ensures r.Some? <==> v.Str?
    ensures r.Some? ==> r.value == v.s
  {
    if v.Str? then Some(v.s) else None
  }

  /** `Value::as_bool()`. */
  function AsBool(v: Value): (r: Option<bool>)
    ensures r.Some? <==> v.Bool?
    ensures r.Some? ==> r.value == v.b
  {
    if v.Bool? then Some(v.b) else None
  }
}
