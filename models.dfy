/**
 * The payload shapes of src/models.rs, and the two struct decodings the model
 * uses (what `#[derive(Deserialize)]` accepts for `AuthKey` and
 * `GenerateResponse`). Counts are `usize`, modelled as `nat`.
 */
module Models {
  import opened Wrappers
  import opened Json

  /** A `DateTime<Utc>`: the instant, as whatever totally ordered value the date-time parser yields. */
  type Instant = int

  datatype WorkerVersion = WorkerVersion(hive: string, ollama: string)

  datatype AuthKey = AuthKey(id: string, name: string, role: string, value: string)

  /** `GenerateResponse`: the `result` text, and every other member (`#[serde(flatten)] extra`). */
  datatype GenerateResponse = GenerateResponse(result: string, extra: map<string, Value>)

  type WorkerVersions = map<string, WorkerVersion>
  type WorkerStatuses = map<string, seq<string>>
  type WorkerConnections = map<string, nat>
  type WorkerPings = map<string, seq<Instant>>
  type WorkerTags = map<string, seq<string>>
  type QueueMap = map<string, nat>
  type AuthKeys = seq<AuthKey>

  /** The string member `key` of an object, if it is there and is a string. */
  function StrField(fields: map<string, Value>, key: string): (r: Option<string>)
    ensures r.Some? <==> key in fields && fields[key].Str?
    ensures r.Some? ==> r.value == fields[key].s
  {
    if key in fields && fields[key].Str? then Some(fields[key].s) else None
  }

  /**
   * `serde_json::from_value::<AuthKey>`: an object whose `id`, `name`, `role` and
   * `value` members are strings (other members are ignored), or an array of
   * exactly four strings, taken in field order.
   */
  function DecodeAuthKey(v: Value): (r: Option<AuthKey>)
    ensures v.Object? ==> (r.Some? <==> StrField(v.fields, "id").Some? && StrField(v.fields, "name").Some?
                                        && StrField(v.fields, "role").Some? && StrField(v.fields, "value").Some?)
    ensures v.Object? && r.Some? ==> r.value == AuthKey(v.fields["id"].s, v.fields["name"].s, v.fields["role"].s, v.fields["value"].s)
    ensures v.Array? ==> (r.Some? <==> |v.items| == 4 && forall i :: 0 <= i < 4 ==> v.items[i].Str?)
    ensures !v.Object? && !v.Array? ==> r.None?
  {
    match v
    case Object(fields) =>
      var id, name, role, value := StrField(fields, "id"), StrField(fields, "name"), StrField(fields, "role"), StrField(fields, "value");
      if id.Some? && name.Some? && role.Some? && value.Some? then Some(AuthKey(id.value, name.value, role.value, value.value))
      else None
    case Array(items) =>
      if |items| == 4 && items[0].Str? && items[1].Str? && items[2].Str? && items[3].Str?
      then Some(AuthKey(items[0].s, items[1].s, items[2].s, items[3].s))
      else None
    case _ => None
  }

  /**
   * `serde_json::from_value::<GenerateResponse>`: an object with a string
   * `result` member; the other members are collected into `extra`.
   */
  function DecodeGenerateResponse(v: Value): (r: Option<GenerateResponse>)
    ensures r.Some? <==> v.Object? && StrField(v.fields, "result").Some?
    ensures r.Some? ==> r.value.result == v.fields["result"].s
    ensures r.Some? ==> "result" !in r.value.extra && r.value.extra.Keys + {"result"} == v.fields.Keys
  {
    if v.Object? && StrField(v.fields, "result").Some?
    then Some(GenerateResponse(v.fields["result"].s, v.fields - {"result"}))
    else None
  }
}
