/** `serde_json::Value`, restricted to integral numbers, with the accessors
    the gateway calls on it. Turning text into values and back is not
    modelled: it is a pair of functions handed in by the caller. */
module Json {
  import opened Wrappers
  import Text

  datatype Json =
    | Null
    | Bool(b: bool)
    | Num(n: int)
    | Str(s: string)
    | Arr(items: seq<Json>)
    | Obj(fields: map<string, Json>)

  /** `serde_json::to_string` and `serde_json::from_str`. */
  datatype JsonText = JsonText(render: Json -> string, parse: string -> Option<Json>)

  /** `Value::get(key)`: the field of an object; nothing for any other value. */
  function Get(j: Json, key: string): Option<Json> {
    if j.Obj? && key in j.fields then Some(j.fields[key]) else None
  }

  /** `Value::as_str` */
  function AsStr(j: Json): Option<string> {
    if j.Str? then Some(j.s) else None
  }

  /** `Value::as_i64`: an integer that fits in 64 signed bits. */
  function AsI64(j: Json): Option<int> {
    if j.Num? && Text.I64_MIN <= j.n <= Text.I64_MAX then Some(j.n) else None
  }

  /** `Value::as_u64`: an integer that fits in 64 unsigned bits. */
  function AsU64(j: Json): Option<nat> {
    if j.Num? && 0 <= j.n <= Text.U64_MAX then Some(j.n) else None
  }

  /** `Value::as_object` */
  function AsObject(j: Json): Option<map<string, Json>> {
    if j.Obj? then Some(j.fields) else None
  }

  /** `Value::as_array` */
  function AsArray(j: Json): Option<seq<Json>> {
    if j.Arr? then Some(j.items) else None
  }

  /** The object's values are all strings (a `.as_str().unwrap()` over them succeeds). */
  predicate StringValued(m: map<string, Json>) {
    forall k | k in m :: m[k].Str?
  }

  /** `.iter().map(|(k, v)| (k, v.as_str().unwrap())).collect()` */
  function StringMap(m: map<string, Json>): (r: map<string, string>)
    requires StringValued(m)
    ensures r.Keys == m.Keys
    ensures forall k | k in r :: m[k] == Str(r[k])
  {
    map k | k in m :: m[k].s
  }
}
