/** JSON values and the host primitives that the kit treats as black boxes. */
module Json {
  import opened Prelude

  /** `serde_json::Value`; a number is kept as an integer or, when it is not one, as its text. */
  datatype Json =
    | Null
    | Bool(b: bool)
    | Num(n: int)
    | Real(text: string)
    | Str(s: string)
    | Arr(items: seq<Json>)
    | Obj(fields: map<string, Json>)
  {
    /** `Value::get(key)`: `None` on anything but an object. */
    function Get(key: string): Option<Json> {
      if Obj? && key in fields then Some(fields[key]) else None
    }
  }

  /** `Value::as_u64` under `Option`. */
  function AsU64(v: Option<Json>): Option<nat> {
    if v.Some? && v.value.Num? && 0 <= v.value.n <= U64_MAX then Some(v.value.n) else None
  }

  /** `Value::as_str` under `Option`. */
  function AsStr(v: Option<Json>): Option<string> {
    if v.Some? && v.value.Str? then Some(v.value.s) else None
  }

  /** Host primitives whose internals do not matter here.  Every theorem holds for every
      choice of them, except where a lemma states an assumption about one. */
  datatype Host = Host(
    fingerprint: Json -> string,            // SHA-256 of the canonical arguments
    size: Json -> nat,                      // length of the serialized value
    parseFinish: string -> Option<Json>,    // strict decode of a finish message
    isBlank: string -> bool                 // nothing left after trimming
  )
}
