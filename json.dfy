/** The decoded JSON tree the client navigates, with the accessors of
    `serde_json::Value` it uses: indexing by a key, `as_str`, `as_i64` and
    `as_array`. */
module Json {
  import opened Results

  /** A number that is not an integer (a float in serde_json) is kept only as
      a constructor that `as_i64` rejects. */
  datatype Json =
    | JNull
    | JBool(b: bool)
    | JInt(i: int)
    | JNonIntNum
    | JStr(s: string)
    | JArr(items: seq<Json>)
    | JObj(fields: map<string, Json>)

  const I64_MIN: int := -0x8000_0000_0000_0000
  const I64_MAX: int := 0x7FFF_FFFF_FFFF_FFFF

  /** `v[key]`: the member `key` of an object, and `Null` when `v` is not an
      object or has no such member. */
  function Index(v: Json, key: string): Json {
    if v.JObj? && key in v.fields then v.fields[key] else JNull
  }

  function AsStr(v: Json): Option<string> {
    if v.JStr? then Some(v.s) else None
  }

  function AsArray(v: Json): Option<seq<Json>> {
    if v.JArr? then Some(v.items) else None
  }

  /** `v` is an integer that fits in an `i64`. */
  predicate IsI64(v: Json) {
    v.JInt? && I64_MIN <= v.i <= I64_MAX
  }

  function AsI64(v: Json): (r: Option<int>)
    ensures r.Some? <==> IsI64(v)
    ensures r.Some? ==> I64_MIN <= r.value <= I64_MAX && v == JInt(r.value)
  {
    if IsI64(v) then Some(v.i) else None
  }
}
