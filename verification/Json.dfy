/** JSON values as `serde_json::Value` sees them. Integers are kept apart from
    other numbers because `as_u64` accepts only integers. */
module Json {
  datatype Json =
    | Null
    | Bool(b: bool)
    | Num(n: int)
    | Float(text: string)
    | Str(s: string)
    | Arr(items: seq<Json>)
    | Obj(fields: map<string, Json>)

  /** A line of an NDJSON file: blank after trimming, text that does not parse,
      or a JSON value. */
  datatype Line = Blank | Malformed(text: string) | Value(json: Json)
}
