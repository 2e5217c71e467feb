/** Untyped values, as payloads, metadata and decoded JSON carry them. */
module JsonValues {
  import opened Text

  /** An untyped value: a payload entry, a query value or decoded JSON. */
  datatype Json =
    | Null
    | Bool(flag: bool)
    | Int(number: int)
    | Float(fraction: real)
    | Str(text: string)
    | Arr(items: seq<Json>)
    | Obj(fields: map<string, Json>)

  /** `d.get(key)`, where a missing key and an explicit null are the same. */
  function Field(fields: map<string, Json>, key: string): Json {
    FieldOr(fields, key, Null)
  }

  function FieldOr(fields: map<string, Json>, key: string, missing: Json): Json {
    if key in fields then fields[key] else missing
  }

  predicate NonBlankText(value: Json) {
    value.Str? && !Blank(value.text)
  }
}
