/**
 * The shape of the JSON documents the server writes, as `encoding/json`
 * would build them from the Go structs and their field tags. Text encoding
 * (compact or indented) is left to abstract encoders over this tree.
 */
module Json {
  import opened Fixture

  datatype Json =
    | Null
    | Str(s: string)
    | Arr(items: seq<Json>)
    | Obj(fields: seq<(string, Json)>)
    | Raw(v: Value)   // a fixture value, copied into the output as loaded

  /** The value under `key` in an object, looked up in field order. */
  function Field(j: Json, key: string): (r: Json)
    ensures j.Obj? && |j.fields| >= 1 && j.fields[0].0 == key ==> r == j.fields[0].1
  {
    if j.Obj? then FieldIn(j.fields, key) else Null
  }

  function FieldIn(fields: seq<(string, Json)>, key: string): Json
  {
    if fields == [] then Null
    else if fields[0].0 == key then fields[0].1
    else FieldIn(fields[1..], key)
  }

  /** The keys of an object document, in the order they are written. */
  function Keys(j: Json): seq<string>
  {
    if j.Obj? then seq(|j.fields|, i requires 0 <= i < |j.fields| => j.fields[i].0) else []
  }
}
