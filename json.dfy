/** Semi-structured documents as the client sees them after parsing: an
    `ObjectNode` is a Go `map[string]interface{}` whose values are JSON values. */
module Json {
  import opened Wrappers

  datatype Json =
    | Null
    | Bool(b: bool)
    | Number(n: real)
    | String(s: string)
    | Array(items: seq<Json>)
    | Object(fields: map<string, Json>)

  type ObjectNode = map<string, Json>

  /** `jsonGetAsText`: the string stored under `key`, or "" when there is none. */
  function JsonGetAsText(doc: ObjectNode, key: string): (text: string)
    ensures text != "" ==> key in doc && doc[key] == String(text)
  {
    if key in doc && doc[key].String? then doc[key].s else ""
  }

  /** `jsonGetAsTextPointer`: like `JsonGetAsText`, but nil when there is no string under `key`. */
  function JsonGetAsTextPointer(doc: ObjectNode, key: string): (text: Option<string>)
    ensures text.Some? <==> key in doc && doc[key].String?
    ensures text.Some? ==> text.value == JsonGetAsText(doc, key)
  {
    if key in doc && doc[key].String? then Some(doc[key].s) else None
  }
}
