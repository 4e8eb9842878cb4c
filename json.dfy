/** Parsed JSON values, as `JSON.parse` yields them. */
module Json {
  import opened Wrappers

  /** Numbers are never inspected by the model, so an integer payload stands for any number. */
  datatype Json =
    | JNull
    | JBool(b: bool)
    | JNum(n: int)
    | JStr(str: string)
    | JArr(elems: seq<Json>)
    | JObj(fields: map<string, Json>)

  /** Property access `v[key]`; `None` is `undefined` (a missing key, or a value that is not an object). */
  function Get(v: Json, key: string): Option<Json> {
    if v.JObj? && key in v.fields then Some(v.fields[key]) else None
  }
}
