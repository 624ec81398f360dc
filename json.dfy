/** A parsed JSON value, as `JSON.parse` produces it. */
module Json {

  /**
   * Numbers are kept as integers and objects as maps (a repeated member name
   * keeps its last value, as `JSON.parse` does).
   */
  datatype Json =
    | JNull
    | JBool(b: bool)
    | JNumber(n: int)
    | JString(s: string)
    | JArray(elems: seq<Json>)
    | JObject(fields: map<string, Json>)
}
