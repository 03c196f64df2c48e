/** A parsed JSON value, as `Response.json()` delivers it. */
module Document {

  /** An object maps each member name to its value; `JSON.parse` keeps the
      last of several members with the same name, so a map is exact. */
  datatype Json =
    | JNull
    | JBool(b: bool)
    | JNumber(n: real)
    | JString(s: string)
    | JArray(items: seq<Json>)
    | JObject(members: map<string, Json>)
}
