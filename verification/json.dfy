/** The values `json.loads` can produce. Decoding itself is not modelled: a
    parser receives a `Decoder`, the text-to-value function of the JSON
    library, and only inspects its result. */
module Json {
  import opened Wrappers

  datatype Json =
    | JNull
    | JBool(b: bool)
    | JNumber(n: int)
    | JString(s: string)
    | JArray(items: seq<Json>)
    | JObject(fields: map<string, Json>)

  /** `json.loads`: the decoded value, or `None` when it raises
      `JSONDecodeError`. */
  type Decoder = string -> Option<Json>

  /** Python refuses lists and dicts as dictionary keys (`TypeError:
      unhashable type`). */
  predicate Unhashable(j: Json) {
    j.JArray? || j.JObject?
  }
}
