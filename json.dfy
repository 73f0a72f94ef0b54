/** JSON values as the agent's final output and the schema checks see them. */
module Json {

  /** A JSON value. Numbers are integers: fractions and exponents are not
      part of this model. An object maps each key to one value. */
  datatype Json =
    | JNull
    | JBool(b: bool)
    | JNumber(n: int)
    | JString(s: string)
    | JArray(items: seq<Json>)
    | JObject(fields: map<string, Json>)

  /** Two objects that agree on the given keys: each key is in both or in
      neither, with the same value. */
  predicate Agree(m1: map<string, Json>, m2: map<string, Json>, keys: set<string>) {
    forall k :: k in keys ==> (k in m1 <==> k in m2) && (k in m1 ==> m1[k] == m2[k])
  }
}
