/**
 The values `JSON.parse` can produce, and the two JavaScript operations the
 generator applies to them: reading a property and testing truthiness.
 */
module Json {
  import opened Results

  /** A parsed JSON value. Numbers are kept as exact reals: the code only
      ever asks whether one is zero. */
  datatype JValue =
    | JNull
    | JBool(b: bool)
    | JNumber(n: real)
    | JString(s: string)
    | JArray(items: seq<JValue>)
    | JObject(fields: map<string, JValue>)

  /** `v.key` on a value that is not `null`: an own property of an object;
      `undefined` (None) for a missing key and for strings, numbers,
      booleans and arrays, none of which has the generator's keys. */
  function Member(v: JValue, key: string): Option<JValue>
  {
    if v.JObject? && key in v.fields then Some(v.fields[key]) else None
  }

  /** JavaScript truthiness of a possibly-`undefined` value. */
  predicate Truthy(v: Option<JValue>)
  {
    match v
    case None => false
    case Some(JNull) => false
    case Some(JBool(b)) => b
    case Some(JNumber(n)) => n != 0.0
    case Some(JString(s)) => s != ""
    case Some(JArray(_)) => true
    case Some(JObject(_)) => true
  }

  /** `Array.isArray(v)`. */
  predicate IsArray(v: Option<JValue>)
  {
    v.Some? && v.value.JArray?
  }

  /** A property can be truthy only on an object that holds it. */
  lemma TruthyMemberOfObject(v: JValue, key: string)
    requires Truthy(Member(v, key)) || IsArray(Member(v, key))
    ensures v.JObject? && key in v.fields
  {
  }
}
