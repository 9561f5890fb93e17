/**
 * The JSON values the validator inspects, with JavaScript's truthiness
 * and property access. Parsing itself is not modelled: a parser is passed
 * in as a function from text to an optional value.
 */
module Json {
  import opened Wrappers

  /** A parsed JSON value; numbers are restricted to integers. */
  datatype JsonValue =
    | JNull
    | JBool(b: bool)
    | JNum(n: int)
    | JStr(s: string)
    | JArr(items: seq<JsonValue>)
    | JObj(fields: map<string, JsonValue>)

  /** `obj.key` on a non-null value: present only on objects that hold the key. */
  function Field(v: JsonValue, key: string): (r: Option<JsonValue>)
    ensures r.Some? <==> v.JObj? && key in v.fields
    ensures r.Some? ==> r.value == v.fields[key]
  {
    if v.JObj? && key in v.fields then Some(v.fields[key]) else None
  }

  /** JavaScript truthiness; an absent property reads as `undefined`, which is falsy. */
  predicate Truthy(v: Option<JsonValue>) {
    match v
    case None => false
    case Some(JNull) => false
    case Some(JBool(b)) => b
    case Some(JNum(n)) => n != 0
    case Some(JStr(s)) => s != ""
    case Some(JArr(_)) => true
    case Some(JObj(_)) => true
  }

  /** Exactly null, false, 0, "" and undefined are falsy. */
  lemma FalsyValues(v: Option<JsonValue>)
    ensures !Truthy(v) <==> v == None || v == Some(JNull) || v == Some(JBool(false)) || v == Some(JNum(0)) || v == Some(JStr(""))
  {
  }
}
