/** JSON values as the request handlers see them, with JavaScript's notion of
    "truthy" and property access on a parsed value. */
module Json {
  import opened Wrappers

  /** Numbers are modelled as reals (NaN, the infinities and the IEEE-754
      rounding of JavaScript numbers are not). */
  datatype Json =
    | JNull
    | JBool(b: bool)
    | JNum(n: real)
    | JStr(s: string)
    | JArr(items: seq<Json>)
    | JObj(fields: map<string, Json>)

  /** JavaScript truthiness of a value that may be `undefined` (`None`). */
  predicate Truthy(v: Option<Json>)
  {
    match v
    case None => false
    case Some(JNull) => false
    case Some(JBool(b)) => b
    case Some(JNum(n)) => n != 0.0
    case Some(JStr(s)) => s != ""
    case Some(_) => true
  }

  /** `v.key`: a missing property is `undefined`; reading a property of `null`
      throws a `TypeError`; numbers, strings, booleans and arrays have none of
      the fields the handlers read. */
  function Get(v: Json, key: string): (r: Result<Option<Json>>)
    ensures r.Failure? <==> v == JNull
    ensures v.JObj? ==> r == Ok(if key in v.fields then Some(v.fields[key]) else None)
    ensures !v.JObj? && v != JNull ==> r == Ok(None)
  {
    match v
    case JNull => Failure("TypeError")
    case JObj(fields) => Ok(if key in fields then Some(fields[key]) else None)
    case _ => Ok(None)
  }

  /** `v.key` where `v` may itself be `undefined`, which throws like `null`. */
  function Member(v: Option<Json>, key: string): (r: Result<Option<Json>>)
    ensures r.Failure? <==> v.None? || v == Some(JNull)
    ensures v.Some? ==> r == Get(v.value, key)
  {
    if v.None? then Failure("TypeError") else Get(v.value, key)
  }

  /** `a || b` on a possibly undefined value. */
  function OrElse(v: Option<Json>, default: Json): (r: Json)
    ensures Truthy(v) ==> Some(r) == v
    ensures !Truthy(v) ==> r == default
  {
    if Truthy(v) then v.value else default
  }
}
