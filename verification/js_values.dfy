/**
 * JavaScript values as the serverless function and the maintenance script see
 * them: the result of `JSON.parse`, the field values of an Airtable record, and
 * JavaScript's notion of truthiness that `!x` and `x || y` rely on.
 */
module JsValues {

  /** A value that may be `undefined`: `None` is `undefined`, `Some(v)` is `v`. */
  datatype Option<+T> = None | Some(value: T)

  /**
   * A JSON value. Numbers are reals: `JSON.parse` never yields NaN, and the
   * infinities it yields for huge literals are truthy like every other
   * non-zero number, so nothing below depends on them.
   */
  datatype Json =
    | JNull
    | JBool(b: bool)
    | JNum(n: real)
    | JStr(s: string)
    | JArr(items: seq<Json>)
    | JObj(props: map<string, Json>)

  /** JavaScript truthiness; `undefined` (`None`) is falsy. */
  predicate Truthy(v: Option<Json>)
  {
    match v
    case None => false
    case Some(JNull) => false
    case Some(JBool(b)) => b
    case Some(JNum(n)) => n != 0.0
    case Some(JStr(s)) => s != ""
    case Some(JArr(_)) => true
    case Some(JObj(_)) => true
  }

  /** Property read on a plain object: a missing key reads as `undefined`. */
  function Get(props: map<string, Json>, key: string): (v: Option<Json>)
    ensures v.Some? <==> key in props
    ensures v.Some? ==> v.value == props[key]
  {
    if key in props then Some(props[key]) else None
  }

  /**
   * Whether converting `v` to a string, as a template literal's `${v}` does,
   * throws a TypeError. An object that has its own `toString` member throws:
   * that member is a JSON value, so it cannot be called, and the inherited
   * `valueOf` returns the object itself, which is not a primitive. An array
   * converts through `join(",")`, so it throws when one of its elements does.
   * Every other JSON value converts.
   */
  predicate ToStringThrows(v: Json)
  {
    match v
    case JObj(props) => "toString" in props
    case JArr(items) => exists i :: 0 <= i < |items| && ToStringThrows(items[i])
    case _ => false
  }

  /** The `v || fallback` operator. */
  function OrElse(v: Option<Json>, fallback: Json): (r: Json)
    ensures Truthy(v) ==> Some(r) == v
    ensures !Truthy(v) ==> r == fallback
  {
    if Truthy(v) then v.value else fallback
  }
}
