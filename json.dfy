/**
 * The untyped values a language-model reply decodes to, with the few Python
 * operations the handlers apply to them: truthiness, `len()` and `dict.get`.
 * Numbers are integers; fractional JSON numbers are not modelled.
 */
module Json {
  import opened Wrappers

  datatype Json =
    | JNull
    | JBool(b: bool)
    | JNum(n: int)
    | JStr(s: string)
    | JArr(items: seq<Json>)
    | JObj(fields: map<string, Json>)

  /**
   * The Python exceptions the handlers tell apart: `ValueError` (raised by the
   * decision extractor) and every other exception.
   */
  datatype Fault = ValueError | OtherError

  /** Python's `bool(v)`: None, False, 0, and empty strings, lists and dicts are false. */
  predicate Truthy(v: Json)
  {
    match v
    case JNull => false
    case JBool(b) => b
    case JNum(n) => n != 0
    case JStr(s) => s != ""
    case JArr(items) => items != []
    case JObj(fields) => fields != map[]
  }

  /** Python's `len(v)`; `None` where Python raises TypeError. */
  function Len(v: Json): (r: Option<nat>)
    ensures r.Some? <==> (v.JStr? || v.JArr? || v.JObj?)
    ensures r.Some? ==> (r.value > 0 <==> Truthy(v))
  {
    match v
    case JStr(s) => Some(|s|)
    case JArr(items) => Some(|items|)
    case JObj(fields) => Some(|fields|)
    case _ => None
  }

  /** Python's `d.get(key, default)`. */
  function Get(d: map<string, Json>, key: string, default: Json): (r: Json)
    ensures key in d ==> r == d[key]
    ensures key !in d ==> r == default
  {
    if key in d then d[key] else default
  }

  /** Python's `v[:2]` succeeds on strings and lists and raises on everything else. */
  predicate Sliceable(v: Json)
  {
    v.JStr? || v.JArr?
  }
}
