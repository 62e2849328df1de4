/**
 * The JavaScript values the extension handles: what JSON.parse can produce,
 * plus `undefined`, the value of a property an object does not have.
 * Numbers are modelled as reals (no NaN, no negative zero, no rounding).
 */
module JsValues {
  datatype JsValue =
    | Undefined
    | Null
    | Bool(b: bool)
    | Num(n: real)
    | Str(s: string)
    | Arr(items: seq<JsValue>)
    | Obj(props: map<string, JsValue>)

  /** ECMAScript ToBoolean (section 7.1.2 of ECMA-262) on these values. */
  predicate Truthy(v: JsValue) {
    match v
    case Undefined => false
    case Null => false
    case Bool(b) => b
    case Num(n) => n != 0.0
    case Str(s) => s != ""
    case Arr(_) => true
    case Obj(_) => true
  }

  /** `a || b`: the left operand itself when it is truthy, else the right one; nothing is coerced. */
  function Or(a: JsValue, b: JsValue): JsValue {
    if Truthy(a) then a else b
  }

  /** `!a`: always a boolean. */
  function Not(a: JsValue): JsValue {
    Bool(!Truthy(a))
  }
}
