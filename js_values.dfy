/** The dynamically typed values the JavaScript code passes around: request
    bodies, server replies and cart entries. Arrays are not values here; where
    the code handles a list, the model carries a `seq` instead. */
module JsValues {
  import opened Wrappers
  import opened Text
  import opened JsNumbers

  /** A JSON value. Numbers are finite: JSON cannot carry NaN. */
  datatype JsValue =
    | Undefined
    | Null
    | Bool(b: bool)
    | Num(n: real)
    | Str(s: string)
    | Obj(fields: map<string, JsValue>)

  /** JavaScript truthiness: `undefined`, `null`, `false`, 0 and `""` are falsy. */
  predicate Truthy(v: JsValue) {
    match v
    case Undefined => false
    case Null => false
    case Bool(b) => b
    case Num(n) => n != 0.0
    case Str(s) => s != ""
    case Obj(_) => true
  }

  /** `a || b`. */
  function Or(a: JsValue, b: JsValue): (r: JsValue)
    ensures Truthy(a) ==> r == a
    ensures !Truthy(a) ==> r == b
  {
    if Truthy(a) then a else b
  }

  /** `a || b` is truthy exactly when one side is, and a chain of `||` picks
      its first truthy value whichever way it is grouped. */
  lemma OrTruthy(a: JsValue, b: JsValue, c: JsValue)
    ensures Truthy(Or(a, b)) <==> Truthy(a) || Truthy(b)
    ensures Or(Or(a, b), c) == Or(a, Or(b, c))
    ensures Truthy(b) ==> Truthy(Or(a, b))
  {
  }

  /** `v == null`: true for `undefined` and `null` alike. */
  predicate IsNullish(v: JsValue) { v.Undefined? || v.Null? }

  /** `v.key` for a key that is not a property every value inherits; reading a
      field of anything but an object gives `undefined`. */
  function Get(v: JsValue, key: string): (r: JsValue)
    ensures !v.Obj? ==> r == Undefined
    ensures v.Obj? && key in v.fields ==> r == v.fields[key]
  {
    if v.Obj? && key in v.fields then v.fields[key] else Undefined
  }

  /** `a === b`. Two objects are never the same reference here, since the
      model has no object identity. */
  predicate StrictEquals(a: JsValue, b: JsValue) {
    !a.Obj? && a == b
  }

  predicate IsInteger(x: real) { x == x.Floor as real }

  /** `String(v)` for every value whose text the model can write: all but
      numbers with a fractional part. */
  predicate HasText(v: JsValue) { !v.Num? || IsInteger(v.n) }

  /** `String(v)`. */
  function ToStr(v: JsValue): (r: string)
    requires HasText(v)
    ensures v.Str? ==> r == v.s
  {
    match v
    case Undefined => "undefined"
    case Null => "null"
    case Bool(b) => if b then "true" else "false"
    case Num(n) => IntToText(n.Floor)
    case Str(s) => s
    case Obj(_) => "[object Object]"
  }

  /** `String(v)` where it is modelled, used as an object key. */
  function KeyText(v: JsValue): Option<string> {
    if HasText(v) then Some(ToStr(v)) else None
  }

  /** The unary `+v` / `Number(v)` conversion applied by arithmetic. */
  function ToNumeric(v: JsValue): (r: Numeric)
    ensures v.Num? ==> r == Finite(v.n)
    ensures v.Undefined? || v.Obj? ==> r == NaN
  {
    match v
    case Undefined => NaN
    case Null => Finite(0.0)
    case Bool(b) => Finite(if b then 1.0 else 0.0)
    case Num(n) => Finite(n)
    case Str(s) => ToNumber(s)
    case Obj(_) => NaN
  }
}
