/** JavaScript values as the relational operator `<` sees them. */
module JsNumbers {

  /** A value that can reach `value < stop.value` in the size classifier: a number
      (finite or infinite), NaN, or a missing attribute read as `null` or `undefined`.
      A finite double is represented by its exact real value. */
  datatype JsValue =
    | Finite(r: real)
    | PosInfinity
    | NegInfinity
    | NaN
    | Null
    | Undefined

  /** `v < t` for a finite number `t` (ECMAScript's abstract relational comparison):
      `null` converts to 0, `undefined` converts to NaN, and NaN is less than nothing. */
  predicate LessThan(v: JsValue, t: real)
    ensures LessThan(v, t) ==> v.Finite? || v.NegInfinity? || v.Null?
    ensures v.NegInfinity? ==> LessThan(v, t)
    ensures v.Null? ==> (LessThan(v, t) <==> 0.0 < t)
  {
    match v
    case Finite(r) => r < t
    case PosInfinity => false
    case NegInfinity => true
    case NaN => false
    case Null => 0.0 < t
    case Undefined => false
  }
}
