/**
 * The JavaScript values a ride request body can carry, and the two
 * pieces of JavaScript semantics the ride validator depends on: the
 * `typeof` test and the relational operators `<` and `>` on numbers,
 * where every comparison with NaN is false.
 */
module JsValues {

  datatype Option<+T> = None | Some(value: T)

  /** An IEEE-754 double as far as comparisons can tell: a finite value,
      one of the two infinities, or NaN. Rounding is not modelled. */
  datatype Num = Finite(r: real) | PosInfinity | NegInfinity | NaN

  /** A value of a parsed JSON request body; a field that is absent
      reads as `undefined`. */
  datatype JsValue =
    | Undefined
    | Null
    | Bool(b: bool)
    | Number(n: Num)
    | Str(s: string)
    | ArrayOrObject

  /** The result of JavaScript's `typeof` operator. */
  function TypeOf(v: JsValue): (r: string)
    ensures r == "string" <==> v.Str?
    ensures r == "number" <==> v.Number?
  {
    match v
    case Undefined => "undefined"
    case Null => "object"
    case Bool(_) => "boolean"
    case Number(_) => "number"
    case Str(_) => "string"
    case ArrayOrObject => "object"
  }

  /** JavaScript `x < bound` for a number `x` and a finite bound. */
  predicate Less(x: Num, bound: real)
    ensures Less(x, bound) ==> !x.NaN?
  {
    match x
    case Finite(r) => r < bound
    case NegInfinity => true
    case PosInfinity => false
    case NaN => false
  }

  /** JavaScript `x > bound` for a number `x` and a finite bound. */
  predicate Greater(x: Num, bound: real)
    ensures Greater(x, bound) ==> !x.NaN?
  {
    match x
    case Finite(r) => r > bound
    case NegInfinity => false
    case PosInfinity => true
    case NaN => false
  }

  /** A comparison with NaN is false, whatever the bound. */
  lemma NaNComparesFalse(bound: real)
    ensures !Less(NaN, bound) && !Greater(NaN, bound)
  {
  }

  /** Neither comparison holds exactly when the number lies in the closed
      interval [lo, hi] or is NaN. */
  lemma NotOutsideIsClosedInterval(x: Num, lo: real, hi: real)
    ensures !(Less(x, lo) || Greater(x, hi)) <==> x.NaN? || (x.Finite? && lo <= x.r <= hi)
  {
  }

  /** What `Number(v)` gives, where the result does not depend on parsing
      text: `undefined` is NaN, `null` and `false` are 0, `true` is 1 and
      a number is itself. Strings, arrays and objects are converted by
      text parsing, which is not modelled, so they give None. */
  function KnownNumber(v: JsValue): (r: Option<Num>)
    ensures r.Some? <==> !(v.Str? || v.ArrayOrObject?)
    ensures v.Number? ==> r == Some(v.n)
  {
    match v
    case Undefined => Some(NaN)
    case Null => Some(Finite(0.0))
    case Bool(b) => Some(if b then Finite(1.0) else Finite(0.0))
    case Number(n) => Some(n)
    case Str(_) => None
    case ArrayOrObject => None
  }

  /** `n` can be the result of `Number(v)`. */
  predicate CoercesTo(v: JsValue, n: Num)
  {
    KnownNumber(v).Some? ==> n == KnownNumber(v).value
  }

  /** A missing field coerces to NaN and to nothing else. */
  lemma UndefinedCoercesToNaN(n: Num)
    ensures CoercesTo(Undefined, n) <==> n.NaN?
  {
  }
}
