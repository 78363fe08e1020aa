/**
 * The few JavaScript value rules the stopwatch engines depend on.
 *
 * Every timing field of a stopwatch record (startTime, elapsedTime, frameTime)
 * and every armed alarm time is a JavaScript value that is either `null`,
 * `undefined`, `NaN` or a number of milliseconds. Arithmetic and comparison go
 * through ToNumber: `null` becomes 0, `undefined` becomes NaN, and any NaN
 * operand makes `+`/`-` yield NaN and `<`/`<=` yield false. Loose equality
 * (`==`) does not coerce `null`: `null == undefined` holds, `null == 0` does not.
 * Milliseconds are integers here; fractional timestamps are not modelled.
 */
module Js {

  datatype Option<+T> = None | Some(value: T)

  /** The completion of a JavaScript call: a returned value, or a thrown TypeError. */
  datatype Outcome<+T> = Normal(value: T) | TypeError

  /** A numeric JavaScript field: `null`, `undefined`, `NaN` or a number of milliseconds. */
  datatype JsNumber = Null | Undefined | NaN | Ms(ms: int)

  /** ToNumber, with None standing for NaN. */
  function ToNumber(x: JsNumber): (r: Option<int>)
    ensures r.Some? <==> x.Null? || x.Ms?
    ensures x.Null? ==> r == Some(0)
    ensures x.Ms? ==> r == Some(x.ms)
  {
    match x
    case Null => Some(0)
    case Undefined => None
    case NaN => None
    case Ms(v) => Some(v)
  }

  /** `x + y` on two numeric operands. */
  function Add(x: JsNumber, y: JsNumber): JsNumber
  {
    match (ToNumber(x), ToNumber(y))
    case (Some(a), Some(b)) => Ms(a + b)
    case _ => NaN
  }

  /** `x - y` on two numeric operands. */
  function Sub(x: JsNumber, y: JsNumber): JsNumber
  {
    match (ToNumber(x), ToNumber(y))
    case (Some(a), Some(b)) => Ms(a - b)
    case _ => NaN
  }

  /** `x < y`. */
  predicate Lt(x: JsNumber, y: JsNumber)
  {
    ToNumber(x).Some? && ToNumber(y).Some? && ToNumber(x).value < ToNumber(y).value
  }

  /** `x <= y`. */
  predicate Le(x: JsNumber, y: JsNumber)
  {
    ToNumber(x).Some? && ToNumber(y).Some? && ToNumber(x).value <= ToNumber(y).value
  }

  /** `x == y` (loose equality) between two numeric fields. */
  predicate LooseEq(x: JsNumber, y: JsNumber)
  {
    match (x, y)
    case (Ms(a), Ms(b)) => a == b
    case (Null, Null) => true
    case (Null, Undefined) => true
    case (Undefined, Null) => true
    case (Undefined, Undefined) => true
    case _ => false
  }

  /** `x == null`, which also holds for `undefined`. */
  predicate IsNullish(x: JsNumber)
  {
    x.Null? || x.Undefined?
  }

  /** `x % y` on integers: JavaScript truncates toward zero, Dafny's `%` is Euclidean. */
  function Rem(x: int, y: int): (r: int)
    requires y != 0
    ensures x >= 0 && y > 0 ==> 0 <= r < y && r == x % y
    ensures x < 0 && y > 0 ==> -y < r <= 0
  {
    if x >= 0 then x % y
    else -((-x) % y)
  }

  /** The relational operators only ever succeed on operands ToNumber accepts. */
  lemma LeNumeric(x: JsNumber, y: JsNumber)
    requires Le(x, y)
    ensures (x.Null? || x.Ms?) && (y.Null? || y.Ms?)
  {
  }

  /** Loose equality is symmetric and, on everything but NaN, reflexive. */
  lemma LooseEqFacts(x: JsNumber, y: JsNumber)
    ensures LooseEq(x, y) <==> LooseEq(y, x)
    ensures !x.NaN? ==> LooseEq(x, x)
    ensures !LooseEq(NaN, y)
  {
  }
}
