/**
 * The few JavaScript value semantics the backend and the report page rely on:
 * optional values, JSON values, truthiness of optional strings and `Math.round`.
 * Numbers are exact rationals (`real`); IEEE-754 rounding is not modelled.
 */
module Js {

  /** An optional value: `undefined`/`null` or a value. */
  datatype Option<+T> = None | Some(value: T) {
    /** `x ?? default` */
    function GetOr(default: T): T {
      match this
      case Some(v) => v
      case None => default
    }
  }

  /** A JSON value, as produced by `JSON.parse` and consumed by `JSON.stringify`. */
  datatype Json =
    | JNull
    | JBool(b: bool)
    | JNum(n: real)
    | JStr(s: string)
    | JArr(items: seq<Json>)
    | JObj(fields: map<string, Json>)

  /** JavaScript truthiness of an optional string: absent and "" are both falsy. */
  predicate Truthy(s: Option<string>) {
    s.Some? && s.value != ""
  }

  /**
   * `Math.round`: the nearest integer, a half rounded towards +infinity.
   * The two bounds pin the result down uniquely (see MathRoundUnique).
   */
  function MathRound(x: real): (r: int)
    ensures x - 0.5 < r as real <= x + 0.5
  {
    (x + 0.5).Floor
  }

  /** Any integer within the rounding window of `x` is `Math.round(x)`. */
  lemma MathRoundUnique(x: real, k: int)
    requires x - 0.5 < k as real <= x + 0.5
    ensures MathRound(x) == k
  {
  }

  /** `Math.round` of a value that is already an integer is that integer. */
  lemma MathRoundOfInteger(k: int)
    ensures MathRound(k as real) == k
  {
    MathRoundUnique(k as real, k);
  }

  /** `Math.round` never decreases when its argument grows. */
  lemma MathRoundMonotone(x: real, y: real)
    requires x <= y
    ensures MathRound(x) <= MathRound(y)
  {
  }
}
