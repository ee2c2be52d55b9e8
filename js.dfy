/**
 * The JavaScript value conventions the service relies on: truthiness of
 * optional values, `Math.round`, and what a `catch` block receives.
 */
module Js {
  import opened Wrappers

  /** A string-valued property is truthy when it is present and non-empty. */
  predicate TruthyText(o: Option<string>)
  {
    o.Some? && o.value != ""
  }

  /** A number-valued property is truthy when it is present and not zero (NaN is `None`). */
  predicate TruthyNumber(o: Option<real>)
  {
    o.Some? && o.value != 0.0
  }

  /** `a || b` on optional strings: `b` unless `a` is truthy. */
  function OrText(a: Option<string>, b: string): (r: string)
    ensures TruthyText(a) ==> r == a.value
    ensures !TruthyText(a) ==> r == b
  {
    if TruthyText(a) then a.value else b
  }

  /** `parsed || default` for the result of `parseInt` (`None` stands for NaN). */
  function IntOr(parsed: Option<int>, default: int): (r: int)
    ensures parsed.Some? && parsed.value != 0 ==> r == parsed.value
    ensures parsed.None? || parsed.value == 0 ==> r == default
  {
    if parsed.Some? && parsed.value != 0 then parsed.value else default
  }

  /** `parsed || default` for the result of `parseFloat` (`None` stands for NaN). */
  function RealOr(parsed: Option<real>, default: real): (r: real)
    ensures TruthyNumber(parsed) ==> r == parsed.value
    ensures !TruthyNumber(parsed) ==> r == default
  {
    if TruthyNumber(parsed) then parsed.value else default
  }

  /** `Math.round`: the nearest integer, halves rounded towards positive infinity. */
  function Round(v: real): (n: int)
    ensures v - 0.5 < n as real <= v + 0.5
  {
    (v + 0.5).Floor
  }

  function Max(a: real, b: real): real { if a >= b then a else b }

  function Min(a: real, b: real): real { if a <= b then a else b }

  function Abs(a: real): real { if a < 0.0 then -a else a }

  /** What a `catch` clause receives: an `Error` object with its message, or any other value. */
  datatype Thrown = ErrorObject(message: string) | OtherValue

  /** `error instanceof Error ? error.message : fallback`. */
  function MessageOf(t: Thrown, fallback: string): (m: string)
    ensures t.ErrorObject? ==> m == t.message
    ensures t.OtherValue? ==> m == fallback
  {
    match t
    case ErrorObject(msg) => msg
    case OtherValue => fallback
  }
}
