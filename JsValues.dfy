/** The few JavaScript value semantics the profile form depends on: values
    that may be missing (`undefined` or `null`), numbers (restricted to whole
    numbers and NaN), and truthiness, which drives every `a || b` fallback in the form. */
module JsValues {

  /** A value that may be missing: JavaScript's `undefined`/`null` is `None`. */
  datatype Option<+T> = None | Some(value: T)

  /** A JavaScript number as this model represents it: a non-negative whole
      number, or NaN. */
  datatype Num = Int(n: nat) | NaN

  /** A number is truthy unless it is 0 or NaN. */
  predicate NumTruthy(x: Num) {
    x.Int? && x.n != 0
  }

  /** A possibly missing string is truthy when it is present and not empty. */
  predicate StrTruthy(v: Option<string>) {
    v.Some? && v.value != ""
  }

  /** `v || d` where `v` is a possibly missing string. */
  function StrOr(v: Option<string>, d: string): string {
    if StrTruthy(v) then v.value else d
  }
}
