/**
 * The untyped JavaScript values that arrive in request bodies, reduced to what the
 * route handlers look at: whether a value is present, whether it is truthy, and what
 * `Number(...)` makes of it.
 */
module JsValues {
  import opened Wrappers

  /**
   * The result of JavaScript's `Number(v)` on a request value: an (integral) number,
   * or `NaN` when the value does not read as a number.
   */
  datatype Number = Finite(value: int) | NaN

  /** A JSON string or number kept verbatim (the `service` field of an appointment). */
  datatype Scalar = Num(n: int) | Str(s: string)

  /** JavaScript truthiness of an optional string: present and not `""`. */
  predicate TruthyText(v: Option<string>) {
    v.Some? && v.value != ""
  }

  /**
   * Truthiness of a request value given by its `Number` reading: absent values and
   * those reading as 0 are falsy; a value reading as `NaN` arrived as a non-empty
   * non-numeric string or an object, and is truthy.
   */
  predicate TruthyNumber(v: Option<Number>) {
    v.Some? && v.value != Finite(0)
  }

  /** Truthiness of an optional scalar: present, not `0` and not `""`. */
  predicate TruthyScalar(v: Option<Scalar>) {
    match v
    case None => false
    case Some(Num(n)) => n != 0
    case Some(Str(s)) => s != ""
  }
}
