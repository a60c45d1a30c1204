/**
 * Values read from the form fields.  A numeric field is read with the unary
 * plus of the script (`+input.value`), which yields a number or NaN; NaN is
 * modelled as `None`.  Every comparison with NaN is false, so a handler that
 * receives `None` rejects.
 */
module Inputs {

  datatype Option<+T> = None | Some(value: T)

  /** `pin === +field.value`: strict equality of the stored integer PIN with the parsed number. */
  predicate PinMatches(pin: int, entered: Option<real>)
  {
    entered.Some? && entered.value == pin as real
  }

  /** `Math.floor(field.value)`: NaN stays NaN, a number is rounded down. */
  function Floor(entered: Option<real>): (r: Option<int>)
    ensures r.Some? <==> entered.Some?
    ensures r.Some? ==> r.value as real <= entered.value < r.value as real + 1.0
  {
    match entered
    case None => None
    case Some(x) => Some(x.Floor)
  }
}
