/** The ways a fairness measure can fail, and the result type that carries them.
    Python raises exceptions; numpy, on some degenerate inputs, returns NaN with a
    RuntimeWarning instead of raising. Both are explicit error values here. */
module Outcomes {

  datatype Error =
    | ValueError         // too few scores, or min/max/concatenate of nothing
    | ZeroDivisionError  // a denominator that is exactly zero
    | TypeError          // wrong container type, or scores that are not integer-typed
    | IndexError         // a score that is no index of the score accumulator
    | AttributeError     // a plain list asked for its numpy dtype
    | NotANumber         // numpy's NaN result (0/0, mean of an empty array)

  datatype Result<T> = Ok(value: T) | Err(error: Error)

  /** The outcome of a check that either passes or raises. */
  datatype Check = Pass | Fail(error: Error)
}
