/** Optional values, results and the error conditions the engine raises.
    Every `raise ValueError`, `IndexError` or division by zero of the source
    becomes an `Err` carrying one of the `Error` values below. */
module Outcomes {

  datatype Option<+T> = None | Some(value: T) {
    /** `kwargs.get(key, default)`: the value if present, the default otherwise. */
    function GetOr(default: T): T {
      match this
      case Some(v) => v
      case None => default
    }
  }

  datatype Error =
    | UnknownSignalType(signalName: string)   // ValueError("Unknown signal type")
    | UnknownSystemType(systemName: string)   // ValueError("Unknown system type")
    | InvalidExpression                       // ValueError("Invalid custom function")
    | InvalidCoefficients                     // ValueError("Invalid system coefficients")
    | NegativeSampleCount(count: int)         // numpy.linspace with num < 0
    | EmptySequence                           // argmin, max or convolve over an empty array
    | IndexOutOfRange                         // h[0] = ... on an empty array
    | DivisionByZero                          // a quotient with no finite value

  datatype Result<+T> = Ok(value: T) | Err(error: Error)
}
