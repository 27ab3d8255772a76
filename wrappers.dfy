/** Optional values and success/failure results, standing in for the
    optional fields (`x?: T`) and the thrown errors of the marketplace code. */
module Wrappers {

  datatype Option<+T> = None | Some(value: T) {
    /** The value, or `default` when absent (the `x || default` idiom). */
    function GetOr(default: T): T {
      match this
      case Some(v) => v
      case None => default
    }
  }

  /** The outcome of an operation that yields a value or throws. */
  datatype Result<+T, +E> = Ok(value: T) | Err(error: E)

  /** The outcome of an operation that yields nothing or throws. */
  datatype Outcome<+E> = Pass | Fail(error: E)
}
