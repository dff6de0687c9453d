/** Option and Result datatypes used throughout the model in place of
    Python's `None` and raised exceptions. */
module Wrappers {

  /** A value that may be absent: a JSON key that is missing, or a Python
      expression that evaluates to `None`. */
  datatype Option<+T> = None | Some(value: T) {

    /** The Python idiom `d.get(key, default)`. */
    function GetOr(default: T): T {
      match this
      case Some(v) => v
      case None => default
    }
  }

  /** The outcome of a handler: a response body, or the error that the
      source raises as an `HTTPException`. */
  datatype Result<+R, +E> = Success(value: R) | Failure(error: E)
}
