/** Option, Result and Outcome: the values that stand for Python's `None`,
    for a call that either returns or raises, and for a step that either
    completes or raises. */
module Wrappers {

  datatype Option<+T> = None | Some(value: T) {
    /** The value, or `default` when there is none (Python's `x if x is not None else default`). */
    function GetOr(default: T): T {
      match this
      case Some(v) => v
      case None => default
    }
  }

  /** The outcome of a call that returns a value or raises an exception. */
  datatype Result<+T, +E> = Ok(value: T) | Err(error: E)

  /** The outcome of a step that returns nothing or raises an exception. */
  datatype Outcome<+E> = Pass | Fail(error: E)
}
