/** Failure-compatible wrappers: `Option` stands for a value that may be missing
    (a `None` in a profile dictionary, a NaN cell in a data frame), `Result` for
    an operation that raises in the original program. */
module Wrappers {

  datatype Option<+T> = None | Some(value: T) {

    /** The value, or `default` when it is missing (a `fillna`). */
    function GetOr(default: T): T {
      match this
      case Some(v) => v
      case None => default
    }
  }

  datatype Result<+R, +E> = Success(value: R) | Failure(error: E)
}
