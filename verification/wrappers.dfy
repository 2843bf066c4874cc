/** Failure-carrying wrappers used throughout the model: `Option` for Python's
    `None`-or-value returns and `Result` for an operation that either yields a
    value or raises. */
module Wrappers {

  datatype Option<+T> = None | Some(value: T) {

    /** The wrapped value, or `default` for `None` (Python's `x if x is not None else default`). */
    function GetOr(default: T): T {
      match this
      case Some(v) => v
      case None => default
    }
  }

  /** `Success` is a normal return; `Failure` carries the text of the exception raised. */
  datatype Result<+R, +E> = Success(value: R) | Failure(error: E)
}
