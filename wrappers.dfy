/** Failure-carrying datatypes shared by the configuration resolver and the
    login client. */
module Wrappers {

  /** A value that may be missing. */
  datatype Option<+T> = None | Some(value: T) {
    function GetOr(default: T): T {
      match this
      case Some(v) => v
      case None => default
    }
  }

  /** A value, or the error that prevented computing it. */
  datatype Result<+T, +E> = Ok(value: T) | Err(error: E)

  /** Success, or the error of an operation that returns nothing else
      (Go's `error`, where `nil` means success). */
  datatype Outcome<+E> = Pass | Fail(error: E)
}
