/** Failure-compatible wrappers shared by every page model: `Option` stands for
    JavaScript's `undefined`/`null`-or-value, `Result` for an operation that either
    produces a value or is refused with a user-visible error. */
module Wrappers {

  datatype Option<+T> = None | Some(value: T) {

    /** The value, or `default` when absent (JavaScript's `x ?? default`). */
    function GetOr(default: T): T {
      match this
      case Some(v) => v
      case None => default
    }
  }

  datatype Result<+R, +E> = Success(value: R) | Failure(error: E)
}
