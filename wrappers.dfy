/** Option, the value-or-absent type used wherever the source has `null`,
    `undefined` or a failed call, and Result, a value or a thrown error. */
module Wrappers {

  datatype Option<+T> = None | Some(value: T) {

    /** The value, or `default` when absent (the source's `x ?? default`). */
    function GetOr(default: T): T {
      match this
      case Some(v) => v
      case None => default
    }
  }

  /** A value, or the message of the `Error` thrown instead. */
  datatype Result<+T> = Success(value: T) | Failure(error: string)
}
