/** Option and Result, the two failure-carrying datatypes the handlers use. */
module Wrappers {

  /** A value that may be absent (a missing query parameter, an unknown key). */
  datatype Option<+T> = None | Some(value: T) {

    /** The value, or `default` when absent. */
    function GetOr(default: T): T {
      match this
      case Some(v) => v
      case None => default
    }
  }

  /** The outcome of a step that may fail with an error value. */
  datatype Result<+R, +E> = Success(value: R) | Failure(error: E)
}
