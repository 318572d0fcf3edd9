/** `Option` and `Result`, shared by every module of the model. */
module Wrappers {

  /** A value that may be absent: SQL NULL, a missing dictionary key, a pandas NaN. */
  datatype Option<+T> = None | Some(value: T) {

    /** The value, or `default` when absent. */
    function GetOr(default: T): T {
      match this
      case Some(v) => v
      case None => default
    }
  }

  /** The outcome of an operation that can raise instead of returning. */
  datatype Result<+R, +E> = Success(value: R) | Failure(error: E)
}
