/** Option and Result, the two wrapper datatypes the model uses for Python's `None`
    and for the error paths of the web handlers and import scripts. */
module Wrappers {

  /** A value that may be absent: Python's `None` or a nullable database column. */
  datatype Option<+T> = None | Some(value: T) {

    /** The wrapped value, or `default` when absent. */
    function GetOr(default: T): T {
      match this
      case Some(v) => v
      case None => default
    }
  }

  /** The outcome of an operation that can fail with an error value. */
  datatype Result<+R, +E> = Success(value: R) | Failure(error: E)
}
