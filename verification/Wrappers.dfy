/** Option and Result values standing in for Go's `(value, ok)` and `(value, error)` pairs. */
module Wrappers {

  /** A value that may be absent, as a Go `(v, ok)` lookup or a nil map. */
  datatype Option<+T> = None | Some(value: T) {

    /** The carried value, or `default` when absent. */
    function GetOr(default: T): T {
      match this
      case Some(v) => v
      case None => default
    }
  }

  /** A value or the error a Go function returned instead of it. */
  datatype Result<+R, +E> = Success(value: R) | Failure(error: E)
}
