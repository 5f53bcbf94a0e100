/** Failure-carrying wrappers used throughout the model: Go's nil pointers
    become `Option`, and Go's `(value, error)` pairs become `Result`. */
module Wrappers {

  /** A value that may be absent (a Go pointer that may be nil). */
  datatype Option<+T> = None | Some(value: T) {

    /** The value if present, otherwise `default`. */
    function GetOr(default: T): T {
      match this
      case Some(v) => v
      case None => default
    }
  }

  /** Either a value or an error (a Go `(value, error)` return). */
  datatype Result<+T, +E> = Ok(value: T) | Err(error: E) {

    /** Replaces the error of a failure, keeps a success as it is. */
    function MapErr<E2>(f: E -> E2): Result<T, E2> {
      match this
      case Ok(v) => Ok(v)
      case Err(e) => Err(f(e))
    }
  }
}
