/** Wrappers used throughout the model: an optional value
    (a JavaScript `undefined`/`null` or a missing row) and a success-or-error
    result. */
module Wrappers {

  datatype Option<+T> = None | Some(value: T) {

    function GetOr(default: T): T {
      match this
      case Some(v) => v
      case None => default
    }
  }

  datatype Result<+T, +E> = Success(value: T) | Failure(error: E)
}
