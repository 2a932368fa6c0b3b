/** Optional values (JavaScript's `undefined`) and success-or-error outcomes (thrown errors). */
module Wrappers {

  datatype Option<+T> = None | Some(value: T) {
    function GetOr(default: T): (value: T) {
      match this
      case Some(v) => v
      case None => default
    }
  }

  datatype Result<+T, +E> = Success(value: T) | Failure(error: E)
}
