/** Optional values and error-or-value results, standing for Python's `None`
    and for raised exceptions. */
module Wrappers {

  datatype Option<+T> = None | Some(value: T) {
    /** `d.get(key, default)` once the lookup has been made. */
    function GetOr(default: T): T {
      match this
      case Some(v) => v
      case None => default
    }
  }

  datatype Result<+T, +E> = Success(value: T) | Failure(error: E)
}
