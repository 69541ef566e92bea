/** Optional values and results with an error message, used by every module. */
module Wrappers {

  datatype Option<+T> = None | Some(value: T) {
    /** The wrapped value, or the given default when there is none. */
    function GetOr(default: T): T {
      match this
      case Some(v) => v
      case None => default
    }
  }

  datatype Result<+T> = Success(value: T) | Failure(error: string)
}
