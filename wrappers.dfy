/** Optional values and outcomes shared by every module of the model. */
module Wrappers {

  datatype Option<T> = None | Some(value: T)
  {
    function GetOr(default: T): (r: T)
      ensures Some? ==> r == value
      ensures None? ==> r == default
    {
      match this
      case None => default
      case Some(v) => v
    }
  }

  /** A computation that either yields a value or fails with a reason. */
  datatype Result<T, E> = Success(value: T) | Failure(error: E)
}
