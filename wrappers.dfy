/** Optional values: a missing cell of the dataset, a lookup that found nothing. */
module Wrappers {

  datatype Option<+T> = None | Some(value: T) {

    /** The value, or `default` when there is none. */
    function GetOr(default: T): T {
      match this
      case Some(v) => v
      case None => default
    }
  }

  /** A computation that either yields a value or fails with a message. */
  datatype Result<+R> = Success(value: R) | Failure(error: string)
}
