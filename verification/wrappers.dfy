/** Option and Result, the two failure-carrying shapes the strategy needs. */
module Wrappers {

  /** `None` stands for an absent key, JavaScript's `false` sentinel, or no value. */
  datatype Option<+T> = None | Some(value: T) {

    /** The wrapped value, or `default` when there is none. */
    function GetOr(default: T): T {
      match this
      case Some(v) => v
      case None => default
    }
  }

  /** `Failure` stands for an exception thrown out of the operation. */
  datatype Result<+R, +E> = Success(value: R) | Failure(error: E)
}
