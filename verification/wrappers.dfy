/** Failure-compatible result types shared by the import-map modules. */
module Wrappers {

  /** An optional value: a map lookup that may miss, a search that may find nothing. */
  datatype Option<+T> = None | Some(value: T) {

    /** The carried value, or `default` when there is none. */
    function GetOr(default: T): T {
      match this
      case Some(v) => v
      case None => default
    }
  }

  /** The outcome of an operation that either produces a value or fails with an error. */
  datatype Result<+R, +E> = Success(value: R) | Failure(error: E)
}
