/** Failure-carrying values used for the error paths of the feed synchroniser. */
module Wrappers {

  /** A value that may be missing, such as an optional field of a feed document. */
  datatype Option<+T> = None | Some(value: T)

  /** Either a computed value or the error that aborted the computation. */
  datatype Result<+T, +E> = Success(value: T) | Failure(error: E)

  /** The outcome of an operation that only has side effects. */
  datatype Outcome<+E> = Pass | Fail(error: E)
}
