/** Failure-carrying wrappers shared by the two benchmark models. */
module Wrappers {

  /** A value that may be absent (a regex that did not match, a conversion that failed). */
  datatype Option<+T> = None | Some(value: T)

  /** A value, or the error that prevented it. */
  datatype Result<+T, +E> = Success(value: T) | Failure(error: E)
}
