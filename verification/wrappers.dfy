/** Failure-carrying values used by the store and the reconciler. */
module Wrappers {

  /** An optional value: a missing object, or a call that raised no error. */
  datatype Option<+T> = None | Some(value: T)

  /** Either the value a call produced or the error it returned. */
  datatype Result<+R, +E> = Success(value: R) | Failure(error: E)
}
