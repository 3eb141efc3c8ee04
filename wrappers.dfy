/** Failure-carrying values: an upstream call or a parse that may not produce a value. */
module Wrappers {

  /** A value that may be absent (JavaScript's `null`/`undefined`, or a call that did not resolve). */
  datatype Option<+T> = None | Some(value: T)

  /** Either the value an operation produced or the error it raised. */
  datatype Result<+R, +E> = Success(value: R) | Failure(error: E)
}
