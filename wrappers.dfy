/** Failure-compatible wrappers shared by the modules of this project. */
module Wrappers {

  /** A value that may be absent, such as a browser storage key never written. */
  datatype Option<+T> = None | Some(value: T)

  /** The outcome of an operation that can throw: a value or an error message. */
  datatype Result<+R, +E> = Success(value: R) | Failure(error: E)
}
