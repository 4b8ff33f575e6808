/** Failure-carrying results used at the boundaries of the text robot. */
module Wrappers {

  datatype Option<+T> = None | Some(value: T)

  /** The value an asynchronous call resolves with, or the error it rejects with. */
  datatype Result<+R, +E> = Success(value: R) | Failure(error: E)

  /** A stage that either completes or aborts the run with an error. */
  datatype Outcome<+E> = Pass | Fail(error: E)
}
