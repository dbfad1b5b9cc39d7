/** Failure-carrying wrappers shared by the pipeline's modules. */
module Wrappers {

  /** A value that may be absent: a missing or non-text spreadsheet cell. */
  datatype Option<+T> = None | Some(value: T)

  /** The outcome of a step that can raise: the value, or the exception raised. */
  datatype Result<+R, +E> = Success(value: R) | Failure(error: E)
}
