/** Option and Result, the two failure-carrying datatypes the model uses. */
module Wrappers {

  /** A value that may be absent, standing for a DOM lookup that may return null. */
  datatype Option<+T> = None | Some(value: T)

  /** Either a successful value or an error, standing for a call that may throw. */
  datatype Result<+R, +E> = Success(value: R) | Failure(error: E)
}
