/** Option and Result values shared by every module of the model. */
module Wrappers {

  /** An optional value; a nullable database column is an `Option<string>`. */
  datatype Option<+T> = None | Some(value: T)

  /** The outcome of an operation that can throw. */
  datatype Result<+R, +E> = Success(value: R) | Failure(error: E)
}
