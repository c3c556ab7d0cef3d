/** Small failure-carrying datatypes shared by the model. */
module Wrappers {

  datatype Option<+T> = None | Some(value: T)

  /** The outcome of an operation that either completes or throws an error with a message. */
  datatype Outcome = Pass | Fail(message: string)

  datatype Result<+T> = Success(value: T) | Failure(message: string)
}
