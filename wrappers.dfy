/** Option and Result datatypes shared by the model: Swift's optionals and
    `Result<Success, Failure>`. */
module Wrappers {

  /** Swift's `Optional`: `nil` or a wrapped value. */
  datatype Option<+T> = None | Some(value: T)

  /** Swift's `Result`, as passed to the completion handlers. */
  datatype Result<+T, +E> = Success(value: T) | Failure(error: E)
}
