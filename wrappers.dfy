/** Option and Result values shared by the other modules. */
module Wrappers {

  /** `None` stands for JavaScript's `null` where a value may be missing. */
  datatype Option<+T> = None | Some(value: T)

  /** The outcome of an operation that can throw. */
  datatype Result<+T, +E> = Success(value: T) | Failure(error: E)
}
