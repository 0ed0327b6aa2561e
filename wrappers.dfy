/** Failure-carrying values: Python's `None` results and raised exceptions. */
module Wrappers {

  /** An optional value; `None` stands for Python's `None`. */
  datatype Option<+T> = None | Some(value: T)

  /** The outcome of a call that may raise: a value, or the exception's message. */
  datatype Result<+T, +E> = Success(value: T) | Failure(error: E)
}
