/** Failure-carrying datatypes shared by every module of the model.
    `Option` stands for Python's `Optional` / `None` returns, `Result` for a call
    that either returns a value or raises an exception with a message. */
module Wrappers {

  datatype Option<+T> = None | Some(value: T)

  datatype Result<+R, +E> = Success(value: R) | Failure(error: E)
}
