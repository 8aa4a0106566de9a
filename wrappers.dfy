/** Failure-compatible wrappers: `Option` stands for a Java reference that may be null,
    `Result` and `Outcome` for a call that returns normally or throws. */
module Wrappers {

  datatype Option<+T> = None | Some(value: T)

  datatype Result<+R, +E> = Success(value: R) | Failure(error: E)

  /** A call without a result (Java `void`): it returns (`Pass`) or throws (`Fail`). */
  datatype Outcome<+E> = Pass | Fail(error: E)
}
