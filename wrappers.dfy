/** The Option and Result datatypes shared by the other modules. */
module Wrappers {

  /** A value that may be missing: TypeScript's `T | null`. */
  datatype Option<+T> = None | Some(value: T)

  /** The outcome of an operation that either yields a value or fails with a message. */
  datatype Result<+R, +E> = Success(value: R) | Failure(error: E)
}
