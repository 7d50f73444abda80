/** Failure-carrying results, used where the TypeScript implementation throws or leaves a value undefined. */
module Wrappers {

  datatype Option<+T> = None | Some(value: T)

  /** A computed value, or the error the TypeScript implementation would have thrown. */
  datatype Result<+R, +E> = Success(value: R) | Failure(error: E)

  /** The outcome of a check that returns nothing on success and throws on failure. */
  datatype Outcome<+E> = Pass | Fail(error: E)
}
