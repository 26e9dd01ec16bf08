/** Failure-compatible wrappers: `null`/`undefined` results and thrown errors of the
    TypeScript code become values of these datatypes. */
module Wrappers {

  /** A value that may be absent (`T | null` or `T | undefined`). */
  datatype Option<+T> = None | Some(value: T)

  /** A computation that either yields a value or rejects with an error. */
  datatype Result<+T, +E> = Success(value: T) | Failure(error: E)

  /** A computation with no value that either completes or throws. */
  datatype Outcome<+E> = Pass | Fail(error: E)
}
