/** Failure-carrying results: JavaScript `undefined`, thrown errors and `process.exit` paths. */
module Wrappers {

  /** `None` stands for JavaScript's `undefined` (or `null` where the source returns it). */
  datatype Option<+T> = None | Some(value: T)

  /** An operation that either yields a value or fails (a throw, or an exit with code 42). */
  datatype Result<+T, +E> = Ok(value: T) | Err(error: E)

  /** An operation that yields nothing but may fail. */
  datatype Outcome<+E> = Pass | Fail(error: E)
}
