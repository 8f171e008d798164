/** Optional values, results of operations that can fail, and outcomes of
    operations that return nothing on success. */
module Wrappers {

  /** A value that may be absent (`null` / `undefined` in the source). */
  datatype Option<+T> = None | Some(value: T)

  /** The result of an operation that either produces a value or throws. */
  datatype Result<+T, +E> = Ok(value: T) | Err(error: E)

  /** The result of an operation that produces nothing or throws. */
  datatype Outcome<+E> = Pass | Fail(error: E)
}
