/** Option and Result: the two shapes of "maybe a value" the matrix core returns. */
module Wrappers {

  /** `Option<T>`: `None` where an accessor finds nothing at the requested position. */
  datatype Option<+T> = None | Some(value: T)

  /** `Result<R, E>`: the outcome of an operation that either yields a value or stops with an error. */
  datatype Result<+R, +E> = Ok(value: R) | Err(error: E)
}
