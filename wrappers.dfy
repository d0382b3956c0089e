/** Optional values and results, the shapes the TypeScript code expresses with
    `undefined` and with thrown errors. */
module Wrappers {

  /** A value that may be `undefined`. */
  datatype Option<+T> = None | Some(value: T)

  /** The outcome of an operation that either returns a value or throws an error. */
  datatype Result<+T, +E> = Ok(value: T) | Err(error: E)
}
