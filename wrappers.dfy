/** Option and Result, the two failure-carrying shapes the model needs. */
module Wrappers {

  /** Some value, or none (JavaScript `undefined`, a missing key, a failed parse). */
  datatype Option<+T> = None | Some(value: T)

  /** A value, or the error that stopped its computation. */
  datatype Result<+T, +E> = Ok(value: T) | Err(error: E)
}
