/** Optional values, service results and database keys shared by every module. */
module Wrappers {

  /** Database keys; the source tests them for truth, which every positive key passes. */
  type Id = x: int | x >= 1 witness 1

  datatype Option<+T> = None | Some(value: T)

  /** Outcome of a service call: a value, or the exception the source throws. */
  datatype Result<+T, +E> = Ok(value: T) | Err(error: E)
}
