/** Optional values and fallible results used throughout the harness model. */
module Wrappers {

  datatype Option<+T> = None | Some(value: T)

  /** The harness reports every failure as a message and a failing exit code;
      the model keeps the failure as a value of type E. */
  datatype Result<+R, +E> = Ok(value: R) | Err(error: E)
}
