/** Option and Result, used for the source's "missing value" and "raised exception" cases. */
module Wrappers {

  datatype Option<+T> = None | Some(value: T)

  /** `Err` stands for an exception propagating out of a Python call. */
  datatype Result<+T, +E> = Ok(value: T) | Err(error: E)
}
