/** Failure-carrying results shared by the modules of this model. */
module Wrappers {

  datatype Option<+T> = None | Some(value: T)

  /** The value of a Python call, or the exception it raises. */
  datatype Result<+R, +E> = Ok(value: R) | Err(error: E)
}
