/** Option and Result values for partial conversions and for the error paths
    that the Python code signals with exceptions. */
module Outcomes {

  /** The result of a conversion that may fail, such as `float(text)`. */
  datatype Option<+T> = None | Some(value: T)

  /** A value, or the error that the Python code would raise instead. */
  datatype Result<+T, +E> = Ok(value: T) | Err(error: E)
}
