/** Option, Result and Outcome: Python's None and raised exceptions, as values. */
module Wrappers {

  /** `None` stands for Python's `None`. */
  datatype Option<+T> = None | Some(value: T)

  /** The value an operation returns, or the exception it raises. */
  datatype Result<+T, +E> = Ok(value: T) | Err(error: E)

  /** For operations that return nothing (`-> None` in Python) but may raise. */
  datatype Outcome<+E> = Pass | Fail(error: E)
}
