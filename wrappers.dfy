/** Option and Result values: `None` returns and raised exceptions of the modelled code. */
module Wrappers {

  datatype Option<+T> = None | Some(value: T)

  /** `Failure` stands for an exception the Python code raises. */
  datatype Result<+T, +E> = Success(value: T) | Failure(error: E)
}
