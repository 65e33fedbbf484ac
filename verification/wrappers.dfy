/** Option and Result, the two failure-carrying datatypes the rest of the model
    uses in place of Python's missing keys and raised exceptions. */
module Wrappers {

  /** A value that may be absent, as `dict.get(k)` returns `None` for a missing key. */
  datatype Option<+T> = None | Some(value: T)

  /** Either a value or the error a Python call would have raised. */
  datatype Result<+T, +E> = Success(value: T) | Failure(error: E)
}
