/** Option and Result, standing in for JavaScript's `undefined` and for
    the exceptions and error responses of the dashboard. */
module Wrappers {
  datatype Option<T> = None | Some(value: T)

  datatype Result<T, E> = Ok(value: T) | Err(error: E)
}
