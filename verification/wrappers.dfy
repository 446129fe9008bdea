/** Python's None-or-value, and the outcome of an event handler, shared by the widget models. */
module Wrappers {

  /** Python's `None` versus a present value. */
  datatype Option<+T> = None | Some(value: T)

  /** The outcome of an event handler: the new state, or the exception the handler raised. */
  datatype Result<+T, +E> = Ok(value: T) | Err(error: E)
}
