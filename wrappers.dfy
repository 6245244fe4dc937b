/** Failure-compatible values shared by every module of the model. */
module Wrappers {

  /** A value that may be absent (JavaScript's null / undefined / falsy). */
  datatype Option<+T> = None | Some(value: T)

  /** The outcome of a call that may throw: its value, or the message of the error it threw. */
  datatype Attempt<+T> = Ok(value: T) | Fail(message: string)
}
