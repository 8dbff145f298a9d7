/** Failure-carrying datatypes shared by the model: an optional value, a value
    or an error, and a pass/fail outcome of an operation that returns nothing. */
module Wrappers {

  datatype Option<+T> = None | Some(value: T)

  datatype Result<+T, +E> = Ok(value: T) | Err(error: E)

  /** The outcome of a driver operation that returns nothing when it succeeds
      and raises an exception when it fails. */
  datatype Outcome<+E> = Pass | Fail(error: E)
}
