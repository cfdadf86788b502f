/** Failure-carrying datatypes shared by the model: an optional value, and the
    outcome of an operation that the source can abort by raising an exception. */
module Wrappers {

  datatype Option<+T> = None | Some(value: T)

  /** `Ok(v)` is a normal return; `Err(e)` stands for the exception `e` being raised. */
  datatype Result<+T, +E> = Ok(value: T) | Err(error: E)
}
