/** Option and Result, as the handlers use them: a value that may be undefined,
    and a computation that either yields a value or throws with a message. */
module Wrappers {

  datatype Option<+T> = None | Some(value: T)

  datatype Result<+T, +E> = Success(value: T) | Failure(error: E)
}
