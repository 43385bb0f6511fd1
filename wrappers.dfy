/** Option and Result, the failure-carrying values the model uses in place of
    JavaScript's undefined/null and thrown errors. */
module Wrappers {

  datatype Option<+T> = None | Some(value: T)

  datatype Result<+T, +E> = Success(value: T) | Failure(error: E)
}
