// Option and Result, the failure-compatible wrappers the rest of the model uses
// for JavaScript's `null`/`undefined` and for thrown errors.
module Wrappers {

  datatype Option<+T> = None | Some(value: T)

  datatype Result<+R, +E> = Success(value: R) | Failure(error: E)
}
