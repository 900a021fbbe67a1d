/** Option and Result: the model's stand-ins for the source's null pointers and bool-plus-out-parameter returns. */
module Wrappers {

  datatype Option<+T> = None | Some(value: T)

  datatype Result<+T, +E> = Success(value: T) | Failure(error: E)
}
