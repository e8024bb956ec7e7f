/** Wrappers shared by the model: an optional value (Go's nil pointer or absent map entry)
    and a result that is either a value or an error (Go's `(T, error)`). */
module Wrappers {

  datatype Option<+T> = None | Some(value: T)

  datatype Result<+T, +E> = Success(value: T) | Failure(error: E)
}
