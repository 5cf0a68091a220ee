/** Option and Result: the model's stand-ins for Python's `None`/truthiness
    and for the assertion failures of the name lookups. */
module Wrappers {

  datatype Option<+T> = None | Some(value: T)

  datatype Result<+T, +E> = Success(value: T) | Failure(error: E)
}
