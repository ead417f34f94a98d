/** Option and Result values used for the error paths of the model (a Python
    exception such as KeyError or IndexError becomes a Failure). */
module Wrappers {

  datatype Option<+T> = None | Some(value: T)

  datatype Result<+R, +E> = Success(value: R) | Failure(error: E)
}
