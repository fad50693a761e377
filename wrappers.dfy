/** Option and Result values shared by every module of the model: a Java
    `null` or a Python `None` is `None`, a thrown exception is `Failure`. */
module Wrappers {

  datatype Option<+T> = None | Some(value: T)

  datatype Result<+R, +E> = Success(value: R) | Failure(error: E)
}
