/** Option and Result types shared by the modules of this model. A Java `null`
    becomes `None`; a thrown exception becomes `Failure`. */
module Wrappers {

  datatype Option<+T> = None | Some(value: T)

  datatype Result<+T, +E> = Success(value: T) | Failure(error: E)
}
