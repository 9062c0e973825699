/** Option and Result, used for the parser's "reference or error" and for
    "built set or index of the first bad reference". */
module Wrappers {

  datatype Option<+T> = None | Some(value: T)

  datatype Result<+T, +E> = Success(value: T) | Failure(error: E)
}
