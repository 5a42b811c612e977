/** Option and Result, used for the optional fields of a Felis column and
    for the translator's failure path. */
module Wrappers {

  datatype Option<+T> = None | Some(value: T)

  datatype Result<+R, +E> = Success(value: R) | Failure(error: E)
}
