/** Option and Result values shared by the modules of this model: the source's
    nullable results and its thrown exceptions become these. */
module Wrappers {

  datatype Option<+T> = None | Some(value: T)

  datatype Result<+R, +E> = Success(value: R) | Failure(error: E)
}
