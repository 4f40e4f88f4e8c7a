/** Optional values and results with an error, used wherever the pipeline can
    produce "no value" (an undefined average) or fail (a cell that is not an integer). */
module Wrappers {

  datatype Option<+T> = None | Some(value: T)

  datatype Result<+R, +E> = Success(value: R) | Failure(error: E)
}
