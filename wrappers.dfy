/** Optional values and results, standing for the source's `undefined`-able
    fields and for the promise rejections of the place search. */
module Wrappers {

  datatype Option<+T> = None | Some(value: T)

  datatype Result<+R, +E> = Success(value: R) | Failure(error: E)
}
