/** Option and Result, the failure-carrying values every resolver returns. */
module Wrappers {

  /** A value that may be absent: JavaScript's `undefined`, or a lookup that found nothing. */
  datatype Option<+T> = None | Some(value: T)

  /** Either the new value of a successful call or the error the resolver throws. */
  datatype Result<+R, +E> = Success(value: R) | Failure(error: E)
}
