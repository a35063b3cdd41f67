/** Option for no-data pixels, Result for the script's hard input errors. */
module Wrappers {

  /** A pixel value, or no-data. */
  datatype Option<+T> = None | Some(value: T)

  /** A value, or the error that stopped the computation. */
  datatype Result<+R, +E> = Success(value: R) | Failure(error: E)
}
