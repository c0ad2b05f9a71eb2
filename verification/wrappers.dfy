/** Optional values and fault-carrying results, standing in for the null
    references and exceptions of the modelled code. */
module Wrappers {

  /** A value that may be absent, in place of a null reference. */
  datatype Option<+T> = None | Some(value: T)

  /** Either a value or the fault that ended the operation instead. */
  datatype Result<+T, +E> = Success(value: T) | Failure(error: E)
}
