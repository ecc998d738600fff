/** Success/failure results for the steps of the generation pipeline that can fail. */
module Wrappers {

  datatype Result<+T, +E> = Success(value: T) | Failure(error: E)
}
