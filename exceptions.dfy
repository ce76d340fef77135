/** The exceptions the containers throw, and results that carry them. */
module Exceptions {

  /** `std::runtime_error` and `std::out_of_range`, with their messages. */
  datatype Exception = RuntimeError(what: string) | OutOfRange(what: string)

  /** What an operation returns, or the exception it throws instead. */
  datatype Result<T> = Success(value: T) | Failure(error: Exception)
}
