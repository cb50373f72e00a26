/**
 * Failure-carrying result types shared by the containers, the hash table and
 * the scanner. The containers report `std::out_of_range` exceptions as
 * `OutOfRange` values carrying the exception's message.
 */
module Wrappers {

  /** A value that may be absent; stands for a nullable pointer. */
  datatype Option<+T> = None | Some(value: T)

  /** The exceptions the containers throw. */
  datatype Exception = OutOfRange(what: string)

  /** A value, or the exception thrown instead of returning it. */
  datatype Result<+T> = Ok(value: T) | Err(error: Exception)

  /** The outcome of an operation that returns nothing but may throw. */
  datatype Outcome = Pass | Fail(error: Exception)
}
