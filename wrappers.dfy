/** Option and Result for the source's `null` returns and thrown exceptions. */
module Wrappers {

  /** A value that may be absent: Java's nullable reference. */
  datatype Option<+T> = None | Some(value: T)

  /** The outcome of a call that either returns a value or throws. */
  datatype Result<+R, +E> = Success(value: R) | Failure(error: E)

  /** The unchecked Java exceptions the adapter can throw. */
  datatype JavaException =
    | IllegalArgumentException(message: string)
    | NullPointerException
}
