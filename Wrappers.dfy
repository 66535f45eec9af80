/** Option and Result types shared by the modules of this project. */
module Wrappers {

  /** A value that may be absent: Kotlin's nullable `T?`, Java's nullable reference. */
  datatype Option<+T> = None | Some(value: T)

  /** The outcome of an operation that can throw: its value, or the reason it failed. */
  datatype Result<+T> = Success(value: T) | Failure(error: string)

  /** The outcome of a state change that can throw part-way: done, or the exception's message. */
  datatype Status = Ok | Failed(message: string)
}
