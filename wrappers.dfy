/** The Option and Result types shared by the other modules. */
module Wrappers {

  /** An optional value: `None` stands for a missing value (SQL NULL, an absent result). */
  datatype Option<+T> = None | Some(value: T)

  /** Either the value of a successful step or the error it stopped with. */
  datatype Result<+R, +E> = Success(value: R) | Failure(error: E)
}
