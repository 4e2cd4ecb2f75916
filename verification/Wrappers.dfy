/** Failure-compatible results used throughout the model. */
module Wrappers {

  datatype Option<+T> = None | Some(value: T)

  /** The outcome of an operation that the program may refuse with an exception. */
  datatype Result<+T, +E> = Ok(value: T) | Err(error: E)

  /** Text as JavaScript counts and compares it: a sequence of UTF-16 code units. */
  type CodeUnit = n: nat | n < 0x10000
  type Text = seq<CodeUnit>
}
