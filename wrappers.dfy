/** Option and Result datatypes shared by the modules of this model. */
module Wrappers {

  /** A value that may be absent: JavaScript's `undefined`/`null` against a present value. */
  datatype Option<+T> = None | Some(value: T)

  /** The outcome of an operation that can fail, as a thrown error or a rejected parse. */
  datatype Result<+T, +E> = Ok(value: T) | Err(error: E)
}
