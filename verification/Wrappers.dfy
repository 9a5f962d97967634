/** Result types shared by every module of the model. */
module Wrappers {

  datatype Option<+T> = None | Some(value: T)

  /** How a call of the program ends: a value, an error return, or a panic
      (an out-of-range buffer read, a failed `unwrap`). */
  datatype Outcome<+T, +E> = Ok(value: T) | Err(error: E) | Panic
}
