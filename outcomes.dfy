/** Result types shared by the whole model. */
module Outcomes {

  datatype Option<+T> = None | Some(value: T)

  /** The two `std::io::ErrorKind` values the modelled code raises. */
  datatype ErrorKind = Other | InvalidData

  /** `std::io::Error::new(kind, message)`. */
  datatype IoError = IoError(kind: ErrorKind, message: string)

  /** How a Rust call ends: with a value, with an `Err`, or with a panic
      (an out-of-range index, `unwrap`/`expect` on a failure, or integer
      overflow in a debug build). */
  datatype Outcome<+T> = Ok(value: T) | Err(error: IoError) | Panic

  /** The unit value `()` of `Result<(), Error>`. */
  datatype Unit = Unit
}
