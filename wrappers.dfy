/** Small value wrappers shared by every module of the model. */
module Wrappers {

  /** A value that may be missing (Python's `None`). */
  datatype Option<+T> = None | Some(value: T)

  /** The Python exceptions the modelled code can raise. */
  datatype PyError =
    | TypeError        // `len()` of the float placeholder in a calibration cell
    | ZeroDivision     // float division by zero in `calc_mass`
    | IndexError       // indexing past the end of a bytes frame or a list
    | SocketError      // an exception raised by `recv` that nobody catches
    | NoBoardFound     // the `Exception` raised by discovery / connect

  /** A computation that either yields a value or raises. */
  datatype Result<+T> = Ok(value: T) | Err(error: PyError)
}
