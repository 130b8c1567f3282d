/** Small failure-carrying datatypes shared by the other modules. */
module Wrappers {

  datatype Option<+T> = None | Some(value: T)

  /** The outcome of a library call that either returns a value or raises
      Python's `ValueError`. */
  datatype Result<+T> = Ok(value: T) | ValueError

  /** Bytes as Python's `bytes` objects hold them. */
  type byte = b: int | 0 <= b < 256
}
