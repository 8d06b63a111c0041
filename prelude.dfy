/** Small shared vocabulary: bytes, optional values and results. */
module Prelude {

  /** One byte of a Go string or file; Go strings are byte sequences. */
  type byte = x: int | 0 <= x < 256

  datatype Option<+T> = None | Some(value: T)

  /** A value or the error that replaced it (Go's `(value, error)` pair). */
  datatype Result<+T, +E> = Ok(value: T) | Err(error: E)
}
