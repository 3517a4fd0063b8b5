/**
  Failure-carrying return types: `Option` for the source's `Option<T>`
  and `Result` for operations whose panics depend on input data; and the
  source's `u8`.
 */
module Wrappers {

  datatype Option<+T> = None | Some(value: T)

  datatype Result<+T, +E> = Success(value: T) | Failure(error: E)

  /** Rust's `u8`. */
  type U8 = x: int | 0 <= x < 256
}
