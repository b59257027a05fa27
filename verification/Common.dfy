/** Result types shared by the modelled components. */
module Common {

  /** A value that may be absent: a null pointer, a null date, an empty smart pointer. */
  datatype Option<+T> = None | Some(value: T)

  /** The outcome of an operation that may throw. */
  datatype Result<+T, +E> = Success(value: T) | Failure(error: E)

  /** One past the largest value of the 64-bit size_t. */
  const SIZE_T_RANGE: int := 0x1_0000_0000_0000_0000

  /** The largest value of the 32-bit int. */
  const INT_MAX: int := 0x7FFF_FFFF
}
