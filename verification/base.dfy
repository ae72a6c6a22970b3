/** Shared vocabulary of the model: the failure kinds the engine throws,
    result wrappers, and the fixed-width integer the binary format uses. */
module Base {

  /** The exceptions the engine throws, one constructor per failure kind.
      UndefinedRead marks a read the C++ code performs past the end of a
      buffer (undefined behaviour there); the model stops at that point. */
  datatype Error =
    | ShapeMismatch          // operand dimensions violate an arithmetic or layer contract
    | InvalidShape           // single-index access on a matrix with more than one row
    | MissingInput           // Network::Forward with no bound input
    | UnsupportedActivation  // activation variant without a transform (NONE or unknown)
    | CorruptFormat          // a persisted frame starts with the wrong tag byte
    | UndefinedRead          // the C++ code would read outside a buffer
    | OutOfRange             // std::vector::at with an index past the end
    | Malformed              // a stream ends inside a frame or holds a negative dimension

  datatype Result<T> = Ok(value: T) | Err(error: Error)

  /** Outcome of an operation that returns nothing but may throw. */
  datatype Status = Success | Failure(error: Error)

  /** A nullable pointer, as a value. */
  datatype Option<T> = None | Some(value: T)

  /** int32_t */
  type int32 = x: int | -0x8000_0000 <= x < 0x8000_0000

  /** uint8_t: one byte of a binary stream. */
  newtype byte = b: int | 0 <= b < 0x100

  const TWO32: int := 0x1_0000_0000
  const TWO64: int := 0x1_0000_0000_0000_0000
}
