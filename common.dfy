/** Shared wrappers: optional values, results, and the two ways a step can stop early. */
module Common {

  datatype Option<+T> = None | Some(value: T)

  datatype Result<+T, +E> = Ok(value: T) | Err(error: E)

  /** Why an operation stopped before finishing: an error value the source returns with `?`,
      or a panic (an `unwrap` on a bad value, an index out of bounds, an arithmetic overflow,
      which a debug build turns into a panic). */
  datatype Fault<+E> = Raised(error: E) | Panicked(reason: string)

  /** Exclusive upper bounds of the unsigned integer types the source parses and stores. */
  const U8_BOUND: nat := 0x100
  const U32_BOUND: nat := 0x1_0000_0000
  const U64_SIGNED_BOUND: nat := 0x8000_0000_0000_0000
  const U128_BOUND: nat := 0x1_0000_0000_0000_0000_0000_0000_0000_0000

  type u32 = x: nat | x < 0x1_0000_0000
  type u128 = x: nat | x < 0x1_0000_0000_0000_0000_0000_0000_0000_0000
}
