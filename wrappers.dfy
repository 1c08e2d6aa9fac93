/** Result type and the fixed-width integer types of the Rust code being modelled. */
module Wrappers {

  /** Rust's `Result<T, E>`: a value on success, an error otherwise. */
  datatype Result<+T, +E> = Ok(value: T) | Err(error: E)

  /** Rust's `u8`. */
  type U8 = x: int | 0 <= x < 0x100

  /** Rust's `u32`. */
  type U32 = x: int | 0 <= x < 0x1_0000_0000

  /** Rust's `u64`. */
  type U64 = x: int | 0 <= x < 0x1_0000_0000_0000_0000

  const U32_MAX: U32 := 0xFFFF_FFFF
  const U64_MAX: U64 := 0xFFFF_FFFF_FFFF_FFFF

  /** gRPC status codes the services return (tonic's `Status`). */
  datatype Status =
    | Internal(message: string)
    | InvalidArgument(message: string)
}
