/**
 * Option and Result values shared by every module of the model, and the
 * machine-integer ranges the engine's fields use.
 */
module Wrappers {
  datatype Option<T> = None | Some(value: T)
  {
    predicate IsSome() { Some? }
  }

  datatype Result<T, E> = Ok(value: T) | Err(error: E)

  /** Unsigned machine integers as subset types of int. */
  type u8 = x: int | 0 <= x < 0x100
  type u16 = x: int | 0 <= x < 0x1_0000
  type u32 = x: int | 0 <= x < 0x1_0000_0000
  type u64 = x: int | 0 <= x < 0x1_0000_0000_0000_0000

  const U16_MODULUS: int := 0x1_0000
  const U32_MODULUS: int := 0x1_0000_0000
  const U64_MODULUS: int := 0x1_0000_0000_0000_0000
  const U64_MAX: u64 := 0xFFFF_FFFF_FFFF_FFFF

  /** Rust's `u16::wrapping_add(1)`. */
  function WrappingIncU16(x: u16): (r: u16)
    ensures x < 0xFFFF ==> r == x + 1
    ensures x == 0xFFFF ==> r == 0
  {
    (x + 1) % U16_MODULUS
  }

  /** Rust's `u32::wrapping_add(1)`, which is also what `+= 1` does in a release build. */
  function WrappingIncU32(x: u32): (r: u32)
    ensures x < U32_MODULUS - 1 ==> r == x + 1
    ensures x == U32_MODULUS - 1 ==> r == 0
  {
    (x + 1) % U32_MODULUS
  }

  /** Rust's `u64::wrapping_add(1)`. */
  function WrappingIncU64(x: u64): (r: u64)
    ensures x < U64_MAX ==> r == x + 1
    ensures x == U64_MAX ==> r == 0
  {
    (x + 1) % U64_MODULUS
  }
}
