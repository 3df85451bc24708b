/** Machine integers of the service, as ranges of the mathematical integers. */
module Integers {
  const U32_MAX: nat := 0xFFFF_FFFF
  const U64_MAX: nat := 0xFFFF_FFFF_FFFF_FFFF

  type uint32 = x: nat | x <= U32_MAX
  type uint64 = x: nat | x <= U64_MAX

  function Min(a: nat, b: nat): nat {
    if a <= b then a else b
  }

  function Max(a: nat, b: nat): nat {
    if a <= b then b else a
  }

  /** The nearest 64-bit value: what any chain of saturating additions is expected to deliver. */
  function Cap(n: nat): uint64 {
    Min(n, U64_MAX)
  }

  /** Addition of two 64-bit values without overflow check. */
  function WrapAdd(a: uint64, b: uint64): uint64 {
    if a + b > U64_MAX then a + b - (U64_MAX + 1) else a + b
  }

  /** The next value of a 32-bit counter, which wraps. */
  function Following(n: uint32): uint32 {
    if n == U32_MAX then 0 else n + 1
  }

  function SaturatingAdd(lhs: uint64, rhs: uint64): (r: uint64)
    ensures r == Cap(lhs + rhs)
  {
    if lhs > U64_MAX - rhs then U64_MAX else lhs + rhs
  }
}
