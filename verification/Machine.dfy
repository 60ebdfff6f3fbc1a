/** Machine integers of the modelled program, a 64-bit target: their sizes and the
    saturating and wrapping operations the source calls by name. */
module Machine {
  const U32_SIZE: nat := 0x1_0000_0000
  const U32_MAX: nat := U32_SIZE - 1
  const U64_SIZE: nat := 0x1_0000_0000_0000_0000
  const U64_MAX: nat := U64_SIZE - 1
  const USIZE_MAX: nat := U64_SIZE - 1

  type byte = n: nat | n < 256
  type u32 = n: nat | n < U32_SIZE
  type u64 = n: nat | n < U64_SIZE
  type usize = n: nat | n <= USIZE_MAX

  function Min(a: int, b: int): int { if a < b then a else b }

  function Max(a: int, b: int): int { if a < b then b else a }

  function SaturatingAdd(a: usize, b: usize): usize { Min(a + b, USIZE_MAX) }

  function SaturatingSub(a: usize, b: usize): usize { Max(a - b, 0) }

  function WrappingSucc(a: u64): u64 { if a == U64_MAX then 0 else a + 1 }
}
