/** Machine words, written out over the unbounded integers. */
module Words {
  const U64_LIMIT: nat := 0x1_0000_0000_0000_0000
  const U64_MAX: nat := U64_LIMIT - 1
  const U32_MAX: nat := 0xFFFF_FFFF

  /** A value of the source's `u64`. */
  type u64 = n: nat | n < 0x1_0000_0000_0000_0000

  /** A value of the source's `u16`. */
  type u16 = n: nat | n < 0x1_0000

  /** The nearest `u64` to an exact total: what a saturating counter shows. */
  function Clip(n: nat): u64 {
    if n <= U64_MAX then n else U64_MAX
  }

  /** `u64::saturating_add`. */
  function SatAdd(a: nat, b: nat): u64 {
    Clip(a + b)
  }

  /** `u64::saturating_mul`. */
  function SatMul(a: nat, b: nat): u64 {
    Clip(a * b)
  }

  /** `u64::saturating_sub`, also `Instant::saturating_duration_since`. */
  function SatSub(a: nat, b: nat): nat {
    if a <= b then 0 else a - b
  }

  /** The difference of two naturals, whichever is larger. */
  function AbsDiff(a: nat, b: nat): nat {
    if a <= b then b - a else a - b
  }
}
