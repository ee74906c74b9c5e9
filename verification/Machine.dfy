/** Fixed-width integers, saturating arithmetic and the option type shared by every module. */
module Machine {
  const U32_MAX: nat := 0xFFFF_FFFF
  const U64_MAX: nat := 0xFFFF_FFFF_FFFF_FFFF

  type U32 = x: nat | x <= U32_MAX
  type U64 = x: nat | x <= U64_MAX

  datatype Option<+T> = None | Some(value: T)

  /** `u64::saturating_add`. */
  function SatAdd(a: U64, b: nat): (r: U64)
    ensures r == a + b || (r == U64_MAX && a + b > U64_MAX)
  {
    if a + b <= U64_MAX then a + b else U64_MAX
  }

  /** `u64::saturating_sub`. */
  function SatSub(a: nat, b: nat): (r: nat)
    ensures b <= a ==> r + b == a
    ensures a < b ==> r == 0
  {
    if a >= b then a - b else 0
  }

  /** `u32::saturating_add` of one. */
  function SatInc(a: U32): (r: U32)
    ensures r == a + 1 || (r == a && a == U32_MAX)
  {
    if a < U32_MAX then a + 1 else a
  }

  function Min(a: int, b: int): (r: int)
    ensures r <= a && r <= b && (r == a || r == b)
  {
    if a <= b then a else b
  }

  function Max(a: int, b: int): (r: int)
    ensures r >= a && r >= b && (r == a || r == b)
  {
    if a >= b then a else b
  }
}
