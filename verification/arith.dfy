/**
 Rust's fixed-width integer operations, written out over unbounded integers.

 Rust's `>>` on a signed value floors and its `/` truncates toward zero; Dafny's
 `/` is Euclidean, which floors for a positive divisor. Both are named here so
 that every model says which one it means.
 */
module Arith {

  const U8_MAX: nat := 0xFF
  const U16_MAX: nat := 0xFFFF
  const U32_MAX: nat := 0xFFFF_FFFF
  const U64_MAX: nat := 0xFFFF_FFFF_FFFF_FFFF

  type U8 = n: nat | n <= U8_MAX
  type U16 = n: nat | n <= U16_MAX
  type U32 = n: nat | n <= U32_MAX
  type U64 = n: nat | n <= U64_MAX
  type I32 = i: int | -0x8000_0000 <= i < 0x8000_0000
  type I64 = i: int | -0x8000_0000_0000_0000 <= i < 0x8000_0000_0000_0000

  /** The value an `i32` holds after arithmetic wraps around. */
  function Wrap32(x: int): (r: int)
    ensures -0x8000_0000 <= r < 0x8000_0000
    ensures -0x8000_0000 <= x < 0x8000_0000 ==> r == x
  {
    (x + 0x8000_0000) % 0x1_0000_0000 - 0x8000_0000
  }

  /** The value of `x as i64` for a wider `x`. */
  function Wrap64(x: int): (r: int)
    ensures -0x8000_0000_0000_0000 <= r < 0x8000_0000_0000_0000
    ensures -0x8000_0000_0000_0000 <= x < 0x8000_0000_0000_0000 ==> r == x
  {
    (x + 0x8000_0000_0000_0000) % 0x1_0000_0000_0000_0000 - 0x8000_0000_0000_0000
  }

  /** `x / 2` as Rust computes it on a signed value: toward zero. */
  function HalfTowardZero(x: int): (r: int)
    ensures 0 <= x ==> 2 * r <= x <= 2 * r + 1
    ensures x <= 0 ==> 2 * r - 1 <= x <= 2 * r
  {
    if x < 0 then -((-x) / 2) else x / 2
  }

  function Min(a: int, b: int): int { if a <= b then a else b }

  function Max(a: int, b: int): int { if a <= b then b else a }

  /** `u64::saturating_add`. */
  function AddSat64(a: nat, b: nat): nat { Min(a + b, U64_MAX) }

  /** `saturating_sub` on any unsigned width. */
  function SubSat(a: nat, b: nat): nat { if a < b then 0 else a - b }

  /** `u64::saturating_mul`. */
  function MulSat64(a: nat, b: nat): nat { Min(a * b, U64_MAX) }

  function Pow2(e: nat): (p: nat)
    ensures p >= 1
  {
    if e == 0 then 1 else 2 * Pow2(e - 1)
  }

  lemma MulMonotone(a: int, b: int, p: nat)
    requires a <= b
    ensures a * p <= b * p
  {
  }

  /** `b << s`. */
  function Shl(b: nat, s: nat): nat
    decreases s
  {
    if s == 0 then b else Shl(2 * b, s - 1)
  }

  lemma {:induction false} ShlAdd(a: nat, b: nat, s: nat)
    ensures Shl(a + b, s) == Shl(a, s) + Shl(b, s)
    decreases s
  {
    if s > 0 { ShlAdd(2 * a, 2 * b, s - 1); }
  }

  lemma ShlMonotone(a: nat, b: nat, s: nat)
    requires a <= b
    ensures Shl(a, s) <= Shl(b, s)
  {
    ShlAdd(a, b - a, s);
  }

  lemma {:induction false} ShlPow(d: nat, s: nat)
    ensures Shl(Pow2(d), s) == Pow2(d + s)
    decreases s
  {
    if s > 0 { ShlPow(d + 1, s - 1); }
  }

  lemma {:induction false} ShlZero(s: nat)
    ensures Shl(0, s) == 0
  {
    if s > 0 { ShlZero(s - 1); }
  }
}
