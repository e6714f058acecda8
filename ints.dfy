/** Fixed-width integers of the simulation (Rust's `u32` and `i32`) over Dafny's
    unbounded `int`, with the saturating arithmetic and the `as i32` conversions
    the simulation uses, written out explicitly. */
module Ints {

  const U32_MAX: int := 0xFFFF_FFFF
  const I32_MIN: int := -0x8000_0000
  const I32_MAX: int := 0x7FFF_FFFF

  type u32 = x: int | 0 <= x <= 0xFFFF_FFFF
  type i32 = x: int | -0x8000_0000 <= x <= 0x7FFF_FFFF

  function Min(a: int, b: int): int { if a <= b then a else b }
  function Max(a: int, b: int): int { if a <= b then b else a }

  /** The value of `x` brought into `[lo, hi]`: exact when it lies inside,
      the nearer bound otherwise. */
  function Saturate(x: int, lo: int, hi: int): (r: int)
    requires lo <= hi
    ensures lo <= r <= hi
    ensures lo <= x <= hi ==> r == x
    ensures x < lo ==> r == lo
    ensures hi < x ==> r == hi
  {
    if x < lo then lo else if hi < x then hi else x
  }

  /** `u32::saturating_add` */
  function SatAddU32(a: u32, b: u32): (r: u32)
    ensures a <= r <= a + b
    ensures r < a + b ==> r == U32_MAX
  {
    Saturate(a + b, 0, U32_MAX)
  }

  /** `u32::saturating_sub` */
  function SatSubU32(a: u32, b: u32): (r: u32)
    ensures a - b <= r <= a
    ensures a - b < r ==> r == 0
  {
    Saturate(a - b, 0, U32_MAX)
  }

  /** `u32::saturating_mul` */
  function SatMulU32(a: u32, b: u32): (r: u32)
    ensures r <= a * b
    ensures r < a * b ==> r == U32_MAX
  {
    Saturate(a * b, 0, U32_MAX)
  }

  /** `i32::saturating_add` */
  function SatAddI32(a: i32, b: i32): (r: i32)
    ensures I32_MIN <= a + b <= I32_MAX ==> r == a + b
    ensures a + b > I32_MAX ==> r == I32_MAX
    ensures a + b < I32_MIN ==> r == I32_MIN
  {
    Saturate(a + b, I32_MIN, I32_MAX)
  }

  /** `i32::saturating_sub` */
  function SatSubI32(a: i32, b: i32): (r: i32)
    ensures I32_MIN <= a - b <= I32_MAX ==> r == a - b
    ensures a - b > I32_MAX ==> r == I32_MAX
    ensures a - b < I32_MIN ==> r == I32_MIN
  {
    Saturate(a - b, I32_MIN, I32_MAX)
  }

  /** An integer cast `x as i32`: the low 32 bits of `x` read as a two's-complement
      number (the cast from `u32` or from `usize`, and a wrapping `i32` result). */
  function AsI32(x: int): (r: i32)
    ensures (r - x) % 0x1_0000_0000 == 0
    ensures I32_MIN <= x <= I32_MAX ==> r == x
  {
    var low := x % 0x1_0000_0000;
    if low <= I32_MAX then low else low - 0x1_0000_0000
  }

  /** A float cast `q as i32`: truncation toward zero, saturating at the bounds
      of `i32`. */
  function TruncToI32(q: real): (r: i32)
    ensures 0.0 <= q ==> 0 <= r && r as real <= q
    ensures q <= 0.0 ==> r <= 0 && q <= r as real
    ensures I32_MIN as real <= q <= I32_MAX as real ==>
              -1.0 < q - r as real < 1.0
    ensures q > I32_MAX as real ==> r == I32_MAX
    ensures q < I32_MIN as real ==> r == I32_MIN
  {
    var t := if 0.0 <= q then q.Floor else -((-q).Floor);
    Saturate(t, I32_MIN, I32_MAX)
  }
}
