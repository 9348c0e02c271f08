// The 32-bit integers of the source, with its saturating and wrapping operations written out.
module MachineInt {

  const I32_MIN: int := -0x8000_0000
  const I32_MAX: int := 0x7FFF_FFFF
  const U32_MAX: int := 0xFFFF_FFFF

  type u32 = n: int | 0 <= n <= 0xFFFF_FFFF
  type i32 = n: int | -0x8000_0000 <= n <= 0x7FFF_FFFF

  function Min(a: int, b: int): int { if a <= b then a else b }

  function Max(a: int, b: int): int { if a >= b then a else b }

  function Clamp(n: int, lo: int, hi: int): int
    requires lo <= hi
  {
    if n < lo then lo else if n > hi then hi else n
  }

  /** The nearest i32: what every `saturating_` operation on i32 returns. */
  function SatI32(n: int): i32 { Clamp(n, I32_MIN, I32_MAX) }

  /** The nearest u32: what every `saturating_` operation on u32 returns. */
  function SatU32(n: int): u32 { Clamp(n, 0, U32_MAX) }

  /** `n.min(i32::MAX as u32) as i32` */
  function ClipToI32(n: u32): i32 { Min(n, I32_MAX) }

  /** Two's complement truncation: unchecked `+` and `as i32`. */
  function WrapI32(n: int): i32 {
    (n + 0x8000_0000) % 0x1_0000_0000 - 0x8000_0000
  }

  /** Truncation to u32: unchecked `+` and `as u32`. */
  function WrapU32(n: int): u32 { n % 0x1_0000_0000 }

  lemma WrapFixes(n: int)
    requires I32_MIN <= n <= I32_MAX
    ensures WrapI32(n) == n
  {
  }

  lemma WrapRound(n: int)
    ensures WrapI32(n - 0x1_0000_0000) == WrapI32(n)
    ensures WrapI32(n + 0x1_0000_0000) == WrapI32(n)
  {
    var m := n + 0x8000_0000;
    assert (m - 0x1_0000_0000) % 0x1_0000_0000 == m % 0x1_0000_0000;
    assert (m + 0x1_0000_0000) % 0x1_0000_0000 == m % 0x1_0000_0000;
  }

  /** Adding an unsigned length to a signed position is exact whenever the result fits. */
  lemma WrapAddsLength(position: i32, length: u32)
    requires position + length <= I32_MAX
    ensures WrapI32(position + WrapI32(length)) == position + length
  {
    if length <= I32_MAX {
      WrapFixes(length);
    } else {
      WrapRound(length);
      WrapFixes(length - 0x1_0000_0000);
      WrapRound(position + length);
    }
    WrapFixes(position + length);
  }
}
