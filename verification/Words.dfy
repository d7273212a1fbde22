/** Fixed-width unsigned integers as Go computes with them. */
module Words {
  type u8 = x: int | 0 <= x < 0x100
  type u16 = x: int | 0 <= x < 0x1_0000
  type u32 = x: int | 0 <= x < 0x1_0000_0000

  /** `uint16(n)`: conversion and wrapping arithmetic. */
  function Wrap16(n: int): u16 {
    n % 0x1_0000
  }

  /** `uint32(n)`: conversion and wrapping arithmetic. */
  function Wrap32(n: int): u32 {
    n % 0x1_0000_0000
  }

  /** `a + b` on `uint16`. */
  function Add(a: u16, b: u16): u16 {
    if a + b < 0x1_0000 then a + b else a + b - 0x1_0000
  }

  /** `a - b` on `uint16`: the forward distance from `b` to `a`. */
  function Sub(a: u16, b: u16): u16 {
    if b <= a then a - b else a - b + 0x1_0000
  }

  function Min(a: int, b: int): int {
    if a < b then a else b
  }

  function Max(a: int, b: int): int {
    if a > b then a else b
  }
}
