/** Machine integer ranges and small wrappers shared by every module of the firmware model. */
module Common {

  /** An 8-bit unsigned value (`uint8_t`). */
  type uint8 = x: int | 0 <= x < 0x100

  /** A 16-bit unsigned value (`uint16_t`). */
  type uint16 = x: int | 0 <= x < 0x1_0000

  /** A 32-bit unsigned value (`uint32_t`). */
  type uint32 = x: int | 0 <= x < 0x1_0000_0000

  /** A value or nothing; stands for a null argument or an absent result. */
  datatype Option<+T> = None | Some(value: T)

  function Min(a: int, b: int): int
  {
    if a <= b then a else b
  }

  /** `uint32_t` arithmetic: everything is taken modulo 2^32. */
  const Modulus32: int := 0x1_0000_0000

  /** `a - b` on `uint32_t`: the time elapsed from `b` to `a` on a wrapping millisecond clock. */
  function Sub32(a: uint32, b: uint32): (r: uint32)
    ensures b <= a ==> r == a - b
    ensures a < b ==> r == a - b + Modulus32
  {
    (a - b) % Modulus32
  }

  /** `a + b` on `uint32_t`. */
  function Add32(a: uint32, b: uint32): (r: uint32)
    ensures a + b < Modulus32 ==> r == a + b
    ensures a + b >= Modulus32 ==> r == a + b - Modulus32
  {
    (a + b) % Modulus32
  }
}
