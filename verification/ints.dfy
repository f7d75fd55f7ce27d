/** Fixed-width C integer types used by the robot firmware, the explicit
    conversions between them, and the tolerance test that both the scan
    code and the table-bookkeeping code share. Integers in Dafny are
    unbounded, so every narrowing the C code performs is written out. */
module Ints {

  /** uint8_t */
  type byte = x: int | 0 <= x < 0x100

  /** uint16_t */
  type uint16 = x: int | 0 <= x < 0x1_0000

  /** int16_t */
  type int16 = x: int | -0x8000 <= x < 0x8000

  predicate IsByte(x: int) { 0 <= x < 0x100 }

  predicate IsInt16(x: int) { -0x8000 <= x < 0x8000 }

  /** Conversion of any integer to uint8_t: C reduces modulo 256. */
  function ToByte(x: int): (r: byte)
    ensures (x - r) % 0x100 == 0
    ensures IsByte(x) ==> r == x
  {
    x % 0x100
  }

  /** Two's-complement narrowing of an integer to int16_t. */
  function ToInt16(x: int): (r: int16)
    ensures (x - r) % 0x1_0000 == 0
    ensures IsInt16(x) ==> r == x
  {
    (x + 0x8000) % 0x1_0000 - 0x8000
  }

  function Abs(x: int): nat
  {
    if x < 0 then -x else x
  }

  function Min(a: int, b: int): int
  {
    if a <= b then a else b
  }

  /** `isWithinTolerance`: both operands are uint8_t, promoted to int before
      the subtraction, so the difference is never wrapped. */
  predicate IsWithinTolerance(value: byte, target: byte, tolerance: byte)
  {
    Abs(value - target) < tolerance
  }

  /** The test is strict and does not depend on the order of its operands. */
  lemma ToleranceIsStrictAndSymmetric(value: byte, target: byte, tolerance: byte)
    ensures IsWithinTolerance(value, target, tolerance)
            <==> -(tolerance as int) < value as int - target as int < tolerance as int
    ensures IsWithinTolerance(value, target, tolerance) == IsWithinTolerance(target, value, tolerance)
  {
  }
}
