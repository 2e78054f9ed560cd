/** The CLR `int` (System.Int32) and its default, unchecked addition. */
module ClrInt {

  newtype Int32 = x: int | -0x8000_0000 <= x < 0x8000_0000

  predicate InInt32Range(x: int) {
    -0x8000_0000 <= x < 0x8000_0000
  }

  /** `a + b` in an unchecked C# context: the mathematical sum wrapped into
      the 32-bit two's-complement range. */
  function UncheckedAdd(a: Int32, b: Int32): (r: Int32)
    ensures (r as int - (a as int + b as int)) % 0x1_0000_0000 == 0
    ensures InInt32Range(a as int + b as int) ==> r as int == a as int + b as int
  {
    var s := a as int + b as int;
    if s >= 0x8000_0000 then (s - 0x1_0000_0000) as Int32
    else if s < -0x8000_0000 then (s + 0x1_0000_0000) as Int32
    else s as Int32
  }
}
