/**
 * The fixed-width integers of the readout code: C++ `unsigned` and `int`, both
 * 32 bits wide, and `unsigned` addition and subtraction, which wrap modulo 2^32.
 */
module Unsigned {

  const MOD32: int := 0x1_0000_0000

  /** A C++ `unsigned` value. */
  type u32 = x: int | 0 <= x < 0x1_0000_0000

  /** A C++ `int` value. */
  type i32 = x: int | -0x8000_0000 <= x < 0x8000_0000

  /** `a + b` on `unsigned`: the true sum, less 2^32 when it does not fit. */
  function Add32(a: u32, b: u32): (r: u32)
    ensures a as int + b as int < MOD32 ==> r as int == a as int + b as int
    ensures a as int + b as int >= MOD32 ==> r as int == a as int + b as int - MOD32
  {
    (a as int + b as int) % MOD32
  }

  /** `a - b` on `unsigned`: the true difference, plus 2^32 when it is negative. */
  function Sub32(a: u32, b: u32): (r: u32)
    ensures b <= a ==> r as int == a as int - b as int
    ensures a < b ==> r as int == a as int - b as int + MOD32
  {
    (a as int - b as int) % MOD32
  }

  /** Taking an offset off and adding it back gives the value back, whether or not either step wrapped. */
  lemma SubThenAdd(a: u32, b: u32)
    ensures Add32(Sub32(a, b), b) == a
  {
  }

  /** Adding an offset and taking it off again gives the value back, whether or not either step wrapped. */
  lemma AddThenSub(a: u32, b: u32)
    ensures Sub32(Add32(a, b), b) == a
  {
  }
}
