/**
 * The fixed-width integers of the RP2040 firmware, with the C++ conversions
 * that the firmware leaves implicit written out: truncating division,
 * narrowing to `unsigned char`, and 32-bit `unsigned long` subtraction.
 */
module Bytes {

  /** `unsigned char` / `byte`. */
  newtype byte = x: int | 0 <= x < 0x100

  /** `unsigned long` on the RP2040: 32 bits, as returned by `millis()`. */
  newtype u32 = x: int | 0 <= x < 0x1_0000_0000

  /** C++ `n / d` for a positive divisor: the quotient is truncated toward zero
      (Dafny's own `/` is Euclidean and rounds negative quotients down). */
  function TruncDiv(n: int, d: int): (q: int)
    requires d > 0
    ensures 0 <= n ==> 0 <= n - d * q < d
    ensures n < 0 ==> -d < n - d * q <= 0
  {
    if n >= 0 then n / d else -((-n) / d)
  }

  /** `(unsigned char) x`, also `x & 0xFF`: the low eight bits of the
      two's-complement value, i.e. the byte congruent to `x` modulo 256. */
  function Low8(x: int): (b: byte)
    ensures (x - b as int) % 0x100 == 0
  {
    (x % 0x100) as byte
  }

  /** `(x >> 8) & 0xFF` with an arithmetic shift: bits 8 to 15 of `x`. */
  function High8(x: int): byte
  {
    ((x / 0x100) % 0x100) as byte
  }

  /** The two bytes written high-first hold the low sixteen bits of `x`. */
  lemma BigEndian16(x: int)
    ensures High8(x) as int * 0x100 + Low8(x) as int == x % 0x1_0000
  {
    var a, r := x / 0x100, x % 0x100;
    var b, c := a / 0x100, a % 0x100;
    assert x == 0x100 * a + r;
    assert a == 0x100 * b + c;
    assert x == 0x1_0000 * b + (0x100 * c + r);
    assert 0 <= 0x100 * c + r < 0x1_0000;
  }

  /** `now - last` on `unsigned long`: the difference taken modulo 2^32, so a
      clock that wrapped past zero still yields the time that has passed. */
  function Elapsed(now: u32, last: u32): (d: u32)
    ensures last <= now ==> d as int == now as int - last as int
    ensures now < last ==> d as int == 0x1_0000_0000 + now as int - last as int
  {
    ((now as int - last as int) % 0x1_0000_0000) as u32
  }
}
