/**
 * Java's 32-bit `int` (and the unboxed `Integer`): two's-complement values whose
 * `+` and `*` wrap around modulo 2^32.
 */
module JavaInt {

  const TWO_32: int := 0x1_0000_0000
  const MIN_INT: int := -0x8000_0000
  const MAX_INT: int := 0x7fff_ffff

  /** The values of a Java `int`. */
  type Int32 = x: int | -0x8000_0000 <= x < 0x8000_0000

  /** The `int` that an exact integer wraps around to: the unique Int32 congruent to it modulo 2^32. */
  function Wrap(x: int): (r: Int32)
    ensures (x - r) % TWO_32 == 0
    ensures MIN_INT <= x <= MAX_INT ==> r == x
  {
    (x + 0x8000_0000) % TWO_32 - 0x8000_0000
  }

  /** Java's `a + b` on `int`. */
  function Add(a: Int32, b: Int32): (r: Int32)
    ensures (a + b - r) % TWO_32 == 0
    ensures MIN_INT <= a + b <= MAX_INT ==> r == a + b
  {
    Wrap(a + b)
  }

  /** Java's `a * b` on `int`. */
  function Mul(a: Int32, b: Int32): (r: Int32)
    ensures (a * b - r) % TWO_32 == 0
    ensures MIN_INT <= a * b <= MAX_INT ==> r == a * b
  {
    Wrap(a * b)
  }

  /** Two integers congruent modulo 2^32 wrap to the same `int`. */
  lemma WrapCongruent(x: int, y: int)
    requires (x - y) % TWO_32 == 0
    ensures Wrap(x) == Wrap(y)
  {
    var q := (x - y) / TWO_32;
    assert x == y + q * TWO_32;
    var qy := (y + 0x8000_0000) / TWO_32;
    var ry := (y + 0x8000_0000) % TWO_32;
    assert x + 0x8000_0000 == (qy + q) * TWO_32 + ry;
  }

  /**
   * A running `int` sum, each addend itself a wrapped value, is the wrapped exact sum:
   * accumulating in Java `int`s loses nothing but the multiples of 2^32.
   */
  lemma AddOfWrapped(a: int, b: int)
    ensures Add(Wrap(a), Wrap(b)) == Wrap(a + b)
  {
    WrapCongruent(Wrap(a) + Wrap(b), a + b);
  }
}
