/**
 * Java's fixed-width integers. Java's `int` and `long` are two's-complement
 * 32- and 64-bit integers; narrowing a wider integer (`Number.intValue()`,
 * `Number.longValue()`) and overflowing `+` / `-` keep the low bits.
 */
module JavaInt {

  const TWO_32: int := 0x1_0000_0000
  const TWO_64: int := 0x1_0000_0000_0000_0000

  predicate InInt(x: int) { -0x8000_0000 <= x < 0x8000_0000 }
  predicate InLong(x: int) { -0x8000_0000_0000_0000 <= x < 0x8000_0000_0000_0000 }

  /** Java `int`. */
  type Int32 = x: int | InInt(x)
  /** Java `long`. */
  type Int64 = x: int | InLong(x)

  /** Keeps the low 32 bits of `x`, read as a signed `int`. */
  function Wrap32(x: int): (r: Int32)
    ensures InInt(x) ==> r == x
    ensures (x - r) % TWO_32 == 0
  {
    (x + 0x8000_0000) % TWO_32 - 0x8000_0000
  }

  /** Keeps the low 64 bits of `x`, read as a signed `long`. */
  function Wrap64(x: int): (r: Int64)
    ensures InLong(x) ==> r == x
    ensures (x - r) % TWO_64 == 0
  {
    (x + 0x8000_0000_0000_0000) % TWO_64 - 0x8000_0000_0000_0000
  }

  /**
   * Java's integer `/`, which truncates toward zero (Dafny's `/` is Euclidean).
   * The one overflowing case, the most negative value divided by -1, is not
   * wrapped here.
   */
  function JavaDiv(a: int, b: int): (q: int)
    requires b != 0
    ensures a >= 0 && b > 0 ==> q == a / b
  {
    if a >= 0 && b > 0 then a / b
    else if a < 0 && b < 0 then (-a) / (-b)
    else if a < 0 then -((-a) / b)
    else -(a / (-b))
  }
}
