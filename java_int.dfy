/** Java's fixed-width integers and integer division, written out over Dafny's unbounded `int`. */
module JavaInt {

  const TWO_POW_32: int := 0x1_0000_0000

  /** Values of a Java `short`. */
  type int16 = x: int | -0x8000 <= x < 0x8000

  /** Values of a Java `int`. */
  type int32 = x: int | -0x8000_0000 <= x < 0x8000_0000

  function Max(a: int, b: int): int { if a < b then b else a }

  function Min(a: int, b: int): int { if a < b then a else b }

  /** A narrowing cast `(int) x`: keeps the low 32 bits and reads them as two's complement. */
  function ToInt32(x: int): (r: int32)
    ensures r % TWO_POW_32 == x % TWO_POW_32
    ensures -0x8000_0000 <= x < 0x8000_0000 ==> r == x
  {
    var low := x % TWO_POW_32;
    if low < 0x8000_0000 then low else low - TWO_POW_32
  }

  /** Java's `a / b` on `int`, which rounds toward zero (Dafny's `/` is Euclidean). */
  function TruncDiv(a: int, b: int): (q: int)
    requires b != 0
    ensures a >= 0 && b > 0 ==> q == a / b
    ensures a >= 0 && b < 0 ==> q == -(a / -b)
    ensures a < 0 && b > 0 ==> q == -((-a) / b)
    ensures a < 0 && b < 0 ==> q == (-a) / (-b)
  {
    var m := (if a < 0 then -a else a) / (if b < 0 then -b else b);
    if (a < 0) == (b < 0) then m else -m
  }
}
