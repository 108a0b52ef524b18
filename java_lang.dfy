/**
 * The few pieces of Java semantics the widget's arithmetic depends on:
 * nullable values, 32-bit `int` with wrap-around, the truncating `%`
 * operator, and the saturating `(int)` cast of a floating-point value.
 */
module JavaLang {

  /** A Java reference that may be null. */
  datatype Option<+T> = None | Some(value: T)

  const IntMin: int := -0x8000_0000
  const IntMax: int := 0x7FFF_FFFF

  /** Java's `int`. */
  newtype int32 = x: int | -0x8000_0000 <= x < 0x8000_0000

  /** The value a Java `int` expression takes when the exact result is `x`. */
  function Wrap32(x: int): (r: int32)
    ensures IntMin <= x <= IntMax ==> r as int == x
    ensures (x - r as int) % 0x1_0000_0000 == 0
  {
    ((x - IntMin) % 0x1_0000_0000 + IntMin) as int32
  }

  /**
   * Java's `a % n` for a positive divisor: it truncates, so the remainder
   * has the sign of the dividend and the magnitude of `|a| mod n`.
   */
  function JavaRem(a: int32, n: int): (r: int32)
    requires n > 0
    ensures a >= 0 ==> 0 <= r as int < n && r <= a && r as int == a as int % n
    ensures a < 0 ==> -n < r as int <= 0 && a <= r && -(r as int) == (-(a as int)) % n
  {
    var m := if a >= 0 then a as int else -(a as int);
    ModBelow(m, n);
    if a >= 0 then (m % n) as int32 else (-(m % n)) as int32
  }

  /** The remainder of a non-negative number is at most the number. */
  lemma ModBelow(m: int, n: int)
    requires m >= 0 && n > 0
    ensures 0 <= m % n <= m
  {
    if m < n {
      assert m % n == m;
    } else {
      assert m == n * (m / n) + m % n;
      assert m / n >= 1;
    }
  }

  /** Rounding toward zero. */
  function Trunc(x: real): (r: int)
    ensures r as real <= x < r as real + 1.0 || r as real - 1.0 < x <= r as real
    ensures x >= 0.0 ==> r == x.Floor
    ensures x < 0.0 ==> r as real - 1.0 < x <= r as real && r <= 0
  {
    if x >= 0.0 then x.Floor else -((-x).Floor)
  }

  /** Java's `(int)` cast of a floating-point value: truncation, saturating at the int range. */
  function DoubleToInt(x: real): (r: int32)
    ensures IntMin as real < x < IntMax as real ==> r as int == Trunc(x)
    ensures 0.0 <= x < IntMax as real ==> r as int == x.Floor
    ensures x >= IntMax as real ==> r as int == IntMax
    ensures x <= IntMin as real ==> r as int == IntMin
  {
    if x >= IntMax as real then IntMax as int32
    else if x <= IntMin as real then IntMin as int32
    else Trunc(x) as int32
  }
}
