/** Kotlin/JVM number semantics used by the screens: 32- and 64-bit ranges,
    wrap-around of Int arithmetic, truncating division, and the conversion of
    floating values back to integers (`Float.toInt`, `Double.toLong`).
    Floating values are modelled on exact reals: a `KFloat` is a finite real
    or one of the IEEE specials that a division by zero produces. */
module Numerics {

  const INT_MIN: int := -0x8000_0000
  const INT_MAX: int := 0x7FFF_FFFF
  const LONG_MIN: int := -0x8000_0000_0000_0000
  const LONG_MAX: int := 0x7FFF_FFFF_FFFF_FFFF

  predicate IsInt(x: int) { INT_MIN <= x <= INT_MAX }
  predicate IsLong(x: int) { LONG_MIN <= x <= LONG_MAX }

  /** Kotlin `Int` arithmetic: the result is taken modulo 2^32 into the signed range. */
  function Wrap32(x: int): (r: int)
    ensures IsInt(r)
    ensures (x - r) % 0x1_0000_0000 == 0
    ensures IsInt(x) ==> r == x
  {
    (x + 0x8000_0000) % 0x1_0000_0000 - 0x8000_0000
  }

  /** Wrapping after every step equals wrapping once at the end. */
  lemma Wrap32Add(a: int, b: int)
    ensures Wrap32(Wrap32(a) + b) == Wrap32(a + b)
  {
    var m := 0x1_0000_0000;
    var k := (a - Wrap32(a)) / m;
    assert a - Wrap32(a) == k * m;
    ModShift(a + b + 0x8000_0000, k, m);
  }

  lemma ModShift(x: int, k: int, m: int)
    requires m > 0
    ensures (x - k * m) % m == x % m
  {
    var q := x / m;
    assert x - k * m == (q - k) * m + x % m;
    ModUnique(x - k * m, q - k, x % m, m);
  }

  /** A remainder is determined by any quotient-remainder decomposition. */
  lemma ModUnique(x: int, q: int, r: int, m: int)
    requires m > 0 && 0 <= r < m && x == q * m + r
    ensures x % m == r
  {
    var d := x / m - q;
    assert d * m == r - x % m;
  }

  /** Kotlin `coerceIn(lo, hi)`. */
  function CoerceIn(x: int, lo: int, hi: int): (r: int)
    requires lo <= hi
    ensures lo <= r <= hi
    ensures lo <= x <= hi ==> r == x
    ensures x < lo ==> r == lo
    ensures hi < x ==> r == hi
  {
    if x < lo then lo else if hi < x then hi else x
  }

  /** Division of JVM integers: the quotient is rounded toward zero. */
  function TruncDiv(a: int, b: int): (q: int)
    requires b > 0
    ensures 0 <= a ==> q * b <= a < q * b + b
    ensures a < 0 ==> q * b - b < a <= q * b
  {
    if a >= 0 then a / b else -((-a) / b)
  }

  /** The integer part of a real, rounded toward zero. */
  function Trunc(v: real): (t: int)
    ensures 0.0 <= v ==> 0 <= t && t as real <= v < t as real + 1.0
    ensures v < 0.0 ==> t <= 0 && t as real - 1.0 < v <= t as real
  {
    if v >= 0.0 then v.Floor else -((-v).Floor)
  }

  /** A JVM `Float`/`Double` value, modelled on exact reals. */
  datatype KFloat = Finite(v: real) | PosInf | NegInf | NaN

  /** Floating division `a / b` of two finite values (a zero divisor is +0.0). */
  function Div(a: real, b: real): (f: KFloat)
    ensures b != 0.0 ==> f == Finite(a / b)
    ensures b == 0.0 ==> (f == PosInf <==> a > 0.0) && (f == NegInf <==> a < 0.0) && (f == NaN <==> a == 0.0)
  {
    if b != 0.0 then Finite(a / b)
    else if a > 0.0 then PosInf
    else if a < 0.0 then NegInf
    else NaN
  }

  /** Floating multiplication by a positive finite constant. */
  function Scale(f: KFloat, k: real): (g: KFloat)
    requires k > 0.0
    ensures f.Finite? <==> g.Finite?
    ensures f.Finite? ==> g.v == f.v * k
    ensures !f.Finite? ==> g == f
  {
    match f
    case Finite(v) => Finite(v * k)
    case _ => f
  }

  /** Conversion to an integer type with bounds [lo, hi], as `Float.toInt` and
      `Double.toLong` do it: NaN gives 0, infinities and out-of-range values
      saturate, everything else is rounded toward zero. */
  function ToIntegral(f: KFloat, lo: int, hi: int): (r: int)
    requires lo <= 0 <= hi
    ensures lo <= r <= hi
    ensures f == NaN ==> r == 0
    ensures f == PosInf ==> r == hi
    ensures f == NegInf ==> r == lo
    ensures f.Finite? && lo <= Trunc(f.v) <= hi ==> r == Trunc(f.v)
  {
    match f
    case Finite(v) => CoerceIn(Trunc(v), lo, hi)
    case PosInf => hi
    case NegInf => lo
    case NaN => 0
  }

  /** `Float.toInt()`. */
  function ToInt(f: KFloat): (r: int)
    ensures IsInt(r)
  {
    ToIntegral(f, INT_MIN, INT_MAX)
  }

  /** `Double.toLong()`. */
  function ToLong(f: KFloat): (r: int)
    ensures IsLong(r)
  {
    ToIntegral(f, LONG_MIN, LONG_MAX)
  }

  /** The integer part of a non-negative quotient is the integer quotient. */
  lemma TruncOfQuotient(a: int, b: int)
    requires a >= 0 && b > 0
    ensures Trunc(a as real / b as real) == a / b
  {
    var q, r := a / b, a % b;
    assert a as real == q as real * b as real + r as real;
    assert a as real / b as real == q as real + r as real / b as real;
    assert r as real / b as real < 1.0 by {
      assert r as real < b as real;
    }
  }
  /** A quotient of non-negative integers is at most k when the dividend is
      at most k divisors. */
  lemma QuotientAtMost(a: int, b: int, k: int)
    requires 0 <= a <= k * b && b > 0
    ensures 0 <= a / b <= k
  {
    assert (a / b) * b <= a;
  }

  /** Scaling a real quotient by an integer factor scales its dividend. */
  lemma ScaledQuotient(a: int, b: int, k: int)
    requires b > 0
    ensures (a as real / b as real) * k as real == (a * k) as real / b as real
  {
  }
}
