/**
 * Host numeric behaviour the interpreter depends on: C#'s 32-bit `int`
 * (unchecked wrap-around for + - * and unary -, truncating / and %),
 * decimal rendering and parsing of integers, and an opaque bundle of
 * IEEE-754 double operations supplied by the host.
 */
module Numerics {

  const INT_MIN: int := -0x8000_0000
  const INT_MAX: int := 0x7fff_ffff
  const TWO_32: int := 0x1_0000_0000

  /** C# `int`. */
  newtype int32 = x: int | -0x8000_0000 <= x < 0x8000_0000

  /** Two's-complement truncation of an unbounded integer to 32 bits. */
  function Wrap(x: int): (r: int32)
    ensures INT_MIN <= x <= INT_MAX ==> r as int == x
    ensures (x - r as int) % TWO_32 == 0
  {
    ((x - INT_MIN) % TWO_32 + INT_MIN) as int32
  }

  /** Unchecked 32-bit arithmetic, as C# performs it by default. */
  function Add32(a: int32, b: int32): int32 { Wrap(a as int + b as int) }
  function Sub32(a: int32, b: int32): int32 { Wrap(a as int - b as int) }
  function Mul32(a: int32, b: int32): int32 { Wrap(a as int * b as int) }
  function Neg32(a: int32): int32 { Wrap(-(a as int)) }

  lemma NegMinValue()
    ensures Neg32(INT_MIN as int32) == INT_MIN as int32
  {
  }

  function Abs(x: int): nat { if x < 0 then -x else x }

  /** Quotient rounded toward zero (C#, Java, C), unlike Dafny's Euclidean `/`. */
  function TruncDiv(a: int, b: int): int
    requires b != 0
  {
    var m := Abs(a) / Abs(b);
    if (a < 0) == (b < 0) then m else -m
  }

  /** Remainder whose sign follows the dividend (C# `%`). */
  function TruncRem(a: int, b: int): int
    requires b != 0
  {
    a - b * TruncDiv(a, b)
  }

  lemma MulAtLeast(b: int, m: int, k: int)
    requires b >= k && m >= 0
    ensures b * m >= k * m
  {
  }

  lemma EuclidNat(A: int, B: int)
    requires A >= 0 && B > 0
    ensures A == B * (A / B) + A % B && 0 <= A % B < B && 0 <= A / B <= A
    ensures B >= 2 ==> 2 * (A / B) <= A
  {
    var m := A / B;
    assert A == B * m + A % B && 0 <= A % B;
    MulAtLeast(B, m, 1);
    if B >= 2 {
      MulAtLeast(B, m, 2);
    }
  }

  /** Truncating division: the remainder is smaller than the divisor and carries the dividend's sign. */
  lemma TruncDivRem(a: int, b: int)
    requires b != 0
    ensures a == b * TruncDiv(a, b) + TruncRem(a, b)
    ensures Abs(TruncRem(a, b)) < Abs(b)
    ensures TruncRem(a, b) == 0 || (TruncRem(a, b) < 0 <==> a < 0)
    ensures Abs(TruncDiv(a, b)) == Abs(a) / Abs(b)
  {
    var A: int, B: int := Abs(a), Abs(b);
    EuclidNat(A, B);
    var m: int, r: int := A / B, A % B;
    var q := TruncDiv(a, b);
    if a >= 0 && b > 0 {
      assert q == m;
      assert a - b * q == r;
    } else if a < 0 && b < 0 {
      assert q == m;
      assert b * q == -(B * m);
      assert a - b * q == -r;
    } else if a >= 0 && b < 0 {
      assert q == -m;
      assert b * q == B * m;
      assert a - b * q == r;
    } else {
      assert q == -m;
      assert b * q == -(B * m);
      assert a - b * q == -r;
    }
  }

  /** C# throws for `int.MinValue / -1` and `int.MinValue % -1`; both are reported by the caller. */
  predicate DivOverflows(a: int32, b: int32)
  {
    a as int == INT_MIN && b as int == -1
  }

  function Div32(a: int32, b: int32): (q: int32)
    requires b != 0 && !DivOverflows(a, b)
    ensures q as int == TruncDiv(a as int, b as int)
  {
    TruncDivInRange(a as int, b as int);
    TruncDiv(a as int, b as int) as int32
  }

  function Rem32(a: int32, b: int32): (r: int32)
    requires b != 0
    ensures r as int == TruncRem(a as int, b as int)
  {
    TruncDivRem(a as int, b as int);
    TruncRem(a as int, b as int) as int32
  }

  lemma TruncDivInRange(a: int, b: int)
    requires INT_MIN <= a <= INT_MAX && INT_MIN <= b <= INT_MAX && b != 0
    requires !(a == INT_MIN && b == -1)
    ensures INT_MIN <= TruncDiv(a, b) <= INT_MAX
  {
    EuclidNat(Abs(a), Abs(b));
  }

  // ---------------------------------------------------------------------
  // Decimal text of integers (int.ToString with the invariant culture),
  // and the value of a run of ASCII digits (int.Parse of such a run).

  predicate IsDigit(c: char) { '0' <= c <= '9' }

  function DigitChar(d: nat): (c: char)
    requires d < 10
    ensures IsDigit(c) && c as int - '0' as int == d
  {
    ('0' as int + d) as char
  }

  function NatToString(n: nat): (s: string)
    ensures |s| > 0 && forall i :: 0 <= i < |s| ==> IsDigit(s[i])
    decreases n
  {
    if n < 10 then [DigitChar(n)] else NatToString(n / 10) + [DigitChar(n % 10)]
  }

  function IntToString(i: int): (s: string)
    ensures |s| > 0
    ensures (s[0] == '-') <==> i < 0
  {
    if i < 0 then "-" + NatToString(-i) else NatToString(i)
  }

  /** The value of a decimal digit; other characters count as zero. */
  function DigitValue(c: char): nat
  {
    if IsDigit(c) then c as int - '0' as int else 0
  }

  /** The value of a (possibly empty) run of decimal digits, most significant first. */
  function DigitsValue(s: string): nat
  {
    if |s| == 0 then 0 else DigitsValue(s[..|s| - 1]) * 10 + DigitValue(s[|s| - 1])
  }

  /** Parsing the rendering of a natural number gives the number back. */
  lemma {:induction false} DigitsValueOfNatToString(n: nat)
    ensures DigitsValue(NatToString(n)) == n
    decreases n
  {
    var s := NatToString(n);
    if n >= 10 {
      DigitsValueOfNatToString(n / 10);
      assert s[..|s| - 1] == NatToString(n / 10);
    }
  }

  // ---------------------------------------------------------------------
  // Doubles. Their arithmetic, comparison, parsing (double.Parse) and
  // rendering (double.ToString) are host floating-point behaviour that is
  // not modelled; a double is an opaque 64-bit pattern and every operation
  // on it is a function supplied by the host.

  type Float64 = bv64

  /** The bit pattern of +0.0, the default value of a `double` field. */
  const FLOAT_ZERO: Float64 := 0

  datatype FloatOps = FloatOps(
    parse: string -> Float64,
    show: Float64 -> string,
    ofInt: int32 -> Float64,
    add: (Float64, Float64) -> Float64,
    sub: (Float64, Float64) -> Float64,
    mul: (Float64, Float64) -> Float64,
    div: (Float64, Float64) -> Float64,
    rem: (Float64, Float64) -> Float64,
    neg: Float64 -> Float64,
    less: (Float64, Float64) -> bool,
    equal: (Float64, Float64) -> bool)
}
