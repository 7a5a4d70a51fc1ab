/**
 * The C++ `int` arithmetic the examples rely on: the 32-bit range of `int`
 * and the built-in `/`, which truncates toward zero (section 7.6.5
 * [expr.mul] paragraph 4 of ISO/IEC 14882:2020). Dafny's own `/` is
 * Euclidean, so it is never used for a C++ quotient.
 */
module CppInt {

  const MIN: int := -0x8000_0000
  const MAX: int := 0x7FFF_FFFF

  /** A value of C++ `int`. Signed overflow is undefined behaviour, so every
      intermediate value of the modelled code must stay in this range. */
  type Int32 = x: int | MIN <= x <= MAX

  function Abs(x: int): (r: nat)
  {
    if x < 0 then -x else x
  }

  /** C++ `a / b` on integers: the quotient truncated toward zero. The
      remainder `a - q * b` is smaller than the divisor in magnitude and is
      zero or carries the sign of the dividend. */
  function Quot(a: int, b: int): (q: int)
    requires b != 0
    ensures Abs(a - q * b) < Abs(b)
    ensures a - q * b == 0 || (a - q * b < 0 <==> a < 0)
  {
    var m := Abs(a) / Abs(b);
    assert Abs(a) - m * Abs(b) < Abs(b);
    if (a < 0) == (b < 0) then m else -m
  }

  /** The two properties of Quot's contract fix the quotient: no other
      integer satisfies them. */
  lemma QuotUnique(a: int, b: int, q: int)
    requires b != 0
    requires Abs(a - q * b) < Abs(b)
    requires a - q * b == 0 || (a - q * b < 0 <==> a < 0)
    ensures q == Quot(a, b)
  {
    var p := Quot(a, b);
    var r1, r2 := a - p * b, a - q * b;
    // Both remainders lie on the dividend's side of zero, closer than |b|.
    assert Abs(r1 - r2) < Abs(b);
    if q != p {
      var d := q - p;
      assert r1 - r2 == d * b by { Distribute(q, p, b); }
      MulMonotone(d, b);
      assert false;
    }
  }

  lemma Distribute(q: int, p: int, b: int)
    ensures q * b - p * b == (q - p) * b
  {
  }

  lemma MulMonotone(d: int, b: int)
    requires d != 0
    ensures Abs(d * b) >= Abs(b)
  {
    if d > 0 && b >= 0 {
      assert d * b >= b;
    } else if d > 0 {
      assert d * b <= b;
    } else if b >= 0 {
      assert d * b <= -b;
    } else {
      assert d * b >= -b;
    }
  }

  /** On a non-negative dividend and a positive divisor truncation and
      Dafny's Euclidean division agree. */
  lemma QuotNonNegative(a: int, b: int)
    requires a >= 0 && b > 0
    ensures Quot(a, b) == a / b
  {
  }

  /** With a negative inexact quotient they differ: C++ gives -7 / 2 == -3,
      Euclidean division gives -4. */
  lemma QuotTruncatesTowardZero()
    ensures Quot(-7, 2) == -3 && -7 / 2 == -4
  {
    QuotUnique(-7, 2, -3);
  }

  /** The quotient of two `int`s is an `int` in every case but
      `MIN / -1`, whose value `MAX + 1` overflows. */
  lemma QuotInRange(a: Int32, b: Int32)
    requires b != 0
    ensures MIN <= Quot(a, b) <= MAX <==> !(a == MIN && b == -1)
  {
    var q := Quot(a, b);
    if a == MIN && b == -1 {
      QuotUnique(a, b, MAX + 1);
    } else {
      QuotBound(a, b);
      if Abs(b) == 1 {
        assert q == a || q == -a;
      }
    }
  }

  /** The quotient is never larger in magnitude than the dividend, and is
      strictly smaller when the divisor is not 1 or -1 and the dividend is
      not zero. */
  lemma QuotBound(a: int, b: int)
    requires b != 0
    ensures Abs(Quot(a, b)) <= Abs(a)
    ensures Abs(b) > 1 && a != 0 ==> Abs(Quot(a, b)) < Abs(a)
  {
    var x, y := Abs(a), Abs(b);
    var m := x / y;
    assert Abs(Quot(a, b)) == m;
    assert m * y <= x by { assert x == m * y + x % y; }
    ScaleAtLeast(m, y, if y > 1 then 2 else 1);
  }

  lemma ScaleAtLeast(m: nat, y: int, k: int)
    requires y >= k
    ensures m * y >= m * k
  {
  }
}
