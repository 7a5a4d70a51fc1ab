/**
 * cpp17/optional.cpp: `divide` returns `std::nullopt` for a zero divisor
 * and the truncated quotient otherwise; `main` divides 10 by 2 and prints
 * the result only when one is present.
 */
module OptionalDivide {
  import opened CppInt
  import opened StdTypes

  /** `divide(a, b)`. The arguments are C++ `int`s; `MIN / -1` is
      undefined behaviour in C++ and is excluded. */
  function Divide(a: Int32, b: Int32): (r: Optional<Int32>)
    requires !(a == MIN && b == -1)
    ensures r == Nullopt <==> b == 0
    ensures r.Some? ==> Abs(a - r.value * b) < Abs(b)
    ensures r.Some? ==> a - r.value * b == 0 || (a - r.value * b < 0 <==> a < 0)
  {
    if b == 0 then Nullopt
    else
      QuotInRange(a, b);
      Some(Quot(a, b))
  }

  /** The quotient is rounded toward zero also for a negative dividend:
      `divide(-7, 2)` holds -3 (Euclidean division would give -4). */
  lemma DivideNegative()
    ensures Divide(-7, 2) == Some(-3)
  {
    QuotTruncatesTowardZero();
  }

  /** In `main`, `divide(10, 2)` holds 5, so the guarded output runs. */
  lemma MainResult()
    ensures Divide(10, 2) == Some(5)
  {
    QuotUnique(10, 2, 5);
  }
}
