/**
 * cpp23/optional_monadic.cpp: `safe_divide` and the chain in `main`,
 *   safe_divide(10, 2).and_then(n -> safe_divide(n, 2))
 *                     .transform(n -> n * 2)
 *                     .or_else(() -> 0)
 * generalised here to any first dividend and divisor.
 */
module OptionalMonadic {
  import opened CppInt
  import opened StdTypes
  import OptionalDivide

  /** `safe_divide(a, b)`: empty for a zero divisor, otherwise the quotient
      truncated toward zero. `MIN / -1` overflows in C++ and is excluded. */
  function SafeDivide(a: Int32, b: Int32): (r: Optional<Int32>)
    requires !(a == MIN && b == -1)
    ensures r == Nullopt <==> b == 0
    ensures r.Some? ==> Abs(a - r.value * b) < Abs(b)
    ensures r.Some? ==> a - r.value * b == 0 || (a - r.value * b < 0 <==> a < 0)
  {
    if b == 0 then Nullopt
    else
      QuotInRange(a, b);
      Some(Quot(a, b))
  }

  /** `safe_divide` and the `divide` of cpp17/optional.cpp give the same
      optional for every pair of arguments. */
  lemma SameAsCpp17Divide(a: Int32, b: Int32)
    requires !(a == MIN && b == -1)
    ensures SafeDivide(a, b) == OptionalDivide.Divide(a, b)
  {
  }

  /** The `and_then` continuation of `main`: `n -> safe_divide(n, 2)`. */
  function Half(n: Int32): (r: Optional<Int32>)
    ensures r.Some? && Abs(2 * r.value) <= Abs(n)
  {
    SafeDivide(n, 2)
  }

  /** The `transform` continuation of `main`: `n -> n * 2`. The chain only
      passes it halves, whose double cannot overflow. */
  function Double(n: Int32): (r: Int32)
    requires MIN <= 2 * n <= MAX
    ensures r == 2 * n
  {
    n * 2
  }

  /** The chain of `main`, starting from `safe_divide(a, b)`. The `or_else`
      fallback yields an optional holding 0. */
  function Pipeline(a: Int32, b: Int32): (r: Optional<Int32>)
    requires !(a == MIN && b == -1)
    ensures r.Some?
  {
    SafeDivide(a, b).AndThen(Half).Transform(Double).OrElse(() => Some(0))
  }

  /** The chain yields the first quotient rounded toward zero to an even
      number, and 0 when the first divisor is 0. */
  lemma PipelineValue(a: Int32, b: Int32)
    requires !(a == MIN && b == -1)
    ensures b == 0 ==> Pipeline(a, b) == Some(0)
    ensures b != 0 ==> Pipeline(a, b) == Some(2 * Quot(Quot(a, b), 2))
  {
  }

  /** What that value is, stated without the chain: even, of the sign of the
      first quotient, and short of it by at most one. */
  lemma PipelineRoundsToEven(a: Int32, b: Int32)
    requires b != 0 && !(a == MIN && b == -1)
    ensures var q, r := Quot(a, b), Pipeline(a, b).value;
      r % 2 == 0 && Abs(r) <= Abs(q) && Abs(q) - Abs(r) <= 1 && (r != 0 ==> (r < 0 <==> q < 0))
  {
    PipelineValue(a, b);
  }

  /** `and_then` on an empty optional stays empty and `or_else` then
      supplies 0: with a zero first divisor the whole chain gives 0. */
  lemma ZeroDivisorGivesZero(a: Int32)
    ensures Pipeline(a, 0) == Some(0)
  {
    PipelineValue(a, 0);
  }

  /** `main`: 10 / 2 == 5, 5 / 2 == 2, 2 * 2 == 4. */
  lemma MainResult()
    ensures Pipeline(10, 2) == Some(4)
  {
    PipelineValue(10, 2);
    QuotUnique(10, 2, 5);
    QuotUnique(5, 2, 2);
  }
}
