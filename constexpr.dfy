/**
 * cpp11/constexpr.cpp: the recursive `constexpr` factorial,
 * `n <= 1 ? 1 : n * factorial(n - 1)`, and `main`'s `factorial(5)`.
 */
module Constexpr {
  import opened CppInt

  /** `factorial(n)` over unbounded integers. Every argument at most 1,
      negative ones included, is a base case; above it the argument drops
      by one per call, so the recursion ends. The result is positive and at
      least `n`. */
  function Factorial(n: int): (r: int)
    ensures r >= 1
    ensures r >= n
    decreases n
  {
    if n <= 1 then 1 else n * Factorial(n - 1)
  }

  /** Each factorial is at least the one before it. */
  lemma {:induction false} FactorialMonotone(m: int, n: int)
    requires m <= n
    ensures Factorial(m) <= Factorial(n)
    decreases n - m
  {
    if m < n {
      FactorialMonotone(m, n - 1);
      if n > 1 {
        ScaleAtLeast(Factorial(n - 1), n, 1);
      }
    }
  }

  /** For every `n <= 12` the C++ `int` computation is free of overflow:
      each product `n * factorial(n - 1)` it forms is some `factorial(k)`
      with `k <= 12`, and `12! == 479001600` fits in an `int`. */
  lemma FactorialFitsInt32(n: int)
    requires n <= 12
    ensures Factorial(n) <= MAX
  {
    FactorialMonotone(n, 12);
    FactorialTwelve();
  }

  lemma FactorialTwelve()
    ensures Factorial(12) == 479001600
  {
    assert Factorial(5) == 120;
    assert Factorial(8) == 40320;
    assert Factorial(11) == 39916800;
  }

  /** The bound is tight: `13!` does not fit in an `int`. */
  lemma FactorialThirteenOverflows()
    ensures Factorial(13) > MAX
  {
    FactorialTwelve();
  }

  /** `main` prints 120. */
  lemma MainResult()
    ensures Factorial(5) == 120
  {
  }
}
