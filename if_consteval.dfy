/**
 * cpp23/if_consteval.cpp: one `factorial` with two bodies. Under constant
 * evaluation (`if consteval`) it recurses, `n <= 1 ? 1 : n * factorial(n - 1)`;
 * at run time it multiplies `result` by `i = 2, 3, ..., n` in a loop. `main`
 * calls it once each way with 5.
 */
module IfConsteval {
  import opened CppInt
  import Constexpr

  /** The compile-time branch. Its recursive call is again constant
      evaluated, so it takes this branch all the way down. */
  function CompileTime(n: int): (r: int)
    ensures r >= 1
    ensures r >= n
    decreases n
  {
    if n <= 1 then 1 else n * CompileTime(n - 1)
  }

  /** The compile-time branch and the factorial of cpp11/constexpr.cpp are
      the same function. */
  lemma {:induction false} CompileTimeIsConstexpr(n: int)
    ensures CompileTime(n) == Constexpr.Factorial(n)
    decreases n
  {
    if n > 1 {
      CompileTimeIsConstexpr(n - 1);
    }
  }

  /** The run-time branch: the `for` loop over `i`. It is called with a C++
      `int`; above 12 the product overflows, which C++ leaves undefined. The
      loop body runs `max(0, n - 1)` times, and the result is the value the
      compile-time branch gives for the same argument. */
  method RunTime(n: Int32) returns (result: Int32)
    requires n <= 12
    ensures result == CompileTime(n)
    ensures result >= 1
  {
    result := 1;
    var i: Int32 := 2;
    ghost var trips := 0;
    while i <= n
      invariant 2 <= i <= if n < 2 then 2 else n + 1
      invariant result == CompileTime(i - 1)
      invariant trips == i - 2
    {
      CompileTimeIsConstexpr(i);
      Constexpr.FactorialFitsInt32(i);
      result := result * i;
      i := i + 1;
      trips := trips + 1;
    }
    assert i == (if n < 1 then 1 else n) + 1;
    assert trips == if n < 2 then 0 else n - 1;
  }

  /** `main`: the constant-evaluated `factorial(5)` and the run-time one
      agree, and both are 120. */
  method MainResults() returns (compileTimeResult: int, runtimeResult: int)
    ensures compileTimeResult == runtimeResult == 120
  {
    compileTimeResult := CompileTime(5);
    runtimeResult := RunTime(5);
  }
}
