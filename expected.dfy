/**
 * cpp23/expected.cpp: `divide` returns the truncated quotient, or for a
 * zero divisor an unexpected error carrying the message
 * "Division by zero"; `main` divides 10 by 2 and prints either the value
 * or the error.
 */
module ExpectedDivide {
  import opened CppInt
  import opened StdTypes
  import OptionalDivide

  const DivisionByZero: string := "Division by zero"

  /** `divide(a, b)`. `MIN / -1` is undefined behaviour in C++ and is
      excluded. */
  function Divide(a: Int32, b: Int32): (r: Expected<Int32, string>)
    requires !(a == MIN && b == -1)
    ensures r.Unexpected? <==> b == 0
    ensures r.Unexpected? ==> r.error == "Division by zero"
    ensures r.Value? ==> Abs(a - r.value * b) < Abs(b)
    ensures r.Value? ==> a - r.value * b == 0 || (a - r.value * b < 0 <==> a < 0)
  {
    if b == 0 then Unexpected(DivisionByZero)
    else
      QuotInRange(a, b);
      Value(Quot(a, b))
  }

  /** The error branch of `main`: the message it prints, for a zero
      divisor and any dividend. */
  lemma ZeroDivisorMessage(a: Int32)
    ensures Divide(a, 0) == Unexpected("Division by zero")
  {
  }

  /** `divide` here and in cpp17/optional.cpp agree: an error exactly when
      that one is `nullopt`, and otherwise the same quotient. */
  lemma AgreesWithOptional(a: Int32, b: Int32)
    requires !(a == MIN && b == -1)
    ensures Divide(a, b).Unexpected? <==> OptionalDivide.Divide(a, b) == Nullopt
    ensures Divide(a, b).Value? ==> Divide(a, b).value == OptionalDivide.Divide(a, b).value
  {
  }

  /** In `main`, `divide(10, 2)` holds the value 5, so the success branch
      runs. */
  lemma MainResult()
    ensures Divide(10, 2) == Value(5)
  {
    QuotUnique(10, 2, 5);
  }
}
