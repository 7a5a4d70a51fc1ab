/**
 * cpp23/generator.cpp: the coroutine `fibonacci()` keeps two `int`s,
 * `a = 0` and `b = 1`, across resumptions. Each value it produces is the
 * current `a`; on the next resumption it steps `(a, b)` to `(b, a + b)`
 * through `temp`, then yields again. It never returns. `main` draws ten
 * values from it.
 */
module Generator {
  import opened CppInt

  /** The Fibonacci numbers: 0, 1, 1, 2, 3, 5, ... */
  function Fib(k: nat): (r: nat)
  {
    if k < 2 then k else Fib(k - 1) + Fib(k - 2)
  }

  /** The state of a `fibonacci()` coroutine between two calls. Like every
      `std::generator`, it starts suspended before its body: the first call
      runs `int a = 0, b = 1;` up to the first `co_yield a`; every later
      call resumes after that `co_yield`, steps the pair and yields again. */
  class Fibonacci {
    var a: Int32
    var b: Int32
    /** Whether the body has reached its `co_yield` at least once. */
    var started: bool
    /** How many values have been produced so far. */
    ghost var yielded: nat

    /** After k >= 1 values the coroutine is suspended at the `co_yield`
        of its last value, `a == Fib(k - 1)`, and `b` runs one term ahead;
        before the first value `a` and `b` hold their initial 0 and 1. */
    ghost predicate Valid()
      reads this
    {
      var j := if yielded == 0 then 0 else yielded - 1;
      && started == (yielded > 0)
      && a == Fib(j)
      && b == Fib(j + 1)
    }

    /** `fibonacci()`: nothing produced yet. */
    constructor ()
      ensures Valid() && yielded == 0
      ensures a == 0 && b == 1 && !started
    {
      a, b, started := 0, 1, false;
      yielded := 0;
    }

    /** Draw the next value. A call after the first computes
        `b == Fib(yielded + 1)`, which overflows an `int` past `Fib(46)`:
        so at most 46 values can be drawn. Every call yields exactly one
        value, the `yielded`-th Fibonacci number. */
    method Next() returns (y: Int32)
      requires Valid()
      requires yielded <= 45
      modifies this
      ensures Valid()
      ensures yielded == old(yielded) + 1
      ensures y == Fib(old(yielded))
      ensures old(started) ==> a == old(b) && b == old(a) + old(b)
      ensures !old(started) ==> a == old(a) && b == old(b)
      ensures started
    {
      if started {
        FibFitsInt32(yielded + 1);
        var temp := a;
        a := b;
        b := temp + b;
      }
      started := true;
      y := a;
      yielded := yielded + 1;
    }
  }

  /** The Fibonacci numbers never decrease. */
  lemma {:induction false} FibMonotone(m: nat, n: nat)
    requires m <= n
    ensures Fib(m) <= Fib(n)
    decreases n - m
  {
    if m < n {
      FibMonotone(m, n - 1);
    }
  }

  /** Every term up to `Fib(46) == 1836311903` is an `int`. */
  lemma FibFitsInt32(k: nat)
    requires k <= 46
    ensures Fib(k) <= MAX
  {
    FibMonotone(k, 46);
    FibFortySix();
  }

  /** `Fib(47) == 2971215073` is not: the bound on the calls is tight. */
  lemma FibFortySevenOverflows()
    ensures Fib(47) > MAX
  {
    FibFortySix();
  }

  // Values of Fib, each step from the two before it.

  lemma FibTen()
    ensures Fib(9) == 34 && Fib(10) == 55
  {
    assert Fib(2) == 1;
    assert Fib(3) == 2;
    assert Fib(4) == 3;
    assert Fib(5) == 5;
    assert Fib(6) == 8;
    assert Fib(7) == 13;
    assert Fib(8) == 21;
  }

  lemma FibTwenty()
    ensures Fib(19) == 4181 && Fib(20) == 6765
  {
    FibTen();
    assert Fib(11) == 89;
    assert Fib(12) == 144;
    assert Fib(13) == 233;
    assert Fib(14) == 377;
    assert Fib(15) == 610;
    assert Fib(16) == 987;
    assert Fib(17) == 1597;
    assert Fib(18) == 2584;
  }

  lemma FibThirty()
    ensures Fib(29) == 514229 && Fib(30) == 832040
  {
    FibTwenty();
    assert Fib(21) == 10946;
    assert Fib(22) == 17711;
    assert Fib(23) == 28657;
    assert Fib(24) == 46368;
    assert Fib(25) == 75025;
    assert Fib(26) == 121393;
    assert Fib(27) == 196418;
    assert Fib(28) == 317811;
  }

  lemma FibForty()
    ensures Fib(39) == 63245986 && Fib(40) == 102334155
  {
    FibThirty();
    assert Fib(31) == 1346269;
    assert Fib(32) == 2178309;
    assert Fib(33) == 3524578;
    assert Fib(34) == 5702887;
    assert Fib(35) == 9227465;
    assert Fib(36) == 14930352;
    assert Fib(37) == 24157817;
    assert Fib(38) == 39088169;
  }

  lemma FibFortySix()
    ensures Fib(45) == 1134903170 && Fib(46) == 1836311903
  {
    FibForty();
    assert Fib(41) == 165580141;
    assert Fib(42) == 267914296;
    assert Fib(43) == 433494437;
    assert Fib(44) == 701408733;
  }

  /** `main`'s loop, for any number of draws the `int` range allows: the
      i-th value drawn is `Fib(i)`. */
  method Draw(count: nat) returns (values: seq<int>)
    requires count <= 46
    ensures |values| == count
    ensures forall i :: 0 <= i < count ==> values[i] == Fib(i)
  {
    var fib := new Fibonacci();
    values := [];
    for i := 0 to count
      invariant fib.Valid() && fib.yielded == i
      invariant |values| == i
      invariant forall j :: 0 <= j < i ==> values[j] == Fib(j)
    {
      var v := fib.Next();
      values := values + [v];
    }
  }

  /** The drawn values start 0, 1; from the third on each is the sum of the
      two before it; none is negative, and they never decrease. */
  lemma DrawnValues(values: seq<int>)
    requires forall i :: 0 <= i < |values| ==> values[i] == Fib(i)
    ensures |values| >= 2 ==> values[0] == 0 && values[1] == 1
    ensures forall i :: 2 <= i < |values| ==> values[i] == values[i - 1] + values[i - 2]
    ensures forall i :: 0 <= i < |values| ==> values[i] >= 0
    ensures forall i, j :: 0 <= i <= j < |values| ==> values[i] <= values[j]
  {
    forall i, j | 0 <= i <= j < |values|
      ensures values[i] <= values[j]
    {
      FibMonotone(i, j);
    }
  }

  /** `main` prints `0 1 1 2 3 5 8 13 21 34`. */
  method MainOutput() returns (values: seq<int>)
    ensures values == [0, 1, 1, 2, 3, 5, 8, 13, 21, 34]
  {
    values := Draw(10);
    FibTen();
  }
}
