# C++ feature examples: the integer logic, modelled and proved in Dafny

The repository is a collection of short C++11–C++23 example programs. A few of
them contain integer logic of their own, and this project models that logic:

- the recursive `constexpr` factorial (`cpp11/constexpr.cpp`);
- the C++23 `factorial` with an `if consteval` recursive branch and a run-time
  `for` loop (`cpp23/if_consteval.cpp`);
- the `fibonacci()` coroutine of `cpp23/generator.cpp`, with its two `int`s
  `a` and `b` that outlive each resumption;
- three checked divisions: `divide` returning `std::optional<int>`
  (`cpp17/optional.cpp`), `safe_divide` and its `and_then` / `transform` /
  `or_else` chain (`cpp23/optional_monadic.cpp`), and `divide` returning
  `std::expected<int, std::string>` (`cpp23/expected.cpp`);
- the static subscript operator of `MyArray`
  (`cpp23/static_operator_brackets.cpp`).

Files and modules:

| file | module | models |
|---|---|---|
| cpp_int.dfy | `CppInt` | C++ `int` (a 32-bit subset type `Int32`) and `/`, which truncates toward zero (section 7.6.5 [expr.mul] paragraph 4 of ISO/IEC 14882:2020); Dafny's Euclidean `/` is never used for a C++ quotient |
| std_types.dfy | `StdTypes` | `std::optional` with `and_then`, `transform`, `or_else`; `std::expected` |
| constexpr.dfy | `Constexpr` | cpp11/constexpr.cpp |
| if_consteval.dfy | `IfConsteval` | cpp23/if_consteval.cpp |
| generator.dfy | `Generator` | cpp23/generator.cpp |
| optional.dfy | `OptionalDivide` | cpp17/optional.cpp |
| optional_monadic.dfy | `OptionalMonadic` | cpp23/optional_monadic.cpp |
| expected.dfy | `ExpectedDivide` | cpp23/expected.cpp |
| static_operator_brackets.dfy | `StaticOperatorBrackets` | cpp23/static_operator_brackets.cpp |

Signed overflow is undefined behaviour in C++. The division functions, the
run-time factorial loop and the generator therefore use the 32-bit subset
type `Int32` for their C++ `int` parameters, fields and results, so the
verifier proves that their computations stay in range. Where an input would
overflow, a precondition excludes it, and a lemma shows the bound is tight:

- the run-time factorial takes `n <= 12`, because `13!` exceeds `INT_MAX`;
- the generator allows 46 draws: drawing value k (k >= 1) computes `b = Fib(k + 1)`, and
  `Fib(47)` exceeds `INT_MAX`;
- the divisions exclude `INT_MIN / -1`. A zero divisor is not excluded: it
  takes each function's error path.

The two recursive factorials (`Constexpr.Factorial` and
`IfConsteval.CompileTime`) are the exception. They take and return unbounded
integers and have no precondition. The 32-bit bound for them is a separate
lemma: `Constexpr.FactorialFitsInt32` shows that every value they form for
`n <= 12` fits in an `int`.

The generator is a class. Its fields are the coroutine's locals `a` and `b`,
plus a flag `started`. The flag is needed because an `std::generator` starts
suspended before its body runs. The first draw therefore runs `a = 0, b = 1`
up to the first `co_yield a`. Every later draw resumes after the `co_yield`,
steps `(a, b)` to `(b, a + b)` through `temp`, and yields again. A ghost
counter, `yielded`, ties the state to `Fib`.

Things the source writes differently from what is modelled:

- `main` of cpp23/optional_monadic.cpp passes `or_else` a function that
  returns `0`. The standard requires that function to return an
  `std::optional<int>`. The model uses the evident meaning: an optional
  holding 0.
- `main` of cpp23/generator.cpp draws values with `fib()`, but
  `std::generator` has no call operator. The model's `Next` is the evident
  step: resume the coroutine and read the value it yields.
- The comment on `arr[2]` in cpp23/static_operator_brackets.cpp says the
  call uses the array's data. It does not: an object subscript also calls the
  static operator. The result is 3 either way, and `IgnoresObject` states
  this.

## Model

| member | source | states |
|---|---|---|
| CppInt.Quot | cpp17/optional.cpp:7 | the C++ quotient: its remainder `a - q*b` is smaller than the divisor in magnitude and is zero or has the dividend's sign (truncation toward zero) |
| CppInt.QuotUnique | cpp17/optional.cpp:7 | those two remainder properties determine the quotient uniquely, so `Quot` is C++ division and nothing else |
| CppInt.QuotNonNegative | cpp17/optional.cpp:7 | for a non-negative dividend and positive divisor the C++ quotient equals Euclidean division |
| CppInt.QuotTruncatesTowardZero | cpp17/optional.cpp:7 | `-7 / 2` is -3 in C++ while Euclidean division gives -4 |
| CppInt.QuotInRange | cpp23/expected.cpp:9 | the quotient of two `int`s is an `int` exactly when the operands are not `INT_MIN` and -1 |
| CppInt.QuotBound | cpp23/optional_monadic.cpp:11 | the quotient is no larger than the dividend in magnitude, and strictly smaller for a divisor other than ±1 and a non-zero dividend |
| OptionalDivide.Divide | cpp17/optional.cpp:5-8 | `nullopt` exactly for a zero divisor; otherwise the truncated quotient (remainder properties of `Quot`) |
| OptionalDivide.DivideNegative | cpp17/optional.cpp:7 | `divide(-7, 2)` holds -3 |
| OptionalDivide.MainResult | cpp17/optional.cpp:11-12 | `divide(10, 2)` holds 5, so the guarded output in `main` runs |
| OptionalMonadic.SafeDivide | cpp23/optional_monadic.cpp:4-7 | empty exactly for a zero divisor; otherwise the truncated quotient |
| OptionalMonadic.SameAsCpp17Divide | cpp23/optional_monadic.cpp:4-7 | `safe_divide` and cpp17's `divide` return the same optional for every input |
| StdTypes.Optional.AndThen | cpp23/optional_monadic.cpp:11 | `and_then` on `Nullopt` is `Nullopt` without calling `f`; on an engaged optional it is `f(value)` |
| StdTypes.Optional.Transform | cpp23/optional_monadic.cpp:12 | `transform` on `Nullopt` is `Nullopt`; on an engaged optional it holds `f(value)` |
| StdTypes.Optional.OrElse | cpp23/optional_monadic.cpp:13 | `or_else` on an engaged optional is that optional unchanged; on `Nullopt` it is the fallback's result |
| OptionalMonadic.Double | cpp23/optional_monadic.cpp:12 | the `transform` lambda returns twice its argument; it requires the double to fit in an `int` |
| OptionalMonadic.Half | cpp23/optional_monadic.cpp:11 | the `and_then` continuation always holds a value whose double is no larger than its argument, so the `transform` that follows cannot overflow |
| OptionalMonadic.Pipeline | cpp23/optional_monadic.cpp:10-13 | after `or_else` the chain always holds a value |
| OptionalMonadic.PipelineValue | cpp23/optional_monadic.cpp:10-13 | the chain yields 0 when the first divisor is 0, and `2 * ((a / b) / 2)` otherwise |
| OptionalMonadic.PipelineRoundsToEven | cpp23/optional_monadic.cpp:10-13 | for a non-zero divisor the result is even, has the first quotient's sign, and is smaller than that quotient by at most 1 in magnitude |
| OptionalMonadic.ZeroDivisorGivesZero | cpp23/optional_monadic.cpp:10-13 | with a zero first divisor `and_then` stays empty and `or_else` supplies 0 |
| OptionalMonadic.MainResult | cpp23/optional_monadic.cpp:10-13 | the chain of `main` yields 4 (10/2 = 5, 5/2 = 2, 2*2 = 4) |
| ExpectedDivide.Divide | cpp23/expected.cpp:5-10 | an error exactly for a zero divisor, with the message "Division by zero"; otherwise a value, the truncated quotient |
| ExpectedDivide.ZeroDivisorMessage | cpp23/expected.cpp:6-7 | every zero-divisor call gives `unexpected("Division by zero")` |
| ExpectedDivide.AgreesWithOptional | cpp23/expected.cpp:5-10 | an error exactly when cpp17's `divide` is `nullopt`, and otherwise that divide's value |
| ExpectedDivide.MainResult | cpp23/expected.cpp:13-15 | `divide(10, 2)` is the value 5, so `main` takes the success branch |
| StaticOperatorBrackets.DefaultArray | cpp23/static_operator_brackets.cpp:4-5 | the default member initialiser gives `size` elements, with element `k` holding `k + 1` (that is, `{1, 2, 3}`) |
| StaticOperatorBrackets.ObjectSubscript | cpp23/static_operator_brackets.cpp:15 | `arr[i]` on an object is the static operator's result for `i` |
| StaticOperatorBrackets.Subscript | cpp23/static_operator_brackets.cpp:4-9 | the static `operator[]` lies in 0..size, is 0 exactly from `size` on, and below `size` equals the initialised `data[i]` |
| StaticOperatorBrackets.AgreesWithData | cpp23/static_operator_brackets.cpp:5-8 | on a default-initialised object, `arr[i] == data[i]` for every index within the data and 0 beyond it |
| StaticOperatorBrackets.IgnoresObject | cpp23/static_operator_brackets.cpp:7-8 | `arr[i]` is the same for every object, the static operator's value; this is C++'s rule for a static `operator[]` called through an object, encoded in `ObjectSubscript`, not derived |
| StaticOperatorBrackets.MainResults | cpp23/static_operator_brackets.cpp:14-15 | `MyArray::operator[](1) == 2` and `arr[2] == 3` |
| Constexpr.Factorial | cpp11/constexpr.cpp:3-5 | the recursion ends for every argument (the argument drops by one toward the `n <= 1` base case), and the result is at least 1 and at least `n` |
| Constexpr.FactorialMonotone | cpp11/constexpr.cpp:4 | `factorial` never decreases as its argument grows |
| Constexpr.FactorialFitsInt32 | cpp11/constexpr.cpp:4 | for `n <= 12`, negative `n` included, the result fits in an `int` |
| Constexpr.FactorialTwelve | cpp11/constexpr.cpp:4 | `factorial(12) == 479001600` |
| Constexpr.FactorialThirteenOverflows | cpp11/constexpr.cpp:4 | `factorial(13)` does not fit in an `int` |
| Constexpr.MainResult | cpp11/constexpr.cpp:8 | `factorial(5) == 120` |
| IfConsteval.CompileTime | cpp23/if_consteval.cpp:4-5 | the `if consteval` branch ends for every argument, and its result is at least 1 and at least `n` |
| IfConsteval.CompileTimeIsConstexpr | cpp23/if_consteval.cpp:5 | the compile-time branch equals cpp11's `factorial` for every argument |
| IfConsteval.RunTime | cpp23/if_consteval.cpp:7-11 | the run-time loop, for every `int` `n <= 12`, returns what the compile-time branch returns, never overflows, and returns at least 1; its invariant is `result == (i-1)!` at each test of `i <= n` |
| IfConsteval.MainResults | cpp23/if_consteval.cpp:16-20 | the constant-evaluated and run-time calls of `main` agree, both 120 |
| Generator.Fibonacci.constructor | cpp23/generator.cpp:5 | a fresh coroutine has produced nothing, with `a == 0` and `b == 1` |
| Generator.Fibonacci.Next | cpp23/generator.cpp:6-10 | each call yields exactly one value, the `yielded`-th Fibonacci number; after the first call it steps `(a, b)` to `(old b, old a + old b)`; the invariant `a == Fib(k-1)`, `b == Fib(k)` is kept |
| Generator.FibMonotone | cpp23/generator.cpp:8-10 | the yielded values never decrease |
| Generator.FibFitsInt32 | cpp23/generator.cpp:10 | every term up to `Fib(46)` fits in an `int` |
| Generator.FibFortySevenOverflows | cpp23/generator.cpp:10 | `Fib(47)` does not fit, so the bound of 46 draws is tight |
| Generator.Draw | cpp23/generator.cpp:15-17 | drawing `count` values from a fresh coroutine gives `Fib(0), ..., Fib(count-1)` |
| Generator.DrawnValues | cpp23/generator.cpp:5-10 | the values start 0, 1; from the third on each is the sum of the two before it; all are non-negative and non-decreasing |
| Generator.MainOutput | cpp23/generator.cpp:15-17 | `main`'s ten draws are `0 1 1 2 3 5 8 13 21 34` |

## Left out

- Console output (`std::cout`) in every `main`: only the values printed are modelled.
- The coroutine machinery of `std::generator` (promise type, suspension, the handle's lifetime). Only the per-call state transition of `a` and `b` is modelled.
- Overflow and wrap-around: for the `Int32`-typed members, preconditions keep every input in the range where C++ defines the result. What happens past that range is not modelled.
- Constexpr.Factorial, IfConsteval.CompileTime: both are defined over unbounded `int`, with no precondition. Past 12 the model gives the mathematical value, where C++ overflows, which is undefined behaviour. The 32-bit bound is stated separately, in `Constexpr.FactorialFitsInt32`, and shown tight by `Constexpr.FactorialThirteenOverflows`.
- The `std::optional` and `std::expected` library types are modelled only as far as these examples use them.
- All other example programs:
  - threads and locks (`cpp14/shared_mutex.cpp`, `cpp17/parallel_algorithms.cpp`);
  - floating point and clocks (`cpp11/chrono.cpp`, `cpp14/generic_lambdas.cpp`, `cpp14/variable_templates.cpp`);
  - the file system (`cpp17/filesystem.cpp`);
  - compile-time or type-level features with no run-time behaviour;
  - thin demonstrations of library containers and views.
- IfConsteval.RunTime: the iteration count, `max(0, n - 1)`, and the exit value of `i` are proved only inside the method body (ghost counter and assertions), not stated in its `ensures`. A C++ caller cannot observe either.
