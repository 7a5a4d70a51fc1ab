/**
 * cpp23/static_operator_brackets.cpp: `MyArray` holds `data = {1, 2, 3}`
 * of `size` 3, and its subscript operator is `static`: it computes
 * `i < size ? i + 1 : 0` from the index alone. `arr[2]` on an object calls
 * the same static operator; the object and its `data` take no part.
 */
module StaticOperatorBrackets {

  /** `MyArray::size`. */
  const Size: int := 3

  /** `std::size_t`, the operator's parameter type. */
  type SizeT = i: int | 0 <= i < 0x1_0000_0000_0000_0000

  /** The member `int data[size]`: exactly `size` elements. */
  type Data = s: seq<int> | |s| == Size witness [0, 0, 0]

  /** A `MyArray` object: its one non-static member. */
  datatype MyArray = MyArray(data: Data)

  /** A `MyArray` built with the default member initialiser
      `data[size] = {1, 2, 3}`: element `k` holds `k + 1`. */
  function DefaultArray(): (arr: MyArray)
    ensures forall k :: 0 <= k < Size ==> arr.data[k] == k + 1
  {
    MyArray([1, 2, 3])
  }

  /** `MyArray::operator[](i)`, the static form `MyArray::operator[](1)`. */
  function Subscript(i: SizeT): (r: int)
    ensures 0 <= r <= Size
    ensures r == 0 <==> i >= Size
    ensures i < Size ==> r == DefaultArray().data[i]
  {
    if i < Size then i + 1 else 0
  }

  /** `arr[i]` on an object. C++ lets a static `operator[]` be called
      through an object, and then the object expression is evaluated but
      not passed: the result is the static operator's for the same index. */
  function ObjectSubscript(arr: MyArray, i: SizeT): (r: int)
    ensures r == Subscript(i)
  {
    Subscript(i)
  }

  /** Within the bounds the static operator agrees with the data of a
      default-initialised object index for index, and outside them it
      yields 0, for every `size_t` index. */
  lemma AgreesWithData(i: SizeT)
    ensures i < |DefaultArray().data| ==> ObjectSubscript(DefaultArray(), i) == DefaultArray().data[i]
    ensures i >= |DefaultArray().data| ==> ObjectSubscript(DefaultArray(), i) == 0
  {
  }

  /** The result of `arr[i]` does not depend on the object's state. This is
      not derived: it is C++'s rule for a static `operator[]` called through
      an object, which ObjectSubscript encodes by ignoring `arr`. */
  lemma IgnoresObject(x: MyArray, y: MyArray, i: SizeT)
    ensures ObjectSubscript(x, i) == ObjectSubscript(y, i) == Subscript(i)
  {
  }

  /** `main`: `MyArray::operator[](1)` is 2 and `arr[2]` is 3. */
  lemma MainResults()
    ensures Subscript(1) == 2 && ObjectSubscript(DefaultArray(), 2) == 3
  {
  }
}
