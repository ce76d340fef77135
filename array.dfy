/** `steev::array<int, Capacity>` (src/containers/array.hpp): a buffer of a
    fixed number of slots, the first ones filled from a list at construction. */
module Arrays {
  import opened Exceptions

  class FixedArray {
    /** The `Capacity` template argument. */
    const capacity: nat
    const data: array<int>

    ghost predicate Valid()
      reads this
    {
      data.Length == capacity
    }

    /** `array(std::initializer_list<int>)`: the list's elements fill the
        first slots in order; the remaining slots are left uninitialised.
        A list longer than the capacity would be written past the end. */
    constructor (capacity: nat, list: seq<int>)
      requires |list| <= capacity
      ensures Valid() && this.capacity == capacity && fresh(data)
      ensures data[..|list|] == list
    {
      var a := new int[capacity];
      var i := 0;
      while i < |list|
        invariant 0 <= i <= |list|
        invariant a[..i] == list[..i]
      {
        a[i] := list[i];
        i := i + 1;
      }
      this.capacity := capacity;
      data := a;
    }

    /** `at(idx)`: throws `out_of_range` exactly when `idx` is not a slot. */
    function At(idx: nat): (r: Result<int>)
      reads this, data
      requires Valid()
      ensures r.Failure? <==> idx >= capacity
      ensures r.Failure? ==> r.error == OutOfRange("Index out of bounds")
      ensures r.Success? ==> r.value == data[..][idx]
    {
      if idx >= capacity then Failure(OutOfRange("Index out of bounds")) else Success(data[idx])
    }

    /** `back()`: the last slot, the one `at` reaches last. */
    function Back(): (v: int)
      reads this, data
      requires Valid() && capacity > 0
      ensures At(capacity - 1) == Success(v)
      ensures forall idx: nat | At(idx).Success? :: idx <= capacity - 1
    {
      data[capacity - 1]
    }

    /** `size()`: every slot counts, filled or not. */
    function Size(): (n: nat)
      reads this
      ensures n == capacity
    {
      capacity
    }

    /** `empty()`: there are no slots. */
    function Empty(): (b: bool)
      reads this
      ensures b <==> Size() == 0
    {
      capacity == 0
    }

    function Capacity(): (n: nat)
      reads this
      ensures n == capacity
    {
      capacity
    }
  }

  /** `array<int, 5>` built from `{1, 2, 3, 4, 5}`: five slots holding the
      list, the last one read by `back`, and `at(5)` throws. */
  method FiveFromList() returns (a: FixedArray)
    ensures a.Valid() && a.Size() == 5 && a.Capacity() >= 5 && !a.Empty()
    ensures a.data[..] == [1, 2, 3, 4, 5] && a.Back() == 5
    ensures a.At(1) == Success(2) && a.At(5) == Failure(OutOfRange("Index out of bounds"))
  {
    a := new FixedArray(5, [1, 2, 3, 4, 5]);
    assert a.data[..] == a.data[..5];
  }
}
