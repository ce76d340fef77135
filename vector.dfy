/** `steev::vector<int>` (src/containers/vector.hpp): a growable buffer of
    `capacity` slots whose first `size` slots are the elements. Positions are
    indices. */
module Vectors {
  import opened Exceptions

  function Min(a: nat, b: nat): (m: nat)
    ensures m <= a && m <= b && (m == a || m == b)
  {
    if a <= b then a else b
  }

  /** `k` value-initialised `int`s. */
  function Zeros(k: nat): (z: seq<int>)
    ensures |z| == k && forall i | 0 <= i < k :: z[i] == 0
  {
    if k == 0 then [] else Zeros(k - 1) + [0]
  }

  /** `std::copy_backward(a + from, a + to, a + to + 1)`: the slots
      `[from, to)` move one place up, last one first; slot `from` keeps its
      value and nothing else changes. */
  method CopyBackward(a: array<int>, from: nat, to: nat)
    requires from <= to < a.Length
    modifies a
    ensures a[..] == old(a[..from + 1]) + old(a[from..to]) + old(a[to + 1..])
  {
    var i := to;
    while i > from
      invariant from <= i <= to
      invariant a[..i + 1] == old(a[..i + 1])
      invariant a[i + 1..to + 1] == old(a[i..to])
      invariant a[to + 1..] == old(a[to + 1..])
    {
      a[i] := a[i - 1];
      i := i - 1;
    }
    assert a[..] == a[..from + 1] + a[from + 1..to + 1] + a[to + 1..];
  }

  /** Slots `[pos, n)` move up one place and `e` is written into slot `pos`;
      slots past `n` keep their values. */
  method InsertAt(a: array<int>, n: nat, pos: nat, e: int)
    requires pos <= n < a.Length
    modifies a
    ensures a[..n + 1] == old(a[..pos]) + [e] + old(a[pos..n])
    ensures a[n + 1..] == old(a[n + 1..])
  {
    CopyBackward(a, pos, n);
    a[pos] := e;
    assert a[..n + 1] == a[..pos] + [a[pos]] + a[pos + 1..n + 1];
  }

  /** The number of slots `insert` shifts into, as written: the buffer is
      doubled only when exactly one slot is free. */
  function InsertCapacity(size: nat, capacity: nat): (c: nat)
    ensures size < capacity ==> size < c
  {
    if size + 1 == capacity then 2 * capacity else capacity
  }

  /** Inserting into a full vector, such as one built from a list, as written:
      the buffer is not grown, yet the shift writes slot `size`, which is one
      past the last slot. */
  lemma FullInsertOverruns(n: nat)
    requires n > 0
    ensures InsertCapacity(n, n) == n
  {
  }

  class Vector {
    var size: nat
    var capacity: nat
    /** Null only after the vector has been moved from. */
    var data: array?<int>

    /** The buffer has `capacity` slots (none when it is null). */
    ghost predicate Sized()
      reads this
    {
      && (data == null ==> capacity == 0)
      && (data != null ==> data.Length == capacity)
    }

    /** The elements fit in the buffer. */
    ghost predicate Valid()
      reads this
    {
      Sized() && size <= capacity
    }

    /** Every slot of the buffer, including those past `size` that `at` can reach. */
    ghost function Buffer(): (b: seq<int>)
      reads this, data
      requires Sized()
      ensures |b| == capacity
    {
      if data == null then [] else data[..]
    }

    /** The elements: the first `size` slots. */
    ghost function Contents(): (s: seq<int>)
      reads this, data
      requires Valid()
      ensures |s| == size && s == Buffer()[..size]
    {
      Buffer()[..size]
    }

    /** `vector()`: no elements, ten uninitialised slots. */
    constructor ()
      ensures Valid() && size == 0 && capacity == 10 && fresh(data)
    {
      size, capacity := 0, 10;
      data := new int[10];
    }

    /** `vector(std::initializer_list<int>)`: exactly as many slots as
        elements, filled in order. */
    constructor FromList(elements: seq<int>)
      ensures Valid() && size == |elements| && capacity == |elements| && fresh(data)
      ensures Contents() == elements
    {
      var a := new int[|elements|];
      var i := 0;
      while i < |elements|
        invariant 0 <= i <= |elements|
        invariant a[..i] == elements[..i]
      {
        a[i] := elements[i];
        i := i + 1;
      }
      size, capacity, data := |elements|, |elements|, a;
    }

    /** `reallocate(n)` (`realloc`): a fresh buffer of `n` slots that starts
        with as much of the old buffer as fits; the other slots are
        uninitialised. `size` is left alone. */
    method Reallocate(n: nat)
      requires Sized()
      modifies this
      ensures Sized() && fresh(data) && capacity == n && size == old(size)
      ensures Buffer()[..Min(old(capacity), n)] == old(Buffer())[..Min(old(capacity), n)]
    {
      var a := new int[n];
      var m := Min(capacity, n);
      if m > 0 {
        var source := data;
        var i := 0;
        while i < m
          invariant 0 <= i <= m
          invariant size == old(size)
          invariant a[..i] == source[..i]
        {
          a[i] := source[i];
          i := i + 1;
        }
        assert a[..m] == source[..m];
      }
      data, capacity := a, n;
    }

    /** `push_back`: a full buffer is first doubled; the element goes into slot
        `size`, which grows by one. A buffer of no slots cannot be doubled. */
    method PushBack(e: int)
      requires Valid() && capacity > 0
      modifies this, data
      ensures Valid() && size == old(size) + 1
      ensures Contents() == old(Contents()) + [e]
      ensures old(size) < old(capacity) ==> && data == old(data) && capacity == old(capacity)
                                            && Buffer() == old(Buffer())[old(size) := e]
      ensures old(size) == old(capacity) ==> && fresh(data) && capacity == 2 * old(capacity)
                                             && Buffer()[..size] == old(Buffer()) + [e]
    {
      if size == capacity {
        Reallocate(capacity * 2);
      }
      data[size] := e;
      size := size + 1;
    }

    /** `pop_back`: throws on an empty vector; otherwise drops the last
        element, leaving the buffer as it is. */
    method PopBack() returns (r: Result<()>)
      requires Valid()
      modifies this
      ensures Valid() && data == old(data) && capacity == old(capacity) && Buffer() == old(Buffer())
      ensures old(size) == 0 ==> size == 0 && r == Failure(RuntimeError("Unable to pop vector with 0 elements"))
      ensures old(size) > 0 ==> r == Success(()) && size == old(size) - 1
      ensures old(size) > 0 ==> Contents() == old(Contents())[..old(size) - 1]
    {
      if size == 0 {
        return Failure(RuntimeError("Unable to pop vector with 0 elements"));
      }
      size := size - 1;
      r := Success(());
    }

    /** `insert(it, e)` as written, where the iterator `it` is slot `pos` of
        the buffer `it`: the buffer is doubled only when exactly one free slot
        is left (`InsertCapacity`); then the elements from `pos` on move up
        one slot and `e` is stored, both through `it`, and `pos` is returned.
        Without a reallocation `it` is the vector's own buffer. After one,
        `it` still points into the buffer that `realloc` gave up, so the shift
        and the store land there and the vector keeps its old elements (see
        `StaleIteratorInsert`). On a full vector the shift writes slot
        `size`, past the end of the buffer (see `FullInsertOverruns`), so
        this model requires a free slot. */
    method Insert(it: array<int>, pos: nat, e: int) returns (r: nat)
      requires Valid() && size < capacity && pos <= size && it == data
      modifies this, data
      ensures Valid() && r == pos && size == old(size) + 1
      ensures capacity == InsertCapacity(old(size), old(capacity))
      ensures old(size) + 1 < old(capacity) ==> && data == old(data) && capacity == old(capacity)
                                                && Contents() == old(Contents())[..pos] + [e] + old(Contents())[pos..]
                                                && Buffer()[size..] == old(Buffer())[size..]
      ensures old(size) + 1 == old(capacity) ==> && fresh(data) && capacity == 2 * old(capacity)
                                                 && Contents() == old(Buffer())
                                                 && it[..size] == old(Contents())[..pos] + [e] + old(Contents())[pos..]
    {
      var grown := InsertCapacity(size, capacity);
      if grown != capacity {
        Reallocate(grown);
      }
      ghost var before := it[..size];
      assert before == old(Contents());
      InsertAt(it, size, pos, e);
      size := size + 1;
      r := pos;
    }

    /** `insert` as intended: the buffer grows whenever it is full, as
        `push_back` does, and the position is an index, so it still names
        the right slot of the buffer after a reallocation. Defined on every
        vector with a slot, full or not. */
    method InsertGrowing(pos: nat, e: int) returns (r: nat)
      requires Valid() && capacity > 0 && pos <= size
      modifies this, data
      ensures Valid() && r == pos && size == old(size) + 1
      ensures Contents() == old(Contents())[..pos] + [e] + old(Contents())[pos..]
      ensures old(size) == old(capacity) ==> fresh(data) && capacity == 2 * old(capacity)
      ensures old(size) < old(capacity) ==> && data == old(data) && capacity == old(capacity)
                                            && Buffer()[size..] == old(Buffer())[size..]
    {
      if size == capacity {
        Reallocate(capacity * 2);
      }
      ghost var before := data[..size];
      assert before == old(Contents());
      InsertAt(data, size, pos, e);
      size := size + 1;
      r := pos;
    }

    /** `resize(n)`: nothing happens when `n` is the capacity (not the size).
        Otherwise the buffer is reallocated to `n` slots and `size` becomes
        `n`: the slots that survive keep their values and the new ones are 0. */
    method Resize(n: nat)
      requires Valid()
      modifies this, data
      ensures Valid()
      ensures old(capacity) == n ==> && size == old(size) && capacity == n && data == old(data)
                                     && Buffer() == old(Buffer())
      ensures old(capacity) != n ==> size == n && capacity == n && fresh(data)
      ensures n < old(capacity) ==> Buffer() == old(Buffer())[..n]
      ensures old(capacity) < n ==> Buffer() == old(Buffer()) + Zeros(n - old(capacity))
    {
      if capacity == n {
        return;
      }
      var oldCapacity := capacity;
      Reallocate(n);
      size := n;
      if oldCapacity < n {
        var a := data;
        var i := oldCapacity;
        while i < n
          invariant oldCapacity <= i <= n
          invariant data == a && size == n && capacity == n
          invariant a[..oldCapacity] == old(Buffer())
          invariant a[oldCapacity..i] == Zeros(i - oldCapacity)
        {
          a[i] := 0;
          i := i + 1;
        }
        assert a[..] == a[..oldCapacity] + a[oldCapacity..n];
      }
    }

    /** `at(idx)`: checks `idx` against the capacity, not the size, and throws
        past it; otherwise it is the slot's value. */
    function At(idx: nat): (r: Result<int>)
      reads this, data
      requires Valid()
      ensures r.Failure? <==> idx >= capacity
      ensures r.Failure? ==> r.error == OutOfRange("Index out of bounds")
      ensures r.Success? ==> r.value == Buffer()[idx]
    {
      if idx >= capacity then Failure(OutOfRange("Index out of bounds")) else Success(data[idx])
    }

    /** `front()`: slot 0, the first element when there is one. */
    function Front(): (v: int)
      reads this, data
      requires Valid() && capacity > 0
      ensures v == Buffer()[0]
      ensures size > 0 ==> v == Contents()[0]
    {
      data[0]
    }

    /** `back()`: the last element. */
    function Back(): (v: int)
      reads this, data
      requires Valid() && size > 0
      ensures v == Contents()[size - 1]
    {
      data[size - 1]
    }

    function Size(): (n: nat)
      reads this
      ensures n == size
    {
      size
    }

    function Capacity(): (n: nat)
      reads this
      ensures n == capacity
    {
      capacity
    }

    /** Move assignment: unless `other` is this very vector, takes `other`'s
        fields and leaves `other` with no slots and a null buffer. */
    method MoveAssign(other: Vector)
      requires Valid() && other.Valid()
      modifies this, other
      ensures Valid() && other.Valid()
      ensures this == other ==> size == old(size) && capacity == old(capacity) && data == old(data)
      ensures this != other ==> && size == old(other.size) && capacity == old(other.capacity) && data == old(other.data)
                                && other.size == 0 && other.capacity == 0 && other.data == null
    {
      if this != other {
        size, capacity, data := other.size, other.capacity, other.data;
        other.size, other.capacity, other.data := 0, 0, null;
      }
    }

    /** Within the elements, `at` reads exactly the elements. */
    lemma AtReadsContents(idx: nat)
      requires Valid() && idx < size
      ensures At(idx) == Success(Contents()[idx])
    {
    }
  }

  /** Nine `push_back`s on a default vector: one of the ten slots is free. */
  method NinePushes() returns (v: Vector)
    ensures fresh(v) && fresh(v.data) && v.Valid() && v.size == 9 && v.capacity == 10
    ensures v.Contents() == [1, 2, 3, 4, 5, 6, 7, 8, 9]
  {
    v := new Vector();
    var i := 1;
    while i < 10
      invariant 1 <= i <= 10 && fresh(v) && fresh(v.data)
      invariant v.Valid() && v.size == i - 1 && v.capacity == 10
      invariant forall k :: 0 <= k < v.size ==> v.Contents()[k] == k + 1
    {
      v.PushBack(i);
      i := i + 1;
    }
  }

  /** `insert(begin() + 2, 100)` after nine `push_back`s, as written: the
      last free slot makes `insert` double the buffer, and the element goes
      through the stale iterator into the old buffer, so the vector's
      elements still start with the nine pushed ones and 100 is not among them. */
  method StaleIteratorInsert() returns (v: Vector)
    ensures v.Valid() && v.Size() == 10 && v.Capacity() == 20
    ensures v.Contents()[..9] == [1, 2, 3, 4, 5, 6, 7, 8, 9]
    ensures 100 !in v.Contents()[..9] && v.Contents()[2] == 3
  {
    v := NinePushes();
    var r := v.Insert(v.data, 2, 100);
  }

  /** The same insertion with the position kept as an index and growth only
      on a full buffer: 100 lands at index 2 and the elements after it move up. */
  method IndexInsertKeepsElement() returns (v: Vector)
    ensures v.Valid() && v.Size() == 10 && v.Capacity() == 10
    ensures v.Contents() == [1, 2, 100, 3, 4, 5, 6, 7, 8, 9]
  {
    v := NinePushes();
    var r := v.InsertGrowing(2, 100);
  }

  /** A vector built from `{1, 2, 3, 4, 5}` and resized to ten: ten elements,
      the first five kept and the new ones zero. */
  method ResizeLargerZeroFills() returns (v: Vector)
    ensures v.Valid() && v.Size() == 10 && v.Capacity() == 10
    ensures v.Contents() == [1, 2, 3, 4, 5, 0, 0, 0, 0, 0]
    ensures v.At(5) == Success(0) && v.At(10) == Failure(OutOfRange("Index out of bounds"))
  {
    v := new Vector.FromList([1, 2, 3, 4, 5]);
    v.Resize(10);
    assert Zeros(5) == [0, 0, 0, 0, 0];
  }
}
