# steevlib smart pointers and buffers in Dafny

This project models the core of `steevlib`, a small C++ library that
re-implements parts of the standard library. The model covers three groups:

- **Shared ownership.** The `control_block` (a strong and a weak counter) and
  the `shared_ptr`/`weak_ptr` handles built on it
  (`src/memory/smart_ptr/`). There is also the older standalone
  `src/memory/shared_ptr.hpp`:
  - Its inline control block (lines 10-39) is identical to the one in
    `smart_ptr/control_block.hpp`.
  - Its `shared_ptr` (lines 41-158) and `make_shared` (lines 160-170) are
    identical to the `smart_ptr` ones, except that the two assignment
    operators do not check for self-assignment.
  - So `SharedPtrs` models both headers, and `LegacySharedPtrs` models only
    the two assignments that differ.
- **Sole ownership.** `unique_ptr` and its array form
  (`src/memory/smart_ptr/unique_ptr.hpp`). Every operation modelled here is
  the same in both forms; only the single-object form has `operator=(T*)`.
- **Buffers.** `vector<int>` (`src/containers/vector.hpp`) and
  `array<int, N>` (`src/containers/array.hpp`).

How the model represents the library:

- **Managed objects and deletion.** Managed objects are opaque ids. Deleting
  one is a call to a `Deleter` object, which records every destroyed id in a
  ghost log.
- **The ghost `Heap`.** The shared and weak handles work against a ghost
  `Heap`. It records:
  - the control block of every object handed to shared ownership;
  - the set of shared handles (`holders`) and weak handles (`watchers`)
    counted for each object;
  - the inverse maps `owner` and `observer`.
- **The invariant `Heap.Valid`.** Every operation preserves it. It says:
  - each block's strong count is the number of shared handles on its object,
    and its weak count is the number of weak handles;
  - a block has run `delete this` exactly when both counts are 0;
  - an object has been destroyed exactly when no shared handle holds it;
  - no object is destroyed twice.
- **Handle invariants.** `SharedPtr.Valid` and `WeakPtr.Valid` tie a handle
  to its entry in the heap. `SharedPtr.Paired` is the pairing that `release`
  asserts: the pointer is null exactly when the block is.
- **Buffers.**
  - Vector and array buffers are Dafny arrays of `int`.
  - Iterator positions are indices; `insert` also takes the buffer its
    iterator points into, which a reallocation can leave stale.
  - `std::out_of_range` and `std::runtime_error` become `Failure` results
    carrying the source's messages.

## Model

| member | source | states |
|---|---|---|
| ControlBlocks.ControlBlock.constructor | src/memory/smart_ptr/control_block.hpp:10-11 | a fresh block has strong count 1 and weak count 0 |
| ControlBlocks.ControlBlock.GetRefs | src/memory/smart_ptr/control_block.hpp:14 | `get_refs` reports the strong count |
| ControlBlocks.ControlBlock.GetWeakRefs | src/memory/smart_ptr/control_block.hpp:15 | `get_weak_refs` reports the strong count, not the weak one |
| ControlBlocks.ControlBlock.WeakRefs | src/memory/smart_ptr/control_block.hpp:15 | corrected `get_weak_refs`: reports the weak count |
| ControlBlocks.ControlBlock.GetWeakRefsMisreports | src/memory/smart_ptr/control_block.hpp:15 | whenever the counters differ, `get_weak_refs` differs from the weak count |
| ControlBlocks.ControlBlock.AddRef | src/memory/smart_ptr/control_block.hpp:17 | strong rises by exactly one, weak is unchanged, the new holder is counted, and the heap invariant is kept |
| ControlBlocks.ControlBlock.RemoveRef | src/memory/smart_ptr/control_block.hpp:19-27 | strong drops by one and the new value is returned; the block frees itself iff that value is 0 and weak is 0; at 0 the object is left pending destruction |
| ControlBlocks.ControlBlock.AddWeakRef | src/memory/smart_ptr/control_block.hpp:29 | weak rises by exactly one on a block that has not freed itself, strong is unchanged |
| ControlBlocks.ControlBlock.RemoveWeakRef | src/memory/smart_ptr/control_block.hpp:31-36 | weak drops by one, strong is unchanged, and the block frees itself iff both are now 0 |
| SharedPtrs.MakeControlBlock | src/memory/smart_ptr/shared_ptr.hpp:114-120 | no block for a null pointer, otherwise a fresh block with strong 1 and weak 0 registered for the object |
| SharedPtrs.MakeShared | src/memory/smart_ptr/shared_ptr.hpp:140-150 | a handle owning a fresh object with use count 1 |
| SharedPtrs.SharedPtr.Empty | src/memory/smart_ptr/shared_ptr.hpp:105-109 | the default handle has a null pointer and no block |
| SharedPtrs.SharedPtr.constructor | src/memory/smart_ptr/shared_ptr.hpp:22-26 | a non-null pointer gets a fresh block with strong 1 and this handle as its only holder; a null one gets no block |
| SharedPtrs.SharedPtr.Copy | src/memory/smart_ptr/shared_ptr.hpp:44-51 | shares pointer and block; strong rises by one iff the pointer is non-null |
| SharedPtrs.SharedPtr.Share | src/memory/smart_ptr/shared_ptr.hpp:71-76 | an empty handle takes the other's pointer and block, adding one strong reference when non-null |
| SharedPtrs.SharedPtr.Move | src/memory/smart_ptr/shared_ptr.hpp:36-42 | takes pointer and block, empties the source, no counter changes |
| SharedPtrs.SharedPtr.TakeOver | src/memory/smart_ptr/shared_ptr.hpp:57-61 | an empty handle takes the other's pointer and block and empties it; the strong reference changes hands |
| SharedPtrs.SharedPtr.Release | src/memory/smart_ptr/shared_ptr.hpp:121-135 | a non-empty handle drops one strong reference; the deleter runs on the pointer exactly when that was the last; the handle ends empty; an empty handle is untouched |
| SharedPtrs.SharedPtr.CopyAssign | src/memory/smart_ptr/shared_ptr.hpp:67-80 | self-assignment changes nothing; otherwise release (destroying the old object if last), then share the other's ownership |
| SharedPtrs.SharedPtr.MoveAssign | src/memory/smart_ptr/shared_ptr.hpp:53-65 | self-assignment changes nothing; otherwise release, take over the other's pointer and block, and empty the other |
| SharedPtrs.SharedPtr.Reset | src/memory/smart_ptr/shared_ptr.hpp:87-93 | release (deleter iff last owner), then own `p` with a fresh block of count 1, or be empty for null |
| SharedPtrs.SharedPtr.Swap | src/memory/smart_ptr/shared_ptr.hpp:28-32 | the handles trade pointers and blocks and no counter changes |
| SharedPtrs.SharedPtr.Alive | src/memory/smart_ptr/shared_ptr.hpp:121-131 | a non-empty handle is counted for its object, strong is positive, and the object is not destroyed and the block not freed |
| SharedPtrs.SharedPtr.Get | src/memory/smart_ptr/shared_ptr.hpp:98 | `get` is the managed pointer |
| SharedPtrs.SharedPtr.UseCount | src/memory/smart_ptr/shared_ptr.hpp:100-103 | 0 for an empty handle, otherwise the block's strong count |
| SharedPtrs.SharedPtr.UseCountCountsHolders | src/memory/smart_ptr/shared_ptr.hpp:100-103 | the use count equals the number of shared handles on the object |
| SharedPtrs.SharedPtr.EqualsIffSamePointer | src/memory/smart_ptr/shared_ptr.hpp:82-85 | for valid handles, equal pointer and block holds iff the pointers are equal |
| SharedPtrs.SharedPtr.EqualsPointer | src/memory/smart_ptr/shared_ptr.hpp:34 | `sp == p` holds iff `get()` is `p` |
| SharedPtrs.SharedPtr.Equals | src/memory/smart_ptr/shared_ptr.hpp:82-85 | equal handles compare equal to each other's raw pointer (the converse, for valid handles, is `EqualsIffSamePointer`) |
| SharedPtrs.SharedPtr.EqualsPointerIffHolder | src/memory/smart_ptr/shared_ptr.hpp:34 | for a valid handle, `sp == x` holds iff `sp` is one of the shared handles counted for `x` |
| WeakPtrs.WeakPtr.FromShared | src/memory/smart_ptr/weak_ptr.hpp:15-22 | copies pointer and block; weak rises by one iff non-null; strong is unchanged |
| WeakPtrs.WeakPtr.Copy | src/memory/smart_ptr/weak_ptr.hpp:30-37 | shares pointer and block; weak rises by one iff non-null |
| WeakPtrs.WeakPtr.Share | src/memory/smart_ptr/weak_ptr.hpp:64-68 | an empty handle takes the other's pointer and block, adding one weak reference when non-null |
| WeakPtrs.WeakPtr.Move | src/memory/smart_ptr/weak_ptr.hpp:39-45 | takes pointer and block, empties the source, no counter changes |
| WeakPtrs.WeakPtr.TakeOver | src/memory/smart_ptr/weak_ptr.hpp:51-55 | an empty handle takes the other's pointer and block and empties it |
| WeakPtrs.WeakPtr.Release | src/memory/smart_ptr/weak_ptr.hpp:113-119 | a non-empty handle drops one weak reference (the block frees itself iff both counts reach 0) and nulls its pointer, keeping its block pointer; nothing is destroyed |
| WeakPtrs.WeakPtr.CopyAssign | src/memory/smart_ptr/weak_ptr.hpp:60-71 | self-assignment changes nothing; otherwise release, then watch what the other watches |
| WeakPtrs.WeakPtr.MoveAssign | src/memory/smart_ptr/weak_ptr.hpp:47-58 | self-assignment changes nothing; otherwise release, take over the other's weak reference and empty the other |
| WeakPtrs.WeakPtr.Swap | src/memory/smart_ptr/weak_ptr.hpp:24-28 | the handles trade pointers and blocks and no counter changes |
| WeakPtrs.WeakPtr.UseCount | src/memory/smart_ptr/weak_ptr.hpp:82-85 | 0 for an empty handle, otherwise the block's strong count |
| WeakPtrs.WeakPtr.Expired | src/memory/smart_ptr/weak_ptr.hpp:104-110 | expired iff the pointer is null or the strong count is 0 |
| WeakPtrs.WeakPtr.Lock | src/memory/smart_ptr/weak_ptr.hpp:87-100 | an expired handle yields an empty shared handle; otherwise a new shared handle on the same pointer and block, with strong up by exactly one |
| WeakPtrs.WeakPtr.Watching | src/memory/smart_ptr/weak_ptr.hpp:82-110 | a non-empty weak handle is counted on its block, whose weak count is positive, so the block it reads has not freed itself |
| WeakPtrs.WeakPtr.UseCountCountsHolders | src/memory/smart_ptr/weak_ptr.hpp:82-85 | a live weak handle's use count is the number of shared handles on the object |
| WeakPtrs.WeakPtr.ExpiredIffDestroyed | src/memory/smart_ptr/weak_ptr.hpp:104-110 | a weak handle is expired iff it is empty or its object has been destroyed |
| WeakPtrs.WeakPtr.EqualsPointer | src/memory/smart_ptr/weak_ptr.hpp:102 | `wp == p` holds iff the watched pointer is `p` |
| WeakPtrs.WeakPtr.Equals | src/memory/smart_ptr/weak_ptr.hpp:75-78 | equal weak handles compare equal to each other's raw pointer |
| WeakPtrs.WeakPtr.EqualsPointerIffWatcher | src/memory/smart_ptr/weak_ptr.hpp:102 | for a valid handle, `wp == x` holds iff `wp` is one of the weak handles counted for `x` |
| WeakPtrs.WeakPtr.EqualsIffSamePointer | src/memory/smart_ptr/weak_ptr.hpp:75-78 | for valid handles, the first one non-empty, equality holds iff the pointers are equal |
| WeakPtrs.ExpiresWhenOwnerResets | test/src/memory/weak_ptr.cpp:34-42 | a weak handle on a sole owner is not expired until the owner resets, which destroys the object once |
| WeakPtrs.LockAddsOwner | test/src/memory/weak_ptr.cpp:45-51 | locking a weak handle on a sole owner gives a second owner of the same object, use count 2 |
| LegacySharedPtrs.CopyAssign | src/memory/shared_ptr.hpp:92-102 | release first, then share; a self-assignment ends empty and destroys the object if this was its last owner |
| LegacySharedPtrs.MoveAssign | src/memory/shared_ptr.hpp:80-90 | release first, then take over and empty the other; a self-move ends empty and destroys the object if this was its last owner |
| LegacySharedPtrs.SelfCopyAssignDestroys | src/memory/shared_ptr.hpp:92-102 | `sp = sp` on the sole owner of `p` leaves `sp` empty and `p` destroyed |
| LegacySharedPtrs.SelfCopyAssignKeeps | src/memory/smart_ptr/shared_ptr.hpp:67-80 | with the guarded operator the same `sp = sp` keeps `p` owned and alive |
| LegacySharedPtrs.SelfMoveAssignDestroys | src/memory/shared_ptr.hpp:80-90 | `sp = std::move(sp)` on the sole owner of `p` leaves `sp` empty and `p` destroyed |
| UniquePtrs.UniquePtr.constructor | src/memory/smart_ptr/unique_ptr.hpp:15-18 | the handle holds the given pointer (null for the array form's default constructor) |
| UniquePtrs.UniquePtr.Move | src/memory/smart_ptr/unique_ptr.hpp:39-43 | takes the source's pointer and nulls the source |
| UniquePtrs.UniquePtr.Get | src/memory/smart_ptr/unique_ptr.hpp:46 | `get` is the held pointer |
| UniquePtrs.UniquePtr.IsSet | src/memory/smart_ptr/unique_ptr.hpp:48 | `operator bool` holds iff a pointer is held, that is iff the handle does not compare equal to null; `Release` and `Destroy` leave it false |
| UniquePtrs.UniquePtr.EqualsPointer | src/memory/smart_ptr/unique_ptr.hpp:55 | `up == p` holds iff `get()` is `p`; `Reset(p)` makes it true |
| UniquePtrs.UniquePtr.Reset | src/memory/smart_ptr/unique_ptr.hpp:64-72 | when `p` differs from the held pointer, the old non-null pointer is deleted exactly once and `p` is held; when equal, nothing happens |
| UniquePtrs.UniquePtr.Destroy | src/memory/smart_ptr/unique_ptr.hpp:81 | the destructor deletes a non-null pointer exactly once |
| UniquePtrs.UniquePtr.Release | src/memory/smart_ptr/unique_ptr.hpp:74-79 | returns the held pointer, leaves the handle null, deletes nothing |
| UniquePtrs.UniquePtr.AssignPointer | src/memory/smart_ptr/unique_ptr.hpp:22-27 | deletes the old non-null pointer (even if it is `p`), then holds `p` |
| UniquePtrs.UniquePtr.Swap | src/memory/smart_ptr/unique_ptr.hpp:57-62 | the handles exchange pointers and no deleter runs |
| UniquePtrs.UniquePtr.MoveAssign | src/memory/smart_ptr/unique_ptr.hpp:29-34 | takes the source's pointer and nulls the source without deleting the old pointer; a self-move leaves the handle null |
| UniquePtrs.UniquePtr.MoveAssignOwning | src/memory/smart_ptr/unique_ptr.hpp:29-34 | corrected move assignment: the old pointer is deleted unless it is the one taken over, and a self-move changes nothing |
| UniquePtrs.MoveAssignLeaks | src/memory/smart_ptr/unique_ptr.hpp:29-34 | moving a handle on `q` onto one on `p` leaves `p` held by nobody and never deleted |
| UniquePtrs.MoveAssignOwningDestroys | src/memory/smart_ptr/unique_ptr.hpp:29-34 | with the corrected assignment the same move deletes `p` exactly once |
| Vectors.CopyBackward | src/containers/vector.hpp:167-169 | slots `[from, to)` move up one place, slot `from` keeps its value, nothing else changes |
| Vectors.InsertAt | src/containers/vector.hpp:167-171 | after the shift and the write, the first `n+1` slots are the old prefix, `e`, then the old rest; later slots are unchanged |
| Vectors.InsertCapacity | src/containers/vector.hpp:165-167 | with a free slot, the shift stays within the buffer `insert` leaves |
| Vectors.FullInsertOverruns | src/containers/vector.hpp:163-175 | on a full vector `insert` does not grow the buffer, so slot `size` is past its end |
| Vectors.Vector.constructor | src/containers/vector.hpp:118-123 | size 0, capacity 10 |
| Vectors.Vector.FromList | src/containers/vector.hpp:177-186 | size and capacity are the list's length and the elements are the list, in order |
| Vectors.Vector.Reallocate | src/containers/vector.hpp:111-115 | a fresh buffer of `n` slots whose first min(old capacity, n) slots are the old ones; size unchanged |
| Vectors.Vector.PushBack | src/containers/vector.hpp:147-153 | the elements become the old ones followed by `e`; a full buffer is doubled first, otherwise it is untouched except for slot `size` |
| Vectors.Vector.PopBack | src/containers/vector.hpp:155-161 | on an empty vector, fails with "Unable to pop vector with 0 elements"; otherwise the last element is dropped and the buffer is untouched |
| Vectors.Vector.Insert | src/containers/vector.hpp:163-175 | with a free slot: the capacity becomes `InsertCapacity` of the old size and capacity, and `pos` is returned. Without growth the elements become prefix, `e`, rest. When exactly one slot was free the buffer is doubled, the shift and the store go through the stale iterator into the old buffer, and the elements are the old buffer's slots |
| Vectors.Vector.InsertGrowing | src/containers/vector.hpp:163-175 | corrected `insert`: defined on full vectors too, doubling a full buffer; with the position as an index the elements always become prefix, `e`, rest |
| Vectors.Vector.Resize | src/containers/vector.hpp:130-145 | no change when `n` is the capacity; otherwise size and capacity become `n`, surviving slots keep their values and new slots are 0 |
| Vectors.Vector.At | src/containers/vector.hpp:254-260 | fails with "Index out of bounds" iff `idx` is at least the capacity, otherwise the slot's value |
| Vectors.Vector.AtReadsContents | src/containers/vector.hpp:254-260 | below the size, `at` returns exactly the element |
| Vectors.Vector.Front | src/containers/vector.hpp:262 | slot 0, the first element when there is one |
| Vectors.Vector.Back | src/containers/vector.hpp:263 | the last element |
| Vectors.Vector.Size | src/containers/vector.hpp:265 | the number of elements |
| Vectors.Vector.Capacity | src/containers/vector.hpp:125 | the number of slots |
| Vectors.Vector.MoveAssign | src/containers/vector.hpp:224-237 | self-assignment changes nothing; otherwise takes the other's fields and leaves it with size 0, capacity 0 and no buffer |
| Vectors.ResizeLargerZeroFills | test/src/containers/vector.cpp:36-41 | `{1,2,3,4,5}` resized to 10 has ten elements, the new ones 0 |
| Vectors.NinePushes | src/containers/vector.hpp:147-153 | nine `push_back`s on a default vector leave elements 1 to 9 in ten slots |
| Vectors.StaleIteratorInsert | src/containers/vector.hpp:163-175 | `insert(begin() + 2, 100)` after nine `push_back`s doubles the buffer and leaves the elements without 100 in their first nine places |
| Vectors.IndexInsertKeepsElement | src/containers/vector.hpp:163-175 | the corrected insert on the same vector gives `1, 2, 100, 3, …, 9` |
| Arrays.FixedArray.constructor | src/containers/array.hpp:106-112 | the list's elements fill the first slots in order |
| Arrays.FixedArray.At | src/containers/array.hpp:117-123 | fails with "Index out of bounds" iff `idx` is at least the capacity, otherwise the slot's value |
| Arrays.FixedArray.Back | src/containers/array.hpp:126 | the last slot, the highest index `at` accepts |
| Arrays.FixedArray.Size | src/containers/array.hpp:128 | the capacity |
| Arrays.FixedArray.Empty | src/containers/array.hpp:129 | true iff the size is 0 |
| Arrays.FixedArray.Capacity | src/containers/array.hpp:130 | the capacity |
| Arrays.FiveFromList | test/src/containers/array.cpp:10-22 | `array<int, 5>{1,2,3,4,5}` has size 5, holds the list, and `at(5)` fails |

## Left out

- Atomic counters and thread interleavings: the model is sequential. So `lock`'s check-then-increment is modelled without its cross-thread race.
- `default_delete` (`src/memory/default_delete.hpp`) is not part of this model. Deletion is the abstract `Deleter.Delete` event. The array form's deleter calling `delete` instead of `delete[]` is therefore not captured.
- `src/memory/pointer_traits.hpp` is not part of this model: it is compile-time type introspection.
- `src/memory/unique_ptr.hpp` is not part of this model: it is an older duplicate of `smart_ptr/unique_ptr.hpp`.
- `make_shared` and `make_unique` argument forwarding: a fresh object is a fresh id, and `make_unique` is the `UniquePtr` constructor on it.
- Dereference (`operator*`, `operator->`, `operator[]`), `get_deleter`, and the values stored in managed objects: pointers are opaque ids.
- WeakPtrs.WeakPtr.Equals: compares stale block pointers too, as written. Two empty weak handles are therefore equal only if their left-over blocks are; the model does not state when that happens.
- The two-node cycle test (test/src/memory/shared_ptr.cpp:145-158) needs handles stored inside managed objects, which the heap model does not have.
- Vector constructors taking a size (src/containers/vector.hpp:188-204): they index the buffer with a pointer and do not compile.
- Vector copy constructor and copy assignment (src/containers/vector.hpp:216-222, 239-249): their `memcpy` byte counts are wrong.
- Vector move constructor (src/containers/vector.hpp:206-214): it names the member functions `size`/`capacity` instead of the fields, so it does not compile.
- Iterators of `vector` and `array`: positions are indices, except that `Vectors.Vector.Insert` also takes the buffer its iterator points into.
- Vectors.Vector.Insert: after a reallocation `std::copy_backward` is given a range whose start lies in the old buffer and whose end lies in the new one, which is undefined. The model places the whole shift in the old buffer, the one the iterator names, and leaves the new buffer as `realloc` filled it. It also treats `realloc` as always moving the buffer.
- `array::begin`, `array::end` and `array::front` (src/containers/array.hpp:114-115, 125) are ill-typed.
- Vector and array methods that only the tests mention (`clear`, `erase`, `assign`, `reserve`, `shrink_to_fit`, `swap`, `empty`, comparisons) do not exist in the source.
- Vectors.Vector.Reallocate: `realloc` on memory from `new[]` is modelled as a fresh array holding the old prefix. The slots past the old capacity are unconstrained, standing for uninitialised memory.
- Vectors.Vector.MoveAssign: the old buffer of the target is not freed (a leak), which the model does not track.
- Vectors.Vector.PushBack: requires a positive capacity. On a moved-from vector (capacity 0) the source doubles 0 slots and writes past the buffer.
- Vectors.Vector.Front: requires a positive capacity, since slot 0 does not exist otherwise.
- Vectors.Vector.Back: requires a non-empty vector. On an empty one the source reads `data[size_ - 1]`, where `size_ - 1` wraps around to the largest `size_t`, which is undefined.
- Arrays.FixedArray.constructor: requires the list to fit. A longer list would be written past the end of the array.
- `size_t` wrap-around of the counters and sizes: counters and sizes are unbounded naturals, and the 32-bit counters never overflow in the model.

## Findings

| source | as written | input that shows it | evidently intended | confidence | as-written member | corrected member |
|---|---|---|---|---|---|---|
| src/memory/shared_ptr.hpp:92-102 | copy assignment releases `*this` before reading `other`, with no self-check | `sp = sp` where `sp` is the sole owner of `p` | self-assignment leaves the handle unchanged, as the guarded operator in `smart_ptr/shared_ptr.hpp` does | high, not executed | LegacySharedPtrs.SelfCopyAssignDestroys | SharedPtrs.SharedPtr.CopyAssign |
| src/memory/shared_ptr.hpp:80-90 | move assignment releases `*this` before reading `other`, with no self-check | `sp = std::move(sp)` where `sp` is the sole owner of `p` | self-move leaves the object alive, as the guarded operator in `smart_ptr/shared_ptr.hpp` does | medium, not executed | LegacySharedPtrs.SelfMoveAssignDestroys | SharedPtrs.SharedPtr.MoveAssign |
| src/memory/smart_ptr/unique_ptr.hpp:29-34 | move assignment overwrites the held pointer without deleting it (also lines 103-108) | `a` holds `p`, `b` holds `q`, then `a = std::move(b)` | `p` is deleted, as `reset(other.release())` does | high, not executed | UniquePtrs.MoveAssignLeaks | UniquePtrs.UniquePtr.MoveAssignOwning |
| src/containers/vector.hpp:163-175 | `insert` grows only when `size_ + 1 == capacity_`, then shifts into slot `size_` | a vector built from `{1, 2, 3, 4, 5}` (size 5, capacity 5), then `insert` at 2, as in test/src/containers/vector.cpp:77-83 | grow when the buffer is full, as `push_back` does | high, not executed | Vectors.FullInsertOverruns | Vectors.Vector.InsertGrowing |
| src/memory/smart_ptr/control_block.hpp:15 | `get_weak_refs` returns the strong count (also src/memory/shared_ptr.hpp:17) | a fresh block: strong 1, weak 0, reports 1 | report the weak count | high, not executed | ControlBlocks.ControlBlock.GetWeakRefsMisreports | ControlBlocks.ControlBlock.WeakRefs |
| src/containers/vector.hpp:163-175 | when `insert` reallocates, it goes on using the iterator `it` taken before, which points into the buffer `realloc` gave up | nine `push_back`s on a default vector (size 9, capacity 10), then `insert(begin() + 2, 100)` | shift and store in the new buffer, with the position taken as an index before the reallocation | medium, not executed | Vectors.StaleIteratorInsert | Vectors.IndexInsertKeepsElement |
