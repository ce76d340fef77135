/** `steev::weak_ptr` (src/memory/smart_ptr/weak_ptr.hpp): a non-owning handle
    that watches an object owned by shared handles through its control block. */
module WeakPtrs {
  import opened Memory
  import opened ControlBlocks
  import opened SharedPtrs

  class WeakPtr {
    var pointer: Option<Id>
    /** After `release` the block is left as it was: it may then be stale. */
    var ctrl: ControlBlock?

    /** A non-empty handle is counted, once, among the weak references of its
        object's block; an empty one is counted nowhere, and its block, which
        may be stale, is never looked at. */
    ghost predicate Valid(heap: Heap)
      reads this, heap
    {
      && Lookup(heap.observer, this) == pointer
      && (pointer.Some? ==> ctrl != null && ctrl.obj == pointer.value && heap.Holds(ctrl))
    }

    /** `weak_ptr(const shared_ptr&)`: watches the object of `sp`; a non-empty
        `sp` gives its block one more weak reference. */
    constructor FromShared(sp: SharedPtr, heap: Heap)
      requires heap.Valid() && sp.Valid(heap)
      modifies heap, sp.ctrl
      ensures heap.Valid() && Valid(heap) && sp.Valid(heap)
      ensures pointer == sp.pointer && ctrl == sp.ctrl
      ensures ctrl != null ==> ctrl.weak == old(sp.ctrl.weak) + 1 && ctrl.strong == old(sp.ctrl.strong)
      ensures heap.watchers == Added(old(heap.watchers), this, pointer)
      ensures heap.observer == Tied(old(heap.observer), this, pointer)
      ensures heap.blockOf == old(heap.blockOf) && heap.holders == old(heap.holders) && heap.owner == old(heap.owner)
    {
      pointer, ctrl := sp.pointer, sp.ctrl;
      new;
      if pointer.Some? {
        sp.Alive(heap);
        ctrl.AddWeakRef(this, heap);
      }
    }

    /** Copy construction: watches what `other` watches, one more weak reference. */
    constructor Copy(other: WeakPtr, heap: Heap)
      requires heap.Valid() && other.Valid(heap)
      modifies heap, other.ctrl
      ensures heap.Valid() && Valid(heap) && other.Valid(heap)
      ensures pointer == other.pointer && ctrl == other.ctrl
      ensures pointer.Some? ==> ctrl.weak == old(other.ctrl.weak) + 1 && ctrl.strong == old(other.ctrl.strong)
      ensures heap.watchers == Added(old(heap.watchers), this, pointer)
      ensures heap.observer == Tied(old(heap.observer), this, pointer)
      ensures heap.blockOf == old(heap.blockOf) && heap.holders == old(heap.holders) && heap.owner == old(heap.owner)
    {
      pointer, ctrl := None, null;
      new;
      Share(other, heap);
    }

    /** The copy shared by copy construction and copy assignment: this empty
        handle takes `other`'s pointer and block, and a non-empty `other`'s
        block gains one weak reference. */
    method Share(other: WeakPtr, heap: Heap)
      requires heap.Valid() && Valid(heap) && other.Valid(heap)
      requires this != other && pointer == None
      modifies this, other.ctrl, heap
      ensures heap.Valid() && Valid(heap) && other.Valid(heap)
      ensures pointer == other.pointer && ctrl == other.ctrl
      ensures pointer.Some? ==> ctrl.weak == old(other.ctrl.weak) + 1 && ctrl.strong == old(other.ctrl.strong)
      ensures heap.watchers == Added(old(heap.watchers), this, pointer)
      ensures heap.observer == Tied(old(heap.observer), this, pointer)
      ensures heap.blockOf == old(heap.blockOf) && heap.holders == old(heap.holders) && heap.owner == old(heap.owner)
    {
      pointer, ctrl := other.pointer, other.ctrl;
      if pointer.Some? {
        other.Watching(heap);
        ctrl.AddWeakRef(this, heap);
      }
    }

    /** Move construction: takes over pointer and block and leaves `other`
        empty with a null block; the weak reference changes hands. */
    constructor Move(other: WeakPtr, heap: Heap)
      requires heap.Valid() && other.Valid(heap)
      modifies heap, other
      ensures heap.Valid() && Valid(heap) && other.Valid(heap)
      ensures pointer == old(other.pointer) && ctrl == old(other.ctrl)
      ensures other.pointer == None && other.ctrl == null
      ensures heap.watchers == Added(Dropped(old(heap.watchers), other, pointer), this, pointer)
      ensures heap.observer == Tied(old(heap.observer) - {other}, this, pointer)
      ensures heap.blockOf == old(heap.blockOf) && heap.holders == old(heap.holders) && heap.owner == old(heap.owner)
    {
      pointer, ctrl := None, null;
      new;
      TakeOver(other, heap);
    }

    /** The move shared by move construction and move assignment: this empty
        handle takes over `other`'s pointer and block and leaves `other`
        empty with a null block. */
    method TakeOver(other: WeakPtr, heap: Heap)
      requires heap.Valid() && Valid(heap) && other.Valid(heap)
      requires this != other && pointer == None
      modifies this, other, heap
      ensures heap.Valid() && Valid(heap) && other.Valid(heap)
      ensures pointer == old(other.pointer) && ctrl == old(other.ctrl)
      ensures other.pointer == None && other.ctrl == null
      ensures heap.watchers == Added(Dropped(old(heap.watchers), other, pointer), this, pointer)
      ensures heap.observer == Tied(old(heap.observer) - {other}, this, pointer)
      ensures heap.blockOf == old(heap.blockOf) && heap.holders == old(heap.holders) && heap.owner == old(heap.owner)
    {
      pointer, ctrl, other.pointer, other.ctrl := other.pointer, other.ctrl, None, null;
      if pointer.Some? {
        heap.HandOverObserver(pointer.value, other, this);
      }
    }

    /** `release` (also `reset` and the destructor): a non-empty handle drops
        its weak reference and becomes empty, keeping its block pointer; an
        empty handle is left alone. No object is ever destroyed here. */
    method Release(heap: Heap)
      requires heap.Valid() && Valid(heap)
      modifies this, heap, ctrl
      ensures heap.Valid() && Valid(heap)
      ensures pointer == None && ctrl == old(ctrl)
      ensures old(pointer).Some? ==> && ctrl.weak == old(ctrl.weak) - 1 && ctrl.strong == old(ctrl.strong)
                                     && (ctrl.freed <==> ctrl.weak == 0 && ctrl.strong == 0)
      ensures heap.watchers == Dropped(old(heap.watchers), this, old(pointer))
      ensures heap.observer == old(heap.observer) - {this}
      ensures heap.blockOf == old(heap.blockOf) && heap.holders == old(heap.holders) && heap.owner == old(heap.owner)
    {
      if pointer.Some? {
        ctrl.RemoveWeakRef(this, heap);
        pointer := None;
      }
    }

    /** Copy assignment: unless `other` is this very handle, drops the current
        weak reference and then watches what `other` watches. */
    method CopyAssign(other: WeakPtr, heap: Heap)
      requires heap.Valid() && Valid(heap) && other.Valid(heap)
      modifies this, heap, ctrl, other.ctrl
      ensures heap.Valid() && Valid(heap) && other.Valid(heap)
      ensures pointer == other.pointer && ctrl == other.ctrl
      ensures this == other ==> heap.watchers == old(heap.watchers) && heap.observer == old(heap.observer)
      ensures this != other ==> && heap.watchers == Added(Dropped(old(heap.watchers), this, old(pointer)), this, pointer)
                                && heap.observer == Tied(old(heap.observer) - {this}, this, pointer)
      ensures heap.blockOf == old(heap.blockOf) && heap.holders == old(heap.holders) && heap.owner == old(heap.owner)
    {
      if this != other {
        Release(heap);
        Share(other, heap);
      }
    }

    /** Move assignment: unless `other` is this very handle, drops the current
        weak reference, takes over `other`'s and leaves `other` empty. */
    method MoveAssign(other: WeakPtr, heap: Heap)
      requires heap.Valid() && Valid(heap) && other.Valid(heap)
      modifies this, other, heap, ctrl
      ensures heap.Valid() && Valid(heap) && other.Valid(heap)
      ensures this == other ==> pointer == old(pointer) && ctrl == old(ctrl)
      ensures this != other ==> && pointer == old(other.pointer) && ctrl == old(other.ctrl)
                                && other.pointer == None && other.ctrl == null
      ensures this == other ==> heap.watchers == old(heap.watchers) && heap.observer == old(heap.observer)
      ensures this != other ==>
                && heap.watchers == Added(Dropped(Dropped(old(heap.watchers), this, old(pointer)), other, pointer), this, pointer)
                && heap.observer == Tied(old(heap.observer) - {this} - {other}, this, pointer)
      ensures heap.blockOf == old(heap.blockOf) && heap.holders == old(heap.holders) && heap.owner == old(heap.owner)
    {
      if this != other {
        Release(heap);
        TakeOver(other, heap);
      }
    }

    /** `swap`: the two handles trade pointers and blocks; no counter changes. */
    method Swap(other: WeakPtr, heap: Heap)
      requires heap.Valid() && Valid(heap) && other.Valid(heap)
      modifies this, other, heap
      ensures heap.Valid() && Valid(heap) && other.Valid(heap)
      ensures pointer == old(other.pointer) && ctrl == old(other.ctrl)
      ensures other.pointer == old(pointer) && other.ctrl == old(ctrl)
      ensures heap.watchers == Traded(old(heap.watchers), this, old(pointer), other, old(other.pointer))
      ensures heap.observer == Retied(old(heap.observer), this, old(pointer), other, old(other.pointer))
      ensures heap.blockOf == old(heap.blockOf) && heap.holders == old(heap.holders) && heap.owner == old(heap.owner)
    {
      var x, y, c, d := pointer, other.pointer, ctrl, other.ctrl;
      pointer, ctrl := y, d;
      other.pointer, other.ctrl := x, c;
      heap.TradeObservers(this, x, other, y);
    }

    /** `use_count()`: 0 for an empty handle, otherwise the strong count of its block. */
    function UseCount(): (n: nat)
      reads this, ctrl
      requires pointer.Some? ==> ctrl != null
      ensures pointer.None? ==> n == 0
      ensures pointer.Some? ==> n == ctrl.strong
    {
      if pointer.None? then 0 else ctrl.GetRefs()
    }

    /** `expired()`: an empty handle is expired; otherwise it is expired when
        its block's strong count is 0. */
    function Expired(): (b: bool)
      reads this, ctrl
      requires pointer.Some? ==> ctrl != null
      ensures b <==> pointer.None? || ctrl.strong == 0
    {
      if pointer.None? then true else ctrl.GetRefs() == 0
    }

    /** `lock()`: an expired handle yields an empty shared handle; otherwise
        a new shared handle on the same pointer and block, which gains one
        strong reference. The weak handle itself is unchanged. */
    method Lock(heap: Heap) returns (sp: SharedPtr)
      requires heap.Valid() && Valid(heap)
      modifies heap, ctrl
      ensures heap.Valid() && Valid(heap) && fresh(sp) && sp.Valid(heap)
      ensures old(Expired()) ==> sp.pointer == None && sp.ctrl == null
      ensures !old(Expired()) ==> && sp.pointer == pointer && sp.ctrl == ctrl
                                  && ctrl.strong == old(ctrl.strong) + 1 && ctrl.weak == old(ctrl.weak)
      ensures heap.holders == Added(old(heap.holders), sp, sp.pointer)
      ensures heap.owner == Tied(old(heap.owner), sp, sp.pointer)
      ensures heap.blockOf == old(heap.blockOf) && heap.watchers == old(heap.watchers) && heap.observer == old(heap.observer)
    {
      if Expired() {
        sp := new SharedPtr(None, heap);
        return;
      }
      sp := new SharedPtr.Empty();
      sp.pointer, sp.ctrl := pointer, ctrl;
      ctrl.AddRef(sp, heap);
    }

    /** `operator==(T*)`: compares the watched pointer with `p`. */
    predicate EqualsPointer(p: Option<Id>): (b: bool)
      reads this
      ensures b <==> pointer == p
    {
      pointer == p
    }

    /** `operator==(const weak_ptr&)`: same pointer and same block, stale or
        not, so equal handles also compare equal to the same raw pointer. */
    predicate Equals(other: WeakPtr): (b: bool)
      reads this, other
      ensures b ==> EqualsPointer(other.pointer) && other.EqualsPointer(pointer)
    {
      pointer == other.pointer && ctrl == other.ctrl
    }

    /** For a valid handle, `*this == x` holds exactly when the handle is one
        of the weak handles counted in the weak count of `x`. */
    lemma {:induction false} EqualsPointerIffWatcher(x: Id, heap: Heap)
      requires heap.Valid() && Valid(heap)
      ensures EqualsPointer(Some(x)) <==> x in heap.watchers && this in heap.watchers[x]
    {
      if x in heap.watchers && this in heap.watchers[x] {
        LedgerMember(heap.watchers, heap.observer, x, this);
      }
      if EqualsPointer(Some(x)) {
        LedgerLookup(heap.watchers, heap.observer, this);
      }
    }

    /** Two valid non-empty weak handles on the same pointer read the same
        block, so only the pointers decide `operator==` between them; empty
        handles are compared by their possibly stale blocks as well. */
    lemma EqualsIffSamePointer(other: WeakPtr, heap: Heap)
      requires heap.Valid() && Valid(heap) && other.Valid(heap) && pointer.Some?
      ensures Equals(other) <==> EqualsPointer(other.pointer)
    {
    }

    /** A non-empty weak handle keeps its block alive: the handle is among the
        object's watchers, the weak count is positive and the block has not
        freed itself, so reading its counters is safe. */
    lemma Watching(heap: Heap)
      requires heap.Valid() && Valid(heap) && pointer.Some?
      ensures pointer.value in heap.watchers && this in heap.watchers[pointer.value]
      ensures ctrl.weak > 0 && !ctrl.freed
    {
      LedgerLookup(heap.watchers, heap.observer, this);
      heap.Tally(ctrl, None);
    }

    /** A live weak handle reports as its use count the number of shared
        handles of its object. */
    lemma UseCountCountsHolders(heap: Heap)
      requires heap.Valid() && Valid(heap)
      ensures pointer.Some? ==> pointer.value in heap.holders && UseCount() == |heap.holders[pointer.value]|
    {
      if pointer.Some? {
        heap.Tally(ctrl, None);
      }
    }

    /** A weak handle is expired exactly when it is empty or its object has
        been destroyed. */
    lemma ExpiredIffDestroyed(heap: Heap)
      requires heap.Valid() && Valid(heap)
      ensures Expired() <==> pointer.None? || pointer.value in heap.deleter.destroyed
    {
      if pointer.Some? {
        heap.Tally(ctrl, None);
        LogLookup(heap.holders, heap.deleter.destroyed, pointer.value);
      }
    }
  }

  /** The `expired` case of the weak handle tests, on a fresh object `p`:
      a weak handle on the only owner is not expired until that owner
      resets, which destroys `p`; then it is expired. */
  method ExpiresWhenOwnerResets(p: Id, heap: Heap) returns (before: bool, after: bool)
    requires heap.Valid() && heap.Unclaimed(p)
    modifies heap, heap.deleter
    ensures heap.Valid()
    ensures !before && after
    ensures heap.deleter.destroyed == old(heap.deleter.destroyed) + [p]
  {
    var sp := new SharedPtr(Some(p), heap);
    var wp := new WeakPtr.FromShared(sp, heap);
    before := wp.Expired();
    sp.Reset(None, heap);
    wp.ExpiredIffDestroyed(heap);
    after := wp.Expired();
  }

  /** The first step of the `lock` case of the weak handle tests: locking a
      weak handle on the only owner of a fresh object `p` gives a second
      owner of `p`, and both now report a use count of 2. */
  method LockAddsOwner(p: Id, heap: Heap) returns (locked: Option<Id>, count: nat)
    requires heap.Valid() && heap.Unclaimed(p)
    modifies heap
    ensures heap.Valid()
    ensures locked == Some(p) && count == 2
  {
    var sp := new SharedPtr(Some(p), heap);
    var wp := new WeakPtr.FromShared(sp, heap);
    var sp2 := wp.Lock(heap);
    locked := sp2.Get();
    count := sp2.UseCount();
  }
}
