/** `steev::shared_ptr` (src/memory/smart_ptr/shared_ptr.hpp): a strong owner that
    pairs a managed pointer with the control block counting its owners. */
module SharedPtrs {
  import opened Memory
  import opened ControlBlocks

  /** `make_control_block`: no block for a null pointer, otherwise a fresh block
      whose one strong reference is held by `h`. */
  method MakeControlBlock(p: Option<Id>, ghost h: object, heap: Heap) returns (c: ControlBlock?)
    requires heap.Valid() && h !in heap.owner
    requires p.Some? ==> heap.Unclaimed(p.value)
    modifies heap
    ensures heap.Valid()
    ensures p.None? <==> c == null
    ensures p.None? ==> heap.holders == old(heap.holders) && heap.owner == old(heap.owner)
                        && heap.blockOf == old(heap.blockOf) && heap.watchers == old(heap.watchers)
    ensures p.Some? ==> && fresh(c) && c.obj == p.value && heap.Holds(c)
                        && c.strong == 1 && c.weak == 0
                        && heap.blockOf == old(heap.blockOf)[p.value := c]
                        && heap.holders == old(heap.holders)[p.value := {h}]
                        && heap.owner == old(heap.owner)[h := p.value]
                        && heap.watchers == old(heap.watchers)[p.value := {}]
    ensures heap.observer == old(heap.observer)
  {
    if p.None? {
      return null;
    }
    c := new ControlBlock(p.value);
    heap.Register(c, h);
  }

  /** `make_shared<T>()`: a shared handle that owns the freshly allocated
      object `p`, with a strong count of 1. */
  method MakeShared(p: Id, heap: Heap) returns (sp: SharedPtr)
    requires heap.Valid() && heap.Unclaimed(p)
    modifies heap
    ensures heap.Valid() && fresh(sp) && sp.Valid(heap)
    ensures sp.pointer == Some(p) && fresh(sp.ctrl) && sp.ctrl.strong == 1 && sp.ctrl.weak == 0
    ensures heap.blockOf == old(heap.blockOf)[p := sp.ctrl]
    ensures heap.holders == old(heap.holders)[p := {sp}] && heap.owner == old(heap.owner)[sp := p]
    ensures heap.watchers == old(heap.watchers)[p := {}] && heap.observer == old(heap.observer)
  {
    sp := new SharedPtr(Some(p), heap);
  }

  class SharedPtr {
    var pointer: Option<Id>
    var ctrl: ControlBlock?

    /** The pairing that `release` asserts: null pointer iff null block. */
    predicate Paired()
      reads this
    {
      pointer.None? <==> ctrl == null
    }

    /** A non-empty handle is counted, once, in the block of its object; an
        empty one is counted nowhere. */
    ghost predicate Valid(heap: Heap)
      reads this, heap
    {
      && Paired()
      && Lookup(heap.owner, this) == pointer
      && (ctrl != null ==> ctrl.obj == pointer.value && heap.Holds(ctrl))
    }

    /** `shared_ptr()`: the empty handle. */
    constructor Empty()
      ensures pointer == None && ctrl == null
    {
      pointer, ctrl := None, null;
    }

    /** `shared_ptr(T* ptr)`: takes ownership of `ptr`, which no block owns yet;
        a non-null pointer gets a fresh block with a strong count of 1. */
    constructor (p: Option<Id>, heap: Heap)
      requires heap.Valid()
      requires p.Some? ==> heap.Unclaimed(p.value)
      modifies heap
      ensures heap.Valid() && Valid(heap)
      ensures pointer == p
      ensures p.None? ==> ctrl == null && heap.holders == old(heap.holders) && heap.owner == old(heap.owner)
                          && heap.blockOf == old(heap.blockOf) && heap.watchers == old(heap.watchers)
      ensures p.Some? ==> && fresh(ctrl) && ctrl.strong == 1 && ctrl.weak == 0
                          && heap.blockOf == old(heap.blockOf)[p.value := ctrl]
                          && heap.holders == old(heap.holders)[p.value := {this}]
                          && heap.owner == old(heap.owner)[this := p.value]
                          && heap.watchers == old(heap.watchers)[p.value := {}]
      ensures heap.observer == old(heap.observer)
    {
      pointer, ctrl := p, null;
      new;
      ctrl := MakeControlBlock(p, this, heap);
    }

    /** Copy construction: shares the other's pointer and block, one more strong reference. */
    constructor Copy(other: SharedPtr, heap: Heap)
      requires heap.Valid() && other.Valid(heap)
      modifies heap, other.ctrl
      ensures heap.Valid() && Valid(heap) && other.Valid(heap)
      ensures pointer == other.pointer && ctrl == other.ctrl
      ensures ctrl != null ==> ctrl.strong == old(other.ctrl.strong) + 1 && ctrl.weak == old(other.ctrl.weak)
      ensures heap.holders == Added(old(heap.holders), this, pointer)
      ensures heap.owner == Tied(old(heap.owner), this, pointer)
      ensures heap.blockOf == old(heap.blockOf) && heap.watchers == old(heap.watchers) && heap.observer == old(heap.observer)
    {
      pointer, ctrl := None, null;
      new;
      Share(other, heap);
    }

    /** The copy shared by copy construction and copy assignment: this empty
        handle shares `other`'s pointer and block, which gains one strong
        reference. */
    method Share(other: SharedPtr, heap: Heap)
      requires heap.Valid() && Valid(heap) && other.Valid(heap)
      requires this != other && pointer == None
      modifies this, other.ctrl, heap
      ensures heap.Valid() && Valid(heap) && other.Valid(heap)
      ensures pointer == other.pointer && ctrl == other.ctrl
      ensures ctrl != null ==> ctrl.strong == old(other.ctrl.strong) + 1 && ctrl.weak == old(other.ctrl.weak)
      ensures heap.holders == Added(old(heap.holders), this, pointer)
      ensures heap.owner == Tied(old(heap.owner), this, pointer)
      ensures heap.blockOf == old(heap.blockOf) && heap.watchers == old(heap.watchers) && heap.observer == old(heap.observer)
    {
      pointer, ctrl := other.pointer, other.ctrl;
      if pointer.Some? {
        other.Alive(heap);
        ctrl.AddRef(this, heap);
      }
    }

    /** Move construction: takes over pointer and block and leaves `other`
        empty; the reference changes hands, no counter changes. */
    constructor Move(other: SharedPtr, heap: Heap)
      requires heap.Valid() && other.Valid(heap)
      modifies heap, other
      ensures heap.Valid() && Valid(heap) && other.Valid(heap)
      ensures pointer == old(other.pointer) && ctrl == old(other.ctrl)
      ensures other.pointer == None && other.ctrl == null
      ensures heap.holders == Added(Dropped(old(heap.holders), other, pointer), this, pointer)
      ensures heap.owner == Tied(old(heap.owner) - {other}, this, pointer)
      ensures heap.blockOf == old(heap.blockOf) && heap.watchers == old(heap.watchers) && heap.observer == old(heap.observer)
    {
      pointer, ctrl := None, null;
      new;
      TakeOver(other, heap);
    }

    /** The move shared by move construction and move assignment: this empty
        handle takes over `other`'s pointer and block and leaves `other`
        empty; the reference changes hands, no counter changes. */
    method TakeOver(other: SharedPtr, heap: Heap)
      requires heap.Valid() && Valid(heap) && other.Valid(heap)
      requires this != other && pointer == None
      modifies this, other, heap
      ensures heap.Valid() && Valid(heap) && other.Valid(heap)
      ensures pointer == old(other.pointer) && ctrl == old(other.ctrl)
      ensures other.pointer == None && other.ctrl == null
      ensures heap.holders == Added(Dropped(old(heap.holders), other, pointer), this, pointer)
      ensures heap.owner == Tied(old(heap.owner) - {other}, this, pointer)
      ensures heap.blockOf == old(heap.blockOf) && heap.watchers == old(heap.watchers) && heap.observer == old(heap.observer)
    {
      pointer, ctrl, other.pointer, other.ctrl := other.pointer, other.ctrl, None, null;
      if pointer.Some? {
        heap.HandOverOwner(pointer.value, other, this);
      }
    }

    /** `release` (also the destructor): drops this handle's strong reference;
        the deleter runs on the pointer exactly when that was the last one.
        An empty handle is left alone. */
    method Release(heap: Heap)
      requires heap.Valid() && Valid(heap)
      modifies this, heap, heap.deleter, ctrl
      ensures heap.Valid() && Valid(heap)
      ensures pointer == None && ctrl == null
      ensures old(ctrl) != null ==> && old(ctrl).strong == old(ctrl.strong) - 1
                                    && old(ctrl).weak == old(ctrl.weak)
      ensures heap.deleter.destroyed == old(heap.deleter.destroyed)
                + (if old(ctrl) != null && old(ctrl.strong) == 1 then [old(pointer).value] else [])
      ensures heap.holders == Dropped(old(heap.holders), this, old(pointer))
      ensures heap.owner == old(heap.owner) - {this}
      ensures heap.blockOf == old(heap.blockOf) && heap.watchers == old(heap.watchers) && heap.observer == old(heap.observer)
    {
      assert Paired();
      if pointer.None? {
        return;
      }
      var p, c := pointer.value, ctrl;
      pointer, ctrl := None, null;
      var n := c.RemoveRef(this, heap);
      if n == 0 {
        DeleteLog(heap.holders, heap.deleter.destroyed, p);
        heap.deleter.Delete(p);
      }
    }

    /** Copy assignment: unless `other` is this very handle, drops the current
        reference (destroying the object if it was the last) and then shares
        `other`'s pointer and block. */
    method CopyAssign(other: SharedPtr, heap: Heap)
      requires heap.Valid() && Valid(heap) && other.Valid(heap)
      modifies this, heap, heap.deleter, ctrl, other.ctrl
      ensures heap.Valid() && Valid(heap) && other.Valid(heap)
      ensures pointer == other.pointer && ctrl == other.ctrl
      ensures heap.deleter.destroyed == old(heap.deleter.destroyed)
                + (if this != other && old(ctrl) != null && old(ctrl.strong) == 1 then [old(pointer).value] else [])
      ensures this == other ==> heap.holders == old(heap.holders) && heap.owner == old(heap.owner)
      ensures this != other ==> && heap.holders == Added(Dropped(old(heap.holders), this, old(pointer)), this, pointer)
                                && heap.owner == Tied(old(heap.owner) - {this}, this, pointer)
      ensures heap.blockOf == old(heap.blockOf) && heap.watchers == old(heap.watchers) && heap.observer == old(heap.observer)
    {
      if this != other {
        Release(heap);
        Share(other, heap);
      }
    }

    /** Move assignment: unless `other` is this very handle, drops the current
        reference (destroying the object if it was the last), takes over
        `other`'s pointer and block and leaves `other` empty. */
    method MoveAssign(other: SharedPtr, heap: Heap)
      requires heap.Valid() && Valid(heap) && other.Valid(heap)
      modifies this, other, heap, heap.deleter, ctrl
      ensures heap.Valid() && Valid(heap) && other.Valid(heap)
      ensures this == other ==> pointer == old(pointer) && ctrl == old(ctrl)
      ensures this != other ==> && pointer == old(other.pointer) && ctrl == old(other.ctrl)
                                && other.pointer == None && other.ctrl == null
      ensures heap.deleter.destroyed == old(heap.deleter.destroyed)
                + (if this != other && old(ctrl) != null && old(ctrl.strong) == 1 then [old(pointer).value] else [])
      ensures this == other ==> heap.holders == old(heap.holders) && heap.owner == old(heap.owner)
      ensures this != other ==>
                && heap.holders == Added(Dropped(Dropped(old(heap.holders), this, old(pointer)), other, pointer), this, pointer)
                && heap.owner == Tied(old(heap.owner) - {this} - {other}, this, pointer)
      ensures heap.blockOf == old(heap.blockOf) && heap.watchers == old(heap.watchers) && heap.observer == old(heap.observer)
    {
      if this != other {
        Release(heap);
        TakeOver(other, heap);
      }
    }

    /** `reset(ptr)`: drops the current reference (destroying the object if it
        was the last) and takes ownership of `p`, which no block owns yet. */
    method Reset(p: Option<Id>, heap: Heap)
      requires heap.Valid() && Valid(heap)
      requires p.Some? ==> heap.Unclaimed(p.value)
      modifies this, heap, heap.deleter, ctrl
      ensures heap.Valid() && Valid(heap)
      ensures pointer == p && (p.Some? ==> fresh(ctrl) && ctrl.strong == 1 && ctrl.weak == 0)
      ensures heap.deleter.destroyed == old(heap.deleter.destroyed)
                + (if old(ctrl) != null && old(ctrl.strong) == 1 then [old(pointer).value] else [])
      ensures p.None? ==> && heap.holders == Dropped(old(heap.holders), this, old(pointer))
                          && heap.blockOf == old(heap.blockOf) && heap.watchers == old(heap.watchers)
      ensures p.Some? ==> && heap.holders == Dropped(old(heap.holders), this, old(pointer))[p.value := {this}]
                          && heap.blockOf == old(heap.blockOf)[p.value := ctrl]
                          && heap.watchers == old(heap.watchers)[p.value := {}]
      ensures heap.owner == Tied(old(heap.owner), this, p) && heap.observer == old(heap.observer)
    {
      Release(heap);
      var c := MakeControlBlock(p, this, heap);
      pointer, ctrl := p, c;
    }

    /** `swap`: the two handles trade pointers and blocks; no counter changes. */
    method Swap(other: SharedPtr, heap: Heap)
      requires heap.Valid() && Valid(heap) && other.Valid(heap)
      modifies this, other, heap
      ensures heap.Valid() && Valid(heap) && other.Valid(heap)
      ensures pointer == old(other.pointer) && ctrl == old(other.ctrl)
      ensures other.pointer == old(pointer) && other.ctrl == old(ctrl)
      ensures heap.holders == Traded(old(heap.holders), this, old(pointer), other, old(other.pointer))
      ensures heap.owner == Retied(old(heap.owner), this, old(pointer), other, old(other.pointer))
      ensures heap.blockOf == old(heap.blockOf) && heap.watchers == old(heap.watchers) && heap.observer == old(heap.observer)
    {
      var x, y, c, d := pointer, other.pointer, ctrl, other.ctrl;
      pointer, ctrl := y, d;
      other.pointer, other.ctrl := x, c;
      heap.TradeOwners(this, x, other, y);
    }

    /** A non-empty handle keeps its object alive: the handle is among the
        object's holders, the strong count is positive, the object has not
        been destroyed and the block has not freed itself. */
    lemma Alive(heap: Heap)
      requires heap.Valid() && Valid(heap) && pointer.Some?
      ensures pointer.value in heap.holders && this in heap.holders[pointer.value] && ctrl.strong > 0
      ensures pointer.value !in heap.deleter.destroyed && !ctrl.freed
    {
      LedgerLookup(heap.holders, heap.owner, this);
      heap.Tally(ctrl, None);
      LogLookup(heap.holders, heap.deleter.destroyed, pointer.value);
    }

    /** `get()`: the managed pointer. */
    function Get(): (p: Option<Id>)
      reads this
      ensures p == pointer
    {
      pointer
    }

    /** `use_count()`: 0 for an empty handle, otherwise the strong count of its block. */
    function UseCount(): (n: nat)
      reads this, ctrl
      requires Paired()
      ensures pointer.None? ==> n == 0
      ensures pointer.Some? ==> n == ctrl.strong
    {
      if pointer.None? then 0 else ctrl.GetRefs()
    }

    /** `operator==(T*)`: compares the managed pointer with `p`; comparing
        with null asks whether the handle is empty. */
    predicate EqualsPointer(p: Option<Id>): (b: bool)
      reads this
      ensures b <==> Get() == p
    {
      pointer == p
    }

    /** `operator==(const shared_ptr&)`: same pointer and same block, so equal
        handles also compare equal to the same raw pointer. */
    predicate Equals(other: SharedPtr): (b: bool)
      reads this, other
      ensures b ==> EqualsPointer(other.Get()) && other.EqualsPointer(Get())
    {
      pointer == other.pointer && ctrl == other.ctrl
    }

    /** A handle's use count is the number of shared handles of its object. */
    lemma UseCountCountsHolders(heap: Heap)
      requires heap.Valid() && Valid(heap)
      ensures pointer.Some? ==> pointer.value in heap.holders && UseCount() == |heap.holders[pointer.value]|
    {
      if pointer.Some? {
        heap.Tally(ctrl, None);
      }
    }

    /** For a valid handle, `*this == x` holds exactly when the handle is one
        of the shared handles counted in the strong count of `x`. */
    lemma {:induction false} EqualsPointerIffHolder(x: Id, heap: Heap)
      requires heap.Valid() && Valid(heap)
      ensures EqualsPointer(Some(x)) <==> x in heap.holders && this in heap.holders[x]
    {
      if x in heap.holders && this in heap.holders[x] {
        LedgerMember(heap.holders, heap.owner, x, this);
      }
      if EqualsPointer(Some(x)) {
        LedgerLookup(heap.holders, heap.owner, this);
      }
    }

    /** Two valid handles on the same pointer share the same block, so the
        block comparison in `operator==` never decides the outcome. */
    lemma EqualsIffSamePointer(other: SharedPtr, heap: Heap)
      requires heap.Valid() && Valid(heap) && other.Valid(heap)
      ensures Equals(other) <==> EqualsPointer(other.pointer)
    {
    }
  }
}
