/** `steev::unique_ptr` (src/memory/smart_ptr/unique_ptr.hpp): sole ownership of
    one pointer. The single-object and the array specialisation share every
    operation modelled here; only the single-object one has `operator=(T*)`. */
module UniquePtrs {
  import opened Memory

  class UniquePtr {
    var pointer: Option<Id>
    /** The deletion policy the handle invokes on the pointers it gives up. */
    const deleter: Deleter

    /** `unique_ptr(T* ptr = nullptr)`: owns `p` (the array form's default
        constructor is the null case). */
    constructor (p: Option<Id>, deleter: Deleter)
      ensures pointer == p && this.deleter == deleter
    {
      pointer := p;
      this.deleter := deleter;
    }

    /** Move construction: takes `other`'s pointer and leaves `other` null. The
        deletion policy is stateless, so the new handle uses the same one. */
    constructor Move(other: UniquePtr)
      modifies other
      ensures pointer == old(other.pointer) && other.pointer == None && deleter == other.deleter
    {
      pointer := other.pointer;
      deleter := other.deleter;
      new;
      other.pointer := None;
    }

    /** `get()`: the held pointer. */
    function Get(): (p: Option<Id>)
      reads this
      ensures p == pointer
    {
      pointer
    }

    /** `explicit operator bool`: whether a pointer is held, that is, whether
        the handle differs from null. */
    predicate IsSet(): (b: bool)
      reads this
      ensures b <==> Get().Some?
      ensures b <==> !EqualsPointer(None)
    {
      pointer.Some?
    }

    /** `operator==(const T*)`: compares the held pointer with `p`. */
    predicate EqualsPointer(p: Option<Id>): (b: bool)
      reads this
      ensures b <==> Get() == p
    {
      pointer == p
    }

    /** `reset(new_ptr)`: nothing happens when `p` is the held pointer;
        otherwise the held pointer, if any, goes to the deleter exactly once
        and `p` is held instead. */
    method Reset(p: Option<Id>)
      modifies this, deleter
      ensures pointer == p && EqualsPointer(p)
      ensures deleter.destroyed == old(deleter.destroyed)
                + (if old(pointer) != p && old(pointer).Some? then [old(pointer).value] else [])
    {
      if pointer != p {
        if pointer.Some? {
          deleter.Delete(pointer.value);
        }
        pointer := p;
      }
    }

    /** The destructor, `reset()`: a held pointer goes to the deleter exactly once. */
    method Destroy()
      modifies this, deleter
      ensures pointer == None && !IsSet()
      ensures deleter.destroyed == old(deleter.destroyed) + (if old(pointer).Some? then [old(pointer).value] else [])
    {
      Reset(None);
    }

    /** `release()`: hands back the held pointer and holds nothing; the deleter is not called. */
    method Release() returns (p: Option<Id>)
      modifies this
      ensures p == old(pointer) && pointer == None && !IsSet()
    {
      p := pointer;
      pointer := None;
    }

    /** `operator=(T* ptr)`: `reset()` first, so a held pointer goes to the
        deleter (even when it is `p` itself), then `p` is held. */
    method AssignPointer(p: Option<Id>)
      modifies this, deleter
      ensures pointer == p
      ensures deleter.destroyed == old(deleter.destroyed) + (if old(pointer).Some? then [old(pointer).value] else [])
    {
      Reset(None);
      pointer := p;
    }

    /** `swap`: the two handles exchange pointers; no deleter runs. */
    method Swap(other: UniquePtr)
      modifies this, other
      ensures pointer == old(other.pointer) && other.pointer == old(pointer)
    {
      var tmp := pointer;
      pointer := other.pointer;
      other.pointer := tmp;
    }

    /** Move assignment as written: takes `other`'s pointer and nulls
        `other`, but never hands the pointer it held before to the deleter.
        Moving a handle into itself leaves it null. */
    method MoveAssign(other: UniquePtr)
      modifies this, other
      ensures other.pointer == None
      ensures this != other ==> pointer == old(other.pointer)
    {
      pointer := other.pointer;
      other.pointer := None;
    }

    /** Move assignment as sole ownership requires, `reset(other.release())`:
        the previously held pointer goes to the deleter unless it is the one
        taken over, and moving a handle into itself changes nothing. */
    method MoveAssignOwning(other: UniquePtr)
      modifies this, other, deleter
      ensures pointer == old(other.pointer)
      ensures this != other ==> other.pointer == None
      ensures deleter.destroyed == old(deleter.destroyed)
                + (if old(pointer) != old(other.pointer) && old(pointer).Some? then [old(pointer).value] else [])
    {
      var p := other.Release();
      Reset(p);
    }
  }

  /** Moving one owned object onto a handle that owns another, as written:
      the first object is held by neither handle afterwards and has not been
      handed to the deleter, so it is never destroyed. */
  method MoveAssignLeaks(p: Id, q: Id, deleter: Deleter) returns (a: UniquePtr, b: UniquePtr)
    requires p != q
    modifies deleter
    ensures a.pointer == Some(q) && b.pointer == None
    ensures deleter.destroyed == old(deleter.destroyed)
  {
    a := new UniquePtr(Some(p), deleter);
    b := new UniquePtr(Some(q), deleter);
    a.MoveAssign(b);
  }

  /** The same move with the owning assignment: the first object is destroyed. */
  method MoveAssignOwningDestroys(p: Id, q: Id, deleter: Deleter) returns (a: UniquePtr, b: UniquePtr)
    requires p != q
    modifies deleter
    ensures a.pointer == Some(q) && b.pointer == None
    ensures deleter.destroyed == old(deleter.destroyed) + [p]
  {
    a := new UniquePtr(Some(p), deleter);
    b := new UniquePtr(Some(q), deleter);
    a.MoveAssignOwning(b);
  }
}
