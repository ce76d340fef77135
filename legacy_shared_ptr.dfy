/** The older `steev::shared_ptr` (src/memory/shared_ptr.hpp). Its control
    block, constructors, `release`, `reset`, `swap`, `use_count` and
    comparisons are those of `SharedPtrs.SharedPtr`; only its two assignment
    operators differ: they do not check for self-assignment. */
module LegacySharedPtrs {
  import opened Memory
  import opened ControlBlocks
  import opened SharedPtrs

  /** Copy assignment as the older header writes it: `release` first, then
      share `other`'s pointer and block. When `self` is `other`, the release
      has already emptied `other`, so the handle ends up empty and, if it
      was the last owner, its object is destroyed. */
  method CopyAssign(self: SharedPtr, other: SharedPtr, heap: Heap)
    requires heap.Valid() && self.Valid(heap) && other.Valid(heap)
    modifies self, heap, heap.deleter, self.ctrl, other.ctrl
    ensures heap.Valid() && self.Valid(heap) && other.Valid(heap)
    ensures self.pointer == other.pointer && self.ctrl == other.ctrl
    ensures self == other ==> self.pointer == None && self.ctrl == null
    ensures heap.deleter.destroyed == old(heap.deleter.destroyed)
              + (if old(self.ctrl) != null && old(self.ctrl.strong) == 1 then [old(self.pointer).value] else [])
    ensures heap.holders == Added(Dropped(old(heap.holders), self, old(self.pointer)), self, self.pointer)
    ensures heap.owner == Tied(old(heap.owner) - {self}, self, self.pointer)
    ensures heap.blockOf == old(heap.blockOf) && heap.watchers == old(heap.watchers) && heap.observer == old(heap.observer)
  {
    self.Release(heap);
    // For `self == other`, copying the fields `release` has just cleared changes nothing.
    if self != other {
      self.Share(other, heap);
    }
  }

  /** Move assignment as the older header writes it: `release` first, then
      take over `other`'s pointer and block and empty `other`. When `self` is
      `other`, the handle ends up empty and, if it was the last owner, its
      object is destroyed. */
  method MoveAssign(self: SharedPtr, other: SharedPtr, heap: Heap)
    requires heap.Valid() && self.Valid(heap) && other.Valid(heap)
    modifies self, other, heap, heap.deleter, self.ctrl
    ensures heap.Valid() && self.Valid(heap) && other.Valid(heap)
    ensures self == other ==> self.pointer == None && self.ctrl == null
    ensures self != other ==> && self.pointer == old(other.pointer) && self.ctrl == old(other.ctrl)
                              && other.pointer == None && other.ctrl == null
    ensures heap.deleter.destroyed == old(heap.deleter.destroyed)
              + (if old(self.ctrl) != null && old(self.ctrl.strong) == 1 then [old(self.pointer).value] else [])
    ensures heap.holders == Added(Dropped(Dropped(old(heap.holders), self, old(self.pointer)), other, self.pointer),
                                  self, self.pointer)
    ensures heap.owner == Tied(old(heap.owner) - {self} - {other}, self, self.pointer)
    ensures heap.blockOf == old(heap.blockOf) && heap.watchers == old(heap.watchers) && heap.observer == old(heap.observer)
  {
    self.Release(heap);
    // For `self == other`, moving the fields `release` has just cleared changes nothing.
    if self != other {
      self.TakeOver(other, heap);
    }
  }

  /** `sp = sp` on the only owner of a fresh object, with the older header:
      the handle is left empty and the object it still referred to has been
      destroyed. */
  method SelfCopyAssignDestroys(p: Id, heap: Heap) returns (sp: SharedPtr)
    requires heap.Valid() && heap.Unclaimed(p)
    modifies heap, heap.deleter
    ensures heap.Valid() && sp.Valid(heap)
    ensures sp.pointer == None && heap.deleter.destroyed == old(heap.deleter.destroyed) + [p]
  {
    sp := new SharedPtr(Some(p), heap);
    CopyAssign(sp, sp, heap);
  }

  /** The same self-assignment with the guarded operator changes nothing:
      the handle still owns its object, which is alive. */
  method SelfCopyAssignKeeps(p: Id, heap: Heap) returns (sp: SharedPtr)
    requires heap.Valid() && heap.Unclaimed(p)
    modifies heap, heap.deleter
    ensures heap.Valid() && sp.Valid(heap)
    ensures sp.pointer == Some(p) && heap.deleter.destroyed == old(heap.deleter.destroyed)
  {
    sp := new SharedPtr(Some(p), heap);
    sp.CopyAssign(sp, heap);
  }

  /** `sp = std::move(sp)` on the only owner of a fresh object, with the older
      header: the handle is left empty and the object destroyed. */
  method SelfMoveAssignDestroys(p: Id, heap: Heap) returns (sp: SharedPtr)
    requires heap.Valid() && heap.Unclaimed(p)
    modifies heap, heap.deleter
    ensures heap.Valid() && sp.Valid(heap)
    ensures sp.pointer == None && heap.deleter.destroyed == old(heap.deleter.destroyed) + [p]
  {
    sp := new SharedPtr(Some(p), heap);
    MoveAssign(sp, sp, heap);
  }
}
