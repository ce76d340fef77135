/** Vocabulary shared by the smart pointers: managed addresses and the deletion policy. */
module Memory {

  /** The address of a managed object. The pointers never dereference it, so an
      opaque number is all the model needs; a null pointer is `None`. */
  type Id = nat

  datatype Option<+T> = None | Some(value: T)

  /** The deletion policy (`default_delete` or a custom deleter). Its only effect
      that matters to the pointers is the destruction of the object handed to it,
      recorded here in order of occurrence. */
  class Deleter {
    ghost var destroyed: seq<Id>

    constructor ()
      ensures destroyed == []
    {
      destroyed := [];
    }

    /** Invokes the policy on `p`: the object at `p` is destroyed. */
    method Delete(p: Id)
      modifies this
      ensures destroyed == old(destroyed) + [p]
    {
      destroyed := destroyed + [p];
    }
  }
}
