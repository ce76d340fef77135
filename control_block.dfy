/** The strong/weak counter pair behind `shared_ptr` and `weak_ptr`, and the
    ghost ledger that ties every counter to the handles it counts. */
module ControlBlocks {
  import opened Memory

  /** Every handle counted for `x` in `held` is tied to `x`. */
  ghost predicate Fits(held: map<Id, set<object>>, tie: map<object, Id>, x: Id)
  {
    x in held ==> forall h :: h in held[x] ==> h in tie && tie[h] == x
  }

  /** A handle tied to an object is among those counted for it. */
  ghost predicate Anchored(held: map<Id, set<object>>, tie: map<object, Id>, h: object)
  {
    h in tie ==> tie[h] in held && h in held[tie[h]]
  }

  /** `held[x]` is the set of handles counted for object `x` and `tie[h]` the
      object that handle `h` is counted for; the two views agree. */
  ghost predicate Ledger(held: map<Id, set<object>>, tie: map<object, Id>)
  {
    && (forall x :: Fits(held, tie, x))
    && (forall h {:trigger Anchored(held, tie, h)} :: h in tie ==> Anchored(held, tie, h))
  }

  /** `held` once handle `h` is no longer counted for `at` (nothing changes for a null `at`). */
  ghost function Dropped(held: map<Id, set<object>>, h: object, at: Option<Id>): map<Id, set<object>>
  {
    if at.Some? && at.value in held then held[at.value := held[at.value] - {h}] else held
  }

  /** `held` once handle `h` is counted for `at` as well (nothing changes for a null `at`). */
  ghost function Added(held: map<Id, set<object>>, h: object, at: Option<Id>): map<Id, set<object>>
  {
    if at.Some? && at.value in held then held[at.value := held[at.value] + {h}] else held
  }

  /** `tie` once handle `h` is counted for `at`, or for nothing when `at` is null. */
  ghost function Tied(tie: map<object, Id>, h: object, at: Option<Id>): map<object, Id>
  {
    if at.Some? then tie[h := at.value] else tie - {h}
  }

  /** A handle the ledger ties to an object is among that object's handles. */
  lemma LedgerLookup(held: map<Id, set<object>>, tie: map<object, Id>, h: object)
    requires Ledger(held, tie) && h in tie
    ensures tie[h] in held && h in held[tie[h]]
  {
    assert Anchored(held, tie, h);
  }

  /** A handle among an object's handles is tied to that object. */
  lemma LedgerMember(held: map<Id, set<object>>, tie: map<object, Id>, x: Id, h: object)
    requires Ledger(held, tie) && x in held && h in held[x]
    ensures h in tie && tie[h] == x
  {
    assert Fits(held, tie, x);
  }

  /** A fresh object enters the ledger with nobody counted for it. */
  lemma OpenLedger(held: map<Id, set<object>>, tie: map<object, Id>, x: Id)
    requires Ledger(held, tie) && x !in held
    ensures Ledger(held[x := {}], tie)
  {
    var held' := held[x := {}];
    forall y
      ensures Fits(held', tie, y)
    {
      assert Fits(held, tie, y);
    }
    forall g | g in tie
      ensures Anchored(held', tie, g)
    {
      assert Anchored(held, tie, g);
    }
  }

  /** Handle `h`, counted nowhere, becomes counted for `x`: one more handle for `x`. */
  lemma JoinLedger(held: map<Id, set<object>>, tie: map<object, Id>, x: Id, h: object)
    requires Ledger(held, tie) && x in held && h !in tie
    ensures h !in held[x]
    ensures x in Added(held, h, Some(x)) && |Added(held, h, Some(x))[x]| == |held[x]| + 1
    ensures Ledger(Added(held, h, Some(x)), Tied(tie, h, Some(x)))
  {
    assert Fits(held, tie, x);
    var held', tie' := Added(held, h, Some(x)), Tied(tie, h, Some(x));
    forall y
      ensures Fits(held', tie', y)
    {
      assert Fits(held, tie, y);
    }
    forall g | g in tie'
      ensures Anchored(held', tie', g)
    {
      if g in tie {
        assert Anchored(held, tie, g);
      }
    }
  }

  /** Handle `h` stops being counted: one handle fewer for its object. */
  lemma LeaveLedger(held: map<Id, set<object>>, tie: map<object, Id>, h: object)
    requires Ledger(held, tie) && h in tie
    ensures tie[h] in held && h in held[tie[h]]
    ensures tie[h] in Dropped(held, h, Some(tie[h]))
    ensures |Dropped(held, h, Some(tie[h]))[tie[h]]| == |held[tie[h]]| - 1
    ensures Ledger(Dropped(held, h, Some(tie[h])), tie - {h})
  {
    LedgerLookup(held, tie, h);
    var held', tie' := Dropped(held, h, Some(tie[h])), tie - {h};
    forall y
      ensures Fits(held', tie', y)
    {
      assert Fits(held, tie, y);
    }
    forall g | g in tie'
      ensures Anchored(held', tie', g)
    {
      if g in tie {
        assert Anchored(held, tie, g);
      }
    }
  }

  /** The handle counted as `from` is now counted as `to`, for the same object,
      which keeps its number of handles. */
  lemma HandOverLedger(held: map<Id, set<object>>, tie: map<object, Id>, from: object, to: object)
    requires Ledger(held, tie) && from in tie && to !in tie
    ensures var x := tie[from];
            var held' := Added(Dropped(held, from, Some(x)), to, Some(x));
            && x in held && from in held[x] && x in held' && |held'[x]| == |held[x]|
            && Ledger(held', Tied(tie - {from}, to, Some(x)))
  {
    var x := tie[from];
    LeaveLedger(held, tie, from);
    var held1 := Dropped(held, from, Some(x));
    JoinLedger(held1, tie - {from}, x, to);
    assert Added(held1, to, Some(x)) == Added(Dropped(held, from, Some(x)), to, Some(x));
  }

  /** Handles `a` and `b`, counted for different objects, trade places: both
      objects keep their number of handles. */
  lemma ExchangeLedger(held: map<Id, set<object>>, tie: map<object, Id>, a: object, b: object)
    requires Ledger(held, tie) && a in tie && b in tie && tie[a] != tie[b]
    ensures var x, y := tie[a], tie[b];
            var held' := Added(Added(Dropped(Dropped(held, a, Some(x)), b, Some(y)), a, Some(y)), b, Some(x));
            && x in held && y in held && a in held[x] && b in held[y]
            && x in held' && y in held' && |held'[x]| == |held[x]| && |held'[y]| == |held[y]|
            && Ledger(held', Tied(Tied(tie, a, Some(y)), b, Some(x)))
  {
    var x, y := tie[a], tie[b];
    LeaveLedger(held, tie, a);
    var held1, tie1 := Dropped(held, a, Some(x)), tie - {a};
    LeaveLedger(held1, tie1, b);
    var held2, tie2 := Dropped(held1, b, Some(y)), tie1 - {b};
    JoinLedger(held2, tie2, y, a);
    var held3, tie3 := Added(held2, a, Some(y)), Tied(tie2, a, Some(y));
    JoinLedger(held3, tie3, x, b);
    assert Tied(Tied(tie2, a, Some(y)), b, Some(x)) == Tied(Tied(tie, a, Some(y)), b, Some(x));
  }

  /** Handles `a` and `b`, both counted for the same object (or the same
      handle twice), trade places: nothing changes. */
  lemma ExchangeSame(held: map<Id, set<object>>, tie: map<object, Id>, a: object, b: object)
    requires Ledger(held, tie) && a in tie && b in tie && tie[a] == tie[b]
    ensures var x := Some(tie[a]);
            && Added(Added(Dropped(Dropped(held, a, x), b, x), a, x), b, x) == held
            && Tied(Tied(tie, a, x), b, x) == tie
  {
    LedgerLookup(held, tie, a);
    LedgerLookup(held, tie, b);
    var x := tie[a];
    assert held[x] - {a} - {b} + {a} + {b} == held[x];
    assert Added(Added(Dropped(Dropped(held, a, Some(x)), b, Some(x)), a, Some(x)), b, Some(x))
           == held[x := held[x]] == held;
    assert tie[a := x][b := x] == tie;
  }

  /** Object `x` is settled in `log`: it has been destroyed, or is the one
      pending destruction, exactly when nobody holds it. */
  ghost predicate Settled(held: map<Id, set<object>>, log: seq<Id>, pending: Option<Id>, x: Id)
  {
    x in held ==> (x in log || pending == Some(x) <==> held[x] == {})
  }

  /** The `i`-th destruction, if there is one, is of a known object. */
  ghost predicate Known(held: map<Id, set<object>>, log: seq<Id>, i: int)
  {
    0 <= i < |log| ==> log[i] in held
  }

  /** The `i`-th and `j`-th destructions, if `i < j` are both positions of `log`, are of different objects. */
  ghost predicate Apart(log: seq<Id>, i: int, j: int)
  {
    0 <= i < j < |log| ==> log[i] != log[j]
  }

  /** The destruction log `log` agrees with the ledger: an object has been
      destroyed iff nobody holds it any more, except that the object `pending`
      has just lost its last holder and is about to be destroyed; every logged
      object is known, and none is logged twice. */
  ghost predicate DestroyLog(held: map<Id, set<object>>, log: seq<Id>, pending: Option<Id>)
  {
    && (forall x :: Settled(held, log, pending, x))
    && (pending.Some? ==> pending.value in held && pending.value !in log)
    && (forall i :: Known(held, log, i))
    && (forall i, j :: Apart(log, i, j))
  }

  /** With nothing pending, a known object has been destroyed iff nobody holds it. */
  lemma LogLookup(held: map<Id, set<object>>, log: seq<Id>, x: Id)
    requires DestroyLog(held, log, None) && x in held
    ensures x in log <==> held[x] == {}
  {
    assert Settled(held, log, None, x);
  }

  /** Every destroyed object is a known one. */
  lemma LogKnown(held: map<Id, set<object>>, log: seq<Id>, pending: Option<Id>, x: Id)
    requires DestroyLog(held, log, pending) && x in log
    ensures x in held
  {
    var i :| 0 <= i < |log| && log[i] == x;
    assert Known(held, log, i);
  }

  /** Handle `h` stops holding `x`: `x` becomes pending exactly when `h` was its last holder. */
  lemma LeaveLog(held: map<Id, set<object>>, log: seq<Id>, x: Id, h: object)
    requires DestroyLog(held, log, None) && x in held && h in held[x]
    ensures DestroyLog(Dropped(held, h, Some(x)), log, if |held[x]| == 1 then Some(x) else None)
  {
    var held' := Dropped(held, h, Some(x));
    var pending := if |held[x]| == 1 then Some(x) else None;
    assert |held[x] - {h}| == |held[x]| - 1;
    assert held'[x] == {} <==> |held[x]| == 1;
    assert Settled(held, log, None, x);
    forall y
      ensures Settled(held', log, pending, y)
    {
      assert Settled(held, log, None, y);
    }
    forall i
      ensures Known(held', log, i)
    {
      assert Known(held, log, i);
    }
  }

  /** The pending object is destroyed and logged; the log agrees with the ledger again. */
  lemma DeleteLog(held: map<Id, set<object>>, log: seq<Id>, x: Id)
    requires DestroyLog(held, log, Some(x))
    ensures DestroyLog(held, log + [x], None)
  {
    var log' := log + [x];
    forall y
      ensures Settled(held, log', None, y)
    {
      assert Settled(held, log, Some(x), y);
    }
    forall i
      ensures Known(held, log', i)
    {
      assert Known(held, log, i);
    }
    forall i, j
      ensures Apart(log', i, j)
    {
      assert Apart(log, i, j);
      if 0 <= i < j == |log| {
        assert log'[i] == log[i];
      }
    }
  }

  /** A fresh object enters the log's view, held by one handle. */
  lemma OpenLog(held: map<Id, set<object>>, log: seq<Id>, x: Id, h: object)
    requires DestroyLog(held, log, None) && x !in held
    ensures DestroyLog(held[x := {h}], log, None)
  {
    var held' := held[x := {h}];
    if x in log {
      LogKnown(held, log, None, x);
    }
    forall y
      ensures Settled(held', log, None, y)
    {
      assert Settled(held, log, None, y);
    }
    forall i
      ensures Known(held', log, i)
    {
      assert Known(held, log, i);
    }
  }

  /** One more holder for an object that already has one changes nobody's fate. */
  lemma JoinLog(held: map<Id, set<object>>, log: seq<Id>, x: Id, h: object)
    requires DestroyLog(held, log, None) && x in held && held[x] != {}
    ensures DestroyLog(Added(held, h, Some(x)), log, None)
  {
    var held' := Added(held, h, Some(x));
    forall y
      ensures Settled(held', log, None, y)
    {
      assert Settled(held, log, None, y);
    }
    forall i
      ensures Known(held', log, i)
    {
      assert Known(held, log, i);
    }
  }

  /** Handing a reference from one handle to another empties no object's set,
      so the destruction log stays valid. */
  lemma HandOverLog(held: map<Id, set<object>>, log: seq<Id>, x: Id, from: object, to: object)
    requires DestroyLog(held, log, None) && x in held && from in held[x]
    ensures DestroyLog(Added(Dropped(held, from, Some(x)), to, Some(x)), log, None)
  {
    var held' := Added(Dropped(held, from, Some(x)), to, Some(x));
    assert held' == held[x := held[x] - {from} + {to}];
    forall y
      ensures Settled(held', log, None, y)
    {
      assert Settled(held, log, None, y);
    }
    forall i
      ensures Known(held', log, i)
    {
      assert Known(held, log, i);
    }
  }

  /** Trading the handles of two different objects empties no object's set,
      so the destruction log stays valid. */
  lemma ExchangeLog(held: map<Id, set<object>>, log: seq<Id>, a: object, x: Id, b: object, y: Id)
    requires DestroyLog(held, log, None) && x in held && y in held && x != y && a in held[x] && b in held[y]
    ensures DestroyLog(Added(Added(Dropped(Dropped(held, a, Some(x)), b, Some(y)), a, Some(y)), b, Some(x)), log, None)
  {
    var held' := Added(Added(Dropped(Dropped(held, a, Some(x)), b, Some(y)), a, Some(y)), b, Some(x));
    assert held' == held[x := held[x] - {a} + {b}][y := held[y] - {b} + {a}];
    forall z
      ensures Settled(held', log, None, z)
    {
      assert Settled(held, log, None, z);
    }
    forall i
      ensures Known(held', log, i)
    {
      assert Known(held, log, i);
    }
  }

  /** The object `tie` counts handle `h` for, if any. */
  ghost function Lookup(tie: map<object, Id>, h: object): Option<Id>
  {
    if h in tie then Some(tie[h]) else None
  }

  /** Every object of `held` is still there in `held'`, with as many handles. */
  ghost predicate SameCounts(held: map<Id, set<object>>, held': map<Id, set<object>>)
  {
    forall z | z in held :: z in held' && |held'[z]| == |held[z]|
  }

  /** `held` once handle `a`, counted for `x`, and handle `b`, counted for
      `y`, have traded places (`None` standing for "counted nowhere"). */
  ghost function Traded(held: map<Id, set<object>>, a: object, x: Option<Id>, b: object, y: Option<Id>): map<Id, set<object>>
  {
    Added(Added(Dropped(Dropped(held, a, x), b, y), a, y), b, x)
  }

  /** `tie` once handles `a` (counted for `x`) and `b` (counted for `y`) have traded places. */
  ghost function Retied(tie: map<object, Id>, a: object, x: Option<Id>, b: object, y: Option<Id>): map<object, Id>
  {
    Tied(Tied(tie, a, y), b, x)
  }

  /** After trading places, `a` is counted for `y` and `b` for `x`. */
  lemma RetiedLookup(tie: map<object, Id>, a: object, x: Option<Id>, b: object, y: Option<Id>)
    requires a == b ==> x == y
    ensures Lookup(Retied(tie, a, x, b, y), a) == y && Lookup(Retied(tie, a, x, b, y), b) == x
  {
  }

  /** Handles counted for the same object, or both for nothing, trade places:
      nothing changes. */
  lemma TradeAlike(held: map<Id, set<object>>, tie: map<object, Id>, a: object, b: object, x: Option<Id>)
    requires Ledger(held, tie) && Lookup(tie, a) == x && Lookup(tie, b) == x
    ensures Traded(held, a, x, b, x) == held && Retied(tie, a, x, b, x) == tie
  {
    if x.Some? {
      ExchangeSame(held, tie, a, b);
    } else {
      assert Tied(Tied(tie, a, None), b, None) == tie;
    }
  }

  /** Handles counted for two different objects trade places. */
  lemma TradeApart(held: map<Id, set<object>>, tie: map<object, Id>, log: seq<Id>, a: object, x: Id, b: object, y: Id)
    requires Ledger(held, tie) && Lookup(tie, a) == Some(x) && Lookup(tie, b) == Some(y) && x != y
    ensures Ledger(Traded(held, a, Some(x), b, Some(y)), Retied(tie, a, Some(x), b, Some(y)))
    ensures SameCounts(held, Traded(held, a, Some(x), b, Some(y)))
    ensures DestroyLog(held, log, None) ==> DestroyLog(Traded(held, a, Some(x), b, Some(y)), log, None)
  {
    ExchangeLedger(held, tie, a, b);
    if DestroyLog(held, log, None) {
      ExchangeLog(held, log, a, x, b, y);
    }
    var held' := Traded(held, a, Some(x), b, Some(y));
    assert held' == held[x := held[x] - {a} + {b}][y := held[y] - {b} + {a}];
  }

  /** A handle counted for `x` trades places with one counted for nothing, in
      either order. */
  lemma TradeOne(held: map<Id, set<object>>, tie: map<object, Id>, log: seq<Id>, a: object, x: Id, b: object)
    requires Ledger(held, tie) && Lookup(tie, a) == Some(x) && Lookup(tie, b) == None
    ensures Traded(held, b, None, a, Some(x)) == Traded(held, a, Some(x), b, None)
    ensures Retied(tie, b, None, a, Some(x)) == Retied(tie, a, Some(x), b, None)
    ensures Ledger(Traded(held, a, Some(x), b, None), Retied(tie, a, Some(x), b, None))
    ensures SameCounts(held, Traded(held, a, Some(x), b, None))
    ensures DestroyLog(held, log, None) ==> DestroyLog(Traded(held, a, Some(x), b, None), log, None)
  {
    HandOverLedger(held, tie, a, b);
    if DestroyLog(held, log, None) {
      HandOverLog(held, log, x, a, b);
    }
    assert Tied(Tied(tie, b, Some(x)), a, None) == Tied(Tied(tie, a, None), b, Some(x));
    var held' := Traded(held, a, Some(x), b, None);
    assert held' == held[x := held[x] - {a} + {b}];
  }

  /** Two handles trading places keep the ledger consistent, every object
      keeps its number of handles, and nobody's fate in the log changes. */
  lemma TradeLedger(held: map<Id, set<object>>, tie: map<object, Id>, log: seq<Id>,
                    a: object, x: Option<Id>, b: object, y: Option<Id>)
    requires Ledger(held, tie) && Lookup(tie, a) == x && Lookup(tie, b) == y
    ensures Ledger(Traded(held, a, x, b, y), Retied(tie, a, x, b, y))
    ensures SameCounts(held, Traded(held, a, x, b, y))
    ensures DestroyLog(held, log, None) ==> DestroyLog(Traded(held, a, x, b, y), log, None)
  {
    if x == y {
      TradeAlike(held, tie, a, b, x);
    } else if x.Some? && y.Some? {
      TradeApart(held, tie, log, a, x.value, b, y.value);
    } else if x.Some? {
      TradeOne(held, tie, log, a, x.value, b);
    } else {
      TradeOne(held, tie, log, b, y.value, a);
    }
  }

  /** One `control_block`: a strong and a weak counter for one managed object.
      The block never sees the object or the handles; its ghost fields record,
      for the proofs, which object it counts for and whether it has run
      `delete this`. */
  class ControlBlock {
    var strong: nat
    var weak: nat
    /** Set when the block runs `delete this`; nothing may touch it afterwards. */
    ghost var freed: bool
    /** The managed object whose references this block counts. */
    ghost const obj: Id

    /** A fresh block starts with one strong reference and no weak one. */
    constructor (ghost p: Id)
      ensures obj == p && strong == 1 && weak == 0 && !freed
    {
      strong, weak := 1, 0;
      obj := p;
      freed := false;
    }

    function GetRefs(): (n: nat)
      reads this
      ensures n == strong
    {
      strong
    }

    /** `get_weak_refs()` as written: it reports the strong counter, not the weak one. */
    function GetWeakRefs(): (n: nat)
      reads this
      ensures n == strong
    {
      strong
    }

    /** The weak count, as `get_weak_refs` is evidently meant to report it. */
    function WeakRefs(): (n: nat)
      reads this
      ensures n == weak
    {
      weak
    }

    /** Whenever the two counters differ, `get_weak_refs` misreports the weak
        count; a fresh block (one strong reference, no weak one) already
        reports one weak reference. */
    lemma GetWeakRefsMisreports()
      requires strong != weak
      ensures GetWeakRefs() != WeakRefs()
    {
    }

    /** One more strong reference, held by `h`. Only a holder of a strong
        reference, or a weak handle that has just seen the object alive,
        asks for one, so the count is positive. */
    method AddRef(ghost h: object, ghost heap: Heap)
      requires heap.Valid() && heap.Holds(this) && strong > 0 && h !in heap.owner
      modifies this, heap
      ensures heap.Valid() && strong == old(strong) + 1 && weak == old(weak) && !freed
      ensures heap.owner == Tied(old(heap.owner), h, Some(obj))
      ensures heap.holders == Added(old(heap.holders), h, Some(obj))
      ensures heap.blockOf == old(heap.blockOf)
      ensures heap.watchers == old(heap.watchers) && heap.observer == old(heap.observer)
    {
      heap.Tally(this, None);
      JoinLedger(heap.holders, heap.owner, obj, h);
      JoinLog(heap.holders, heap.deleter.destroyed, obj, h);
      strong := strong + 1;
      heap.holders := Added(heap.holders, h, Some(obj));
      heap.owner := Tied(heap.owner, h, Some(obj));
      forall y
        ensures heap.Counted(y)
      {
        assert old(heap.Counted(y));
      }
    }

    /** Drops the strong reference of `h` and returns the new strong count; the
        block frees itself exactly when that count is 0 and no weak one is left.
        When the count drops to 0 the object is left pending destruction. */
    method RemoveRef(ghost h: object, ghost heap: Heap) returns (n: nat)
      requires heap.Valid() && heap.Holds(this) && h in heap.owner && heap.owner[h] == obj
      modifies this, heap
      ensures heap.Consistent(if n == 0 then Some(obj) else None)
      ensures strong == old(strong) - 1 && n == strong && weak == old(weak)
      ensures freed <==> n == 0 && weak == 0
      ensures heap.owner == old(heap.owner) - {h}
      ensures heap.holders == Dropped(old(heap.holders), h, Some(obj))
      ensures heap.blockOf == old(heap.blockOf)
      ensures heap.watchers == old(heap.watchers) && heap.observer == old(heap.observer)
    {
      heap.Tally(this, None);
      LeaveLedger(heap.holders, heap.owner, h);
      LeaveLog(heap.holders, heap.deleter.destroyed, obj, h);
      strong := strong - 1;
      heap.holders := Dropped(heap.holders, h, Some(obj));
      heap.owner := heap.owner - {h};
      n := strong;
      if n == 0 && weak == 0 {
        freed := true;
      }
      forall y
        ensures heap.Counted(y)
      {
        assert old(heap.Counted(y));
      }
    }

    /** One more weak reference, held by `h`, on a block that has not freed itself. */
    method AddWeakRef(ghost h: object, ghost heap: Heap)
      requires heap.Valid() && heap.Holds(this) && !freed && h !in heap.observer
      modifies this, heap
      ensures heap.Valid() && weak == old(weak) + 1 && strong == old(strong) && !freed
      ensures heap.observer == Tied(old(heap.observer), h, Some(obj))
      ensures heap.watchers == Added(old(heap.watchers), h, Some(obj))
      ensures heap.blockOf == old(heap.blockOf)
      ensures heap.holders == old(heap.holders) && heap.owner == old(heap.owner)
    {
      heap.Tally(this, None);
      JoinLedger(heap.watchers, heap.observer, obj, h);
      weak := weak + 1;
      heap.watchers := Added(heap.watchers, h, Some(obj));
      heap.observer := Tied(heap.observer, h, Some(obj));
      forall y
        ensures heap.Counted(y)
      {
        assert old(heap.Counted(y));
      }
    }

    /** Drops the weak reference of `h`; the block frees itself exactly when the
        new weak count is 0 and the strong count is 0 as well. */
    method RemoveWeakRef(ghost h: object, ghost heap: Heap)
      requires heap.Valid() && heap.Holds(this) && h in heap.observer && heap.observer[h] == obj
      modifies this, heap
      ensures heap.Valid() && weak == old(weak) - 1 && strong == old(strong)
      ensures freed <==> weak == 0 && strong == 0
      ensures heap.observer == old(heap.observer) - {h}
      ensures heap.watchers == Dropped(old(heap.watchers), h, Some(obj))
      ensures heap.blockOf == old(heap.blockOf)
      ensures heap.holders == old(heap.holders) && heap.owner == old(heap.owner)
    {
      heap.Tally(this, None);
      LeaveLedger(heap.watchers, heap.observer, h);
      weak := weak - 1;
      heap.watchers := Dropped(heap.watchers, h, Some(obj));
      heap.observer := heap.observer - {h};
      if weak == 0 && strong == 0 {
        freed := true;
      }
      forall y
        ensures heap.Counted(y)
      {
        assert old(heap.Counted(y));
      }
    }
  }

  /** Ghost ledger of the free store as the shared and weak handles see it:
      the control block of every object handed to shared ownership so far,
      which handles are counted for which object, and the deleter that
      destroys the managed objects. */
  class Heap {
    const deleter: Deleter
    /** The block allocated for each object; an object never gets a second one. */
    ghost var blockOf: map<Id, ControlBlock>
    /** The shared handles counted in the strong count of each object's block. */
    ghost var holders: map<Id, set<object>>
    /** The weak handles counted in the weak count of each object's block. */
    ghost var watchers: map<Id, set<object>>
    /** The object each live shared handle is counted for. */
    ghost var owner: map<object, Id>
    /** The object each live weak handle is counted for. */
    ghost var observer: map<object, Id>

    /** The block of `x`, if `x` has one, counts for `x`; its strong count is
        the number of shared handles counted for `x` and its weak count the
        number of weak ones; it has freed itself iff both are 0. */
    ghost predicate Counted(x: Id)
      reads this, if x in blockOf then {blockOf[x]} else {}
    {
      x in blockOf ==>
        var b := blockOf[x];
        && b.obj == x && x in holders && x in watchers
        && b.strong == |holders[x]| && b.weak == |watchers[x]|
        && (b.freed <==> b.strong == 0 && b.weak == 0)
    }

    /** The ledger is consistent and every block's counters agree with it,
        except that `pending` may be awaiting its destruction. */
    ghost predicate Consistent(pending: Option<Id>)
      reads this, deleter, blockOf.Values
    {
      && Ledger(holders, owner) && Ledger(watchers, observer)
      && DestroyLog(holders, deleter.destroyed, pending)
      && (forall x :: Counted(x))
    }

    /** The global invariant: every shared and weak handle is counted for
        exactly one object, and every block's counters say how many; an
        object has been destroyed iff no shared handle is counted for it; no
        object is destroyed twice. */
    ghost predicate Valid()
      reads this, deleter, blockOf.Values
    {
      Consistent(None)
    }

    /** `b` is the block of its object. */
    ghost predicate Holds(b: ControlBlock)
      reads this
    {
      b.obj in blockOf && blockOf[b.obj] == b
    }

    /** `x` has never been handed to shared ownership. */
    ghost predicate Unclaimed(x: Id)
      reads this
    {
      x !in blockOf && x !in holders && x !in watchers
    }

    /** The counters of a block of the ledger. */
    lemma Tally(b: ControlBlock, pending: Option<Id>)
      requires Consistent(pending) && Holds(b)
      ensures b.obj in holders && b.obj in watchers
      ensures b.strong == |holders[b.obj]| && b.weak == |watchers[b.obj]|
      ensures b.freed <==> b.strong == 0 && b.weak == 0
    {
      assert Counted(b.obj);
    }

    /** Records the fresh block `b` of an unclaimed object, with `h` as its one owner. */
    ghost method Register(b: ControlBlock, h: object)
      requires Valid() && Unclaimed(b.obj) && h !in owner
      requires b.strong == 1 && b.weak == 0 && !b.freed
      modifies this
      ensures Valid() && Holds(b)
      ensures blockOf == old(blockOf)[b.obj := b]
      ensures holders == old(holders)[b.obj := {h}] && owner == old(owner)[h := b.obj]
      ensures watchers == old(watchers)[b.obj := {}] && observer == old(observer)
    {
      OpenLedger(holders, owner, b.obj);
      JoinLedger(holders[b.obj := {}], owner, b.obj, h);
      OpenLedger(watchers, observer, b.obj);
      OpenLog(holders, deleter.destroyed, b.obj, h);
      assert Added(holders[b.obj := {}], h, Some(b.obj)) == holders[b.obj := {h}];
      assert Tied(owner, h, Some(b.obj)) == owner[h := b.obj];
      blockOf := blockOf[b.obj := b];
      holders := holders[b.obj := {h}];
      owner := owner[h := b.obj];
      watchers := watchers[b.obj := {}];
      forall y
        ensures Counted(y)
      {
        assert old(Counted(y));
      }
    }

    /** The strong reference counted for `from`, on object `x`, is now counted
        for `to`; no counter changes. */
    ghost method HandOverOwner(x: Id, from: object, to: object)
      requires Valid() && from in owner && owner[from] == x && to !in owner
      modifies this
      ensures Valid() && Lookup(owner, from) == None && Lookup(owner, to) == Some(x)
      ensures owner == Tied(old(owner) - {from}, to, Some(x))
      ensures holders == Added(Dropped(old(holders), from, Some(x)), to, Some(x))
      ensures blockOf == old(blockOf) && watchers == old(watchers) && observer == old(observer)
    {
      HandOverLedger(holders, owner, from, to);
      HandOverLog(holders, deleter.destroyed, x, from, to);
      holders := Added(Dropped(holders, from, Some(x)), to, Some(x));
      owner := Tied(owner - {from}, to, Some(x));
      forall y
        ensures Counted(y)
      {
        assert old(Counted(y));
      }
    }

    /** The weak reference counted for `from`, on object `x`, is now counted
        for `to`; no counter changes. */
    ghost method HandOverObserver(x: Id, from: object, to: object)
      requires Valid() && from in observer && observer[from] == x && to !in observer
      modifies this
      ensures Valid() && Lookup(observer, from) == None && Lookup(observer, to) == Some(x)
      ensures observer == Tied(old(observer) - {from}, to, Some(x))
      ensures watchers == Added(Dropped(old(watchers), from, Some(x)), to, Some(x))
      ensures blockOf == old(blockOf) && holders == old(holders) && owner == old(owner)
    {
      HandOverLedger(watchers, observer, from, to);
      watchers := Added(Dropped(watchers, from, Some(x)), to, Some(x));
      observer := Tied(observer - {from}, to, Some(x));
      forall y
        ensures Counted(y)
      {
        assert old(Counted(y));
      }
    }

    /** Shared handles `a` (counted for `x`) and `b` (counted for `y`) trade
        their strong references; no counter changes. */
    ghost method TradeOwners(a: object, x: Option<Id>, b: object, y: Option<Id>)
      requires Valid() && Lookup(owner, a) == x && Lookup(owner, b) == y
      modifies this
      ensures Valid() && Lookup(owner, a) == y && Lookup(owner, b) == x
      ensures holders == Traded(old(holders), a, x, b, y)
      ensures owner == Retied(old(owner), a, x, b, y)
      ensures blockOf == old(blockOf) && watchers == old(watchers) && observer == old(observer)
    {
      TradeLedger(holders, owner, deleter.destroyed, a, x, b, y);
      RetiedLookup(owner, a, x, b, y);
      holders := Traded(holders, a, x, b, y);
      owner := Retied(owner, a, x, b, y);
      forall z
        ensures Counted(z)
      {
        assert old(Counted(z));
      }
    }

    /** Weak handles `a` (counted for `x`) and `b` (counted for `y`) trade
        their weak references; no counter changes. */
    ghost method TradeObservers(a: object, x: Option<Id>, b: object, y: Option<Id>)
      requires Valid() && Lookup(observer, a) == x && Lookup(observer, b) == y
      modifies this
      ensures Valid() && Lookup(observer, a) == y && Lookup(observer, b) == x
      ensures watchers == Traded(old(watchers), a, x, b, y)
      ensures observer == Retied(old(observer), a, x, b, y)
      ensures blockOf == old(blockOf) && holders == old(holders) && owner == old(owner)
    {
      TradeLedger(watchers, observer, [], a, x, b, y);
      RetiedLookup(observer, a, x, b, y);
      watchers := Traded(watchers, a, x, b, y);
      observer := Retied(observer, a, x, b, y);
      forall z
        ensures Counted(z)
      {
        assert old(Counted(z));
      }
    }

    constructor ()
      ensures Valid() && fresh(deleter)
      ensures blockOf == map[] && holders == map[] && watchers == map[]
      ensures owner == map[] && observer == map[]
      ensures deleter.destroyed == []
    {
      deleter := new Deleter();
      blockOf, holders, watchers := map[], map[], map[];
      owner, observer := map[], map[];
    }
  }
}
