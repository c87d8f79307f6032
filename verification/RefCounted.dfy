/**
 LIB/Toastbox/RefCounted.h: an optional reference that is retained when copied and released when
 dropped. Each method does to its two objects and the ledger what `Ownership.Step` does to two slots
 and the log; in the assignments `x` may be the object itself.
 */
module RefCounted {
  import opened Options
  import opened Ownership

  class RefCounted<T> {
    var held: Option<T>

    constructor ()
      ensures held == None
    {
      held := None;
    }

    /** From a reference given away by the caller. */
    constructor NoRetain(t: T, ledger: Ledger<T>)
      modifies ledger
      ensures held == Some(t)
      ensures ledger.log == old(ledger.log) + [Adopted(t)]
    {
      held := Some(t);
      new;
      ledger.Record(Adopted(t));
    }

    /** From a reference that the caller keeps. */
    constructor Retain(t: T, ledger: Ledger<T>)
      modifies ledger
      ensures held == Some(t)
      ensures ledger.log == old(ledger.log) + [Retained(t)]
    {
      held := Some(t);
      new;
      ledger.Record(Retained(t));
    }

    constructor Copy(x: RefCounted<T>, ledger: Ledger<T>)
      modifies ledger
      ensures held == old(x.held)
      ensures ledger.log == old(ledger.log) + CopyEffects(None, old(x.held))
    {
      held := None;
      new;
      CopyAssign(x, ledger);
    }

    constructor Move(x: RefCounted<T>, ledger: Ledger<T>)
      modifies x, ledger
      ensures held == old(x.held) && x.held == None
      ensures ledger.log == old(ledger.log)
    {
      held := None;
      new;
      MoveAssign(x, ledger);
    }

    method CopyAssign(x: RefCounted<T>, ledger: Ledger<T>)
      modifies this, ledger
      ensures held == old(x.held)
      ensures ledger.log == old(ledger.log) + CopyEffects(old(held), old(x.held))
    {
      if x.held.Some? { ledger.Record(Retained(x.held.value)); }
      if held.Some? { ledger.Record(Released(held.value)); }
      held := x.held;
    }

    /** Moving an object into itself leaves it empty. */
    method MoveAssign(x: RefCounted<T>, ledger: Ledger<T>)
      modifies this, x, ledger
      ensures x != this ==> held == old(x.held)
      ensures x.held == None
      ensures ledger.log == old(ledger.log) + ReleaseOf(old(held))
    {
      if held.Some? { ledger.Record(Released(held.value)); }
      held := x.held;
      x.held := None;
    }

    method Destroy(ledger: Ledger<T>)
      modifies ledger
      ensures ledger.log == old(ledger.log) + ReleaseOf(held)
    {
      if held.Some? { ledger.Record(Released(held.value)); }
    }

    method Reset(ledger: Ledger<T>)
      modifies this, ledger
      ensures held == None
      ensures ledger.log == old(ledger.log) + ReleaseOf(old(held))
    {
      if held.Some? {
        ledger.Record(Released(held.value));
        held := None;
      }
    }
  }

  /** Distinct objects hold what the slots of `s` hold. */
  ghost predicate Mirrors<T>(objects: map<nat, RefCounted<T>>, ledger: Ledger<T>, s: Store<T>)
    reads objects.Values, ledger
  {
    && objects.Keys == s.slots.Keys
    && (forall i, j :: i in objects && j in objects && i != j ==> objects[i] != objects[j])
    && (forall i :: i in objects ==> objects[i].held == s.slots[i])
    && ledger.log == s.log
  }

  /** The constructions: a new object under a new key. */
  method Construct<T>(objects: map<nat, RefCounted<T>>, ledger: Ledger<T>, op: Op<T>, ghost s: Store<T>)
    returns (after: map<nat, RefCounted<T>>)
    requires Mirrors(objects, ledger, s) && Legal(s, op)
    requires op.Default? || op.Adopt? || op.Share? || op.CopyConstruct? || op.MoveConstruct?
    modifies objects.Values, ledger
    ensures Mirrors(after, ledger, Step(s, op))
  {
    var x: RefCounted<T>;
    if op.Default? {
      x := new RefCounted<T>();
    } else if op.Adopt? {
      x := new RefCounted<T>.NoRetain(op.of, ledger);
    } else if op.Share? {
      x := new RefCounted<T>.Retain(op.of, ledger);
    } else if op.CopyConstruct? {
      x := new RefCounted<T>.Copy(objects[op.from], ledger);
    } else {
      x := new RefCounted<T>.Move(objects[op.from], ledger);
    }
    after := objects[op.slot := x];
  }

  /** The operations on objects that exist. */
  method Operate<T>(objects: map<nat, RefCounted<T>>, ledger: Ledger<T>, op: Op<T>, ghost s: Store<T>)
    returns (after: map<nat, RefCounted<T>>)
    requires Mirrors(objects, ledger, s) && Legal(s, op)
    requires op.CopyAssign? || op.MoveAssign? || op.Reset? || op.Destroy?
    modifies objects.Values, ledger
    ensures Mirrors(after, ledger, Step(s, op))
  {
    after := objects;
    var x := objects[op.slot];
    if op.CopyAssign? {
      x.CopyAssign(objects[op.from], ledger);
    } else if op.MoveAssign? {
      x.MoveAssign(objects[op.from], ledger);
    } else if op.Reset? {
      x.Reset(ledger);
    } else {
      x.Destroy(ledger);
      after := objects - {op.slot};
    }
  }
}
