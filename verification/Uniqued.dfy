/**
 LIB/Toastbox/Uniqued.h: an optional resource with a single owner, freed when the owner drops it. The
 methods do what `Ownership.Step` does for the operations that copy nothing.
 */
module Uniqued {
  import opened Options
  import opened Ownership

  class Uniqued<T> {
    var held: Option<T>

    constructor ()
      ensures held == None
    {
      held := None;
    }

    constructor Adopt(t: T, ledger: Ledger<T>)
      modifies ledger
      ensures held == Some(t)
      ensures ledger.log == old(ledger.log) + [Adopted(t)]
    {
      held := Some(t);
      new;
      ledger.Record(Adopted(t));
    }

    constructor Move(x: Uniqued<T>, ledger: Ledger<T>)
      modifies x, ledger
      ensures held == old(x.held) && x.held == None
      ensures ledger.log == old(ledger.log)
    {
      held := None;
      new;
      MoveAssign(x, ledger);
    }

    /** Moving an object into itself frees what it held. */
    method MoveAssign(x: Uniqued<T>, ledger: Ledger<T>)
      modifies this, x, ledger
      ensures x != this ==> held == old(x.held)
      ensures x.held == None
      ensures ledger.log == old(ledger.log) + ReleaseOf(old(held))
    {
      if held.Some? { ledger.Record(Released(held.value)); }
      held := x.held;
      x.held := None;
    }

    method Destroy(ledger: Ledger<T>)
      modifies ledger
      ensures ledger.log == old(ledger.log) + ReleaseOf(held)
    {
      if held.Some? { ledger.Record(Released(held.value)); }
    }

    method Reset(ledger: Ledger<T>)
      modifies this, ledger
      ensures held == None
      ensures ledger.log == old(ledger.log) + ReleaseOf(old(held))
    {
      if held.Some? {
        ledger.Record(Released(held.value));
        held := None;
      }
    }
  }

  /** Distinct objects hold what the slots of `s` hold. */
  ghost predicate Mirrors<T>(objects: map<nat, Uniqued<T>>, ledger: Ledger<T>, s: Store<T>)
    reads objects.Values, ledger
  {
    && objects.Keys == s.slots.Keys
    && (forall i, j :: i in objects && j in objects && i != j ==> objects[i] != objects[j])
    && (forall i :: i in objects ==> objects[i].held == s.slots[i])
    && ledger.log == s.log
  }

  /** The constructions: a new object under a new key. */
  method Construct<T>(objects: map<nat, Uniqued<T>>, ledger: Ledger<T>, op: Op<T>, ghost s: Store<T>)
    returns (after: map<nat, Uniqued<T>>)
    requires Mirrors(objects, ledger, s) && Legal(s, op)
    requires op.Default? || op.Adopt? || op.MoveConstruct?
    modifies objects.Values, ledger
    ensures Mirrors(after, ledger, Step(s, op))
  {
    var x: Uniqued<T>;
    if op.Default? {
      x := new Uniqued<T>();
    } else if op.Adopt? {
      x := new Uniqued<T>.Adopt(op.of, ledger);
    } else {
      x := new Uniqued<T>.Move(objects[op.from], ledger);
    }
    after := objects[op.slot := x];
  }

  /** The operations on objects that exist. */
  method Operate<T>(objects: map<nat, Uniqued<T>>, ledger: Ledger<T>, op: Op<T>, ghost s: Store<T>)
    returns (after: map<nat, Uniqued<T>>)
    requires Mirrors(objects, ledger, s) && Legal(s, op)
    requires op.MoveAssign? || op.Reset? || op.Destroy?
    modifies objects.Values, ledger
    ensures Mirrors(after, ledger, Step(s, op))
  {
    after := objects;
    var x := objects[op.slot];
    if op.MoveAssign? {
      x.MoveAssign(objects[op.from], ledger);
    } else if op.Reset? {
      x.Reset(ledger);
    } else {
      x.Destroy(ledger);
      after := objects - {op.slot};
    }
  }
}
