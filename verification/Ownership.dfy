/**
 What `RefCounted` and `Uniqued` do to a set of slots, as values: a slot is an object of either class
 between its construction and its destruction, and the log lists every reference taken over, retained
 and released, in order. `Uniqued` is the same without retaining; its releases free the resource.
 */
module Ownership {
  import opened Options

  datatype Effect<T> = Adopted(of: T) | Retained(of: T) | Released(of: T)

  /**
   Stands for the functions that retain and release (or free) an object, which are template arguments:
   it records their calls. References taken over, for which nothing is called, are recorded too.
   */
  class Ledger<T> {
    ghost var log: seq<Effect<T>>

    constructor ()
      ensures log == []
    {
      log := [];
    }

    method Record(ghost e: Effect<T>)
      modifies this
      ensures log == old(log) + [e]
    {
      log := log + [e];
    }
  }

  datatype Store<T> = Store(slots: map<nat, Option<T>>, log: seq<Effect<T>>)

  datatype Op<T> =
    | Default(slot: nat)
    | Adopt(slot: nat, of: T)             // constructed from a reference that the caller gives away
    | Share(slot: nat, of: T)             // constructed from a reference that the caller keeps
    | CopyConstruct(slot: nat, from: nat)
    | CopyAssign(slot: nat, from: nat)
    | MoveConstruct(slot: nat, from: nat)
    | MoveAssign(slot: nat, from: nat)
    | Reset(slot: nat)
    | Destroy(slot: nat)

  function RetainOf<T>(v: Option<T>): seq<Effect<T>> { if v.Some? then [Retained(v.value)] else [] }

  function ReleaseOf<T>(v: Option<T>): seq<Effect<T>> { if v.Some? then [Released(v.value)] else [] }

  /** Copy assignment retains the new object before it releases the old one. */
  function CopyEffects<T>(mine: Option<T>, theirs: Option<T>): seq<Effect<T>> {
    RetainOf(theirs) + ReleaseOf(mine)
  }

  /** Constructors need an unused slot, everything else an object that exists. */
  predicate Legal<T>(s: Store<T>, op: Op<T>) {
    match op
    case Default(i) => i !in s.slots
    case Adopt(i, _) => i !in s.slots
    case Share(i, _) => i !in s.slots
    case CopyConstruct(i, j) => i !in s.slots && j in s.slots
    case CopyAssign(i, j) => i in s.slots && j in s.slots
    case MoveConstruct(i, j) => i !in s.slots && j in s.slots
    case MoveAssign(i, j) => i in s.slots && j in s.slots
    case Reset(i) => i in s.slots
    case Destroy(i) => i in s.slots
  }

  /** `i` and `j` may be the same slot. */
  function Copy<T>(s: Store<T>, i: nat, j: nat): Store<T>
    requires i in s.slots && j in s.slots
  {
    Store(s.slots[i := s.slots[j]], s.log + CopyEffects(s.slots[i], s.slots[j]))
  }

  function Move<T>(s: Store<T>, i: nat, j: nat): Store<T>
    requires i in s.slots && j in s.slots
  {
    Store(s.slots[i := s.slots[j]][j := None], s.log + ReleaseOf(s.slots[i]))
  }

  function Step<T>(s: Store<T>, op: Op<T>): Store<T>
    requires Legal(s, op)
  {
    match op
    case Default(i) => Store(s.slots[i := None], s.log)
    case Adopt(i, t) => Store(s.slots[i := Some(t)], s.log + [Adopted(t)])
    case Share(i, t) => Store(s.slots[i := Some(t)], s.log + [Retained(t)])
    case CopyConstruct(i, j) => Copy(Store(s.slots[i := None], s.log), i, j)
    case CopyAssign(i, j) => Copy(s, i, j)
    case MoveConstruct(i, j) => Move(Store(s.slots[i := None], s.log), i, j)
    case MoveAssign(i, j) => Move(s, i, j)
    case Reset(i) => Store(s.slots[i := None], s.log + ReleaseOf(s.slots[i]))
    case Destroy(i) => Store(s.slots - {i}, s.log + ReleaseOf(s.slots[i]))
  }

  ghost predicate Runs<T>(s: Store<T>, ops: seq<Op<T>>, r: Store<T>)
    decreases |ops|
  {
    if ops == [] then s == r
    else Legal(s, ops[0]) && Runs(Step(s, ops[0]), ops[1..], r)
  }

  function Fresh<T>(): Store<T> { Store(map[], []) }

  function Count<T(==)>(log: seq<Effect<T>>, e: Effect<T>): nat { multiset(log)[e] }

  /** References to `t` owned by the slots, as the log has it. */
  function Balance<T(==)>(log: seq<Effect<T>>, t: T): int {
    Count(log, Adopted(t)) + Count(log, Retained(t)) - Count(log, Released(t))
  }

  function HolderSet<T(==)>(slots: map<nat, Option<T>>, t: T): set<nat> {
    set i | i in slots && slots[i] == Some(t)
  }

  /** Number of slots holding `t`. */
  function Holders<T(==)>(slots: map<nat, Option<T>>, t: T): nat { |HolderSet(slots, t)| }

  function One(b: bool): int { if b then 1 else 0 }

  lemma HoldersPut<T>(slots: map<nat, Option<T>>, i: nat, v: Option<T>, t: T)
    ensures Holders(slots[i := v], t)
            == Holders(slots, t) - One(i in slots && slots[i] == Some(t)) + One(v == Some(t))
  {
    var before, after := HolderSet(slots, t), HolderSet(slots[i := v], t);
    if v == Some(t) {
      assert after == before + {i};
    } else {
      assert after == before - {i};
    }
  }

  lemma HoldersDrop<T>(slots: map<nat, Option<T>>, i: nat, t: T)
    ensures Holders(slots - {i}, t) == Holders(slots, t) - One(i in slots && slots[i] == Some(t))
  {
    assert HolderSet(slots - {i}, t) == HolderSet(slots, t) - {i};
  }

  lemma BalanceOfMore<T>(log: seq<Effect<T>>, more: seq<Effect<T>>, t: T)
    ensures Balance(log + more, t) == Balance(log, t) + Balance(more, t)
  {
  }

  lemma BalanceOfEffects<T>(mine: Option<T>, theirs: Option<T>, t: T)
    ensures Balance(RetainOf(theirs), t) == One(theirs == Some(t))
    ensures Balance(ReleaseOf(mine), t) == -One(mine == Some(t))
  {
  }

  ghost predicate Balanced<T>(s: Store<T>, t: T) { Balance(s.log, t) == Holders(s.slots, t) }

  lemma CopyKeeps<T>(s: Store<T>, i: nat, j: nat, t: T)
    requires i in s.slots && j in s.slots
    requires Balanced(s, t)
    ensures Balanced(Copy(s, i, j), t)
  {
    var mine, theirs := s.slots[i], s.slots[j];
    HoldersPut(s.slots, i, theirs, t);
    BalanceOfMore(s.log, CopyEffects(mine, theirs), t);
    BalanceOfMore(RetainOf(theirs), ReleaseOf(mine), t);
    BalanceOfEffects(mine, theirs, t);
    hide Balance, Holders, RetainOf, ReleaseOf;
  }

  lemma MoveKeeps<T>(s: Store<T>, i: nat, j: nat, t: T)
    requires i in s.slots && j in s.slots
    requires Balanced(s, t)
    ensures Balanced(Move(s, i, j), t)
  {
    var mine, theirs := s.slots[i], s.slots[j];
    HoldersPut(s.slots, i, theirs, t);
    HoldersPut(s.slots[i := theirs], j, None, t);
    BalanceOfMore(s.log, ReleaseOf(mine), t);
    BalanceOfEffects(mine, theirs, t);
    hide Balance, Holders, RetainOf, ReleaseOf;
  }

  /** Every operation keeps the log in balance with the slots. */
  lemma StepKeeps<T>(s: Store<T>, op: Op<T>, t: T)
    requires Legal(s, op)
    requires Balanced(s, t)
    ensures Balanced(Step(s, op), t)
  {
    var i := op.slot;
    if op.CopyAssign? {
      CopyKeeps(s, i, op.from, t);
    } else if op.MoveAssign? {
      MoveKeeps(s, i, op.from, t);
    } else if op.Reset? || op.Destroy? {
      HoldersPut(s.slots, i, None, t);
      HoldersDrop(s.slots, i, t);
      BalanceOfMore(s.log, ReleaseOf(s.slots[i]), t);
      BalanceOfEffects(s.slots[i], None, t);
    } else {
      HoldersPut(s.slots, i, None, t);
      if op.CopyConstruct? {
        CopyKeeps(Store(s.slots[i := None], s.log), i, op.from, t);
      } else if op.MoveConstruct? {
        MoveKeeps(Store(s.slots[i := None], s.log), i, op.from, t);
      } else if op.Adopt? || op.Share? {
        HoldersPut(s.slots, i, Some(op.of), t);
      }
    }
  }

  lemma {:induction false} RunKeeps<T>(s: Store<T>, ops: seq<Op<T>>, r: Store<T>, t: T)
    requires Runs(s, ops, r)
    requires Balanced(s, t)
    ensures Balanced(r, t)
    decreases |ops|
  {
    if ops != [] {
      StepKeeps(s, ops[0], t);
      RunKeeps(Step(s, ops[0]), ops[1..], r, t);
    }
  }

  /**
   Over any run, references adopted and retained minus references released are exactly the slots that
   hold the object; once every slot is gone, everything has been given back.
   */
  lemma OwnershipConserved<T>(ops: seq<Op<T>>, r: Store<T>, t: T)
    requires Runs(Fresh(), ops, r)
    ensures Balance(r.log, t) == Holders(r.slots, t)
    ensures |r.slots| == 0 ==> Count(r.log, Released(t)) == Count(r.log, Adopted(t)) + Count(r.log, Retained(t))
  {
    var start: Store<T> := Fresh();
    assert HolderSet(start.slots, t) == {};
    RunKeeps(start, ops, r, t);
    if |r.slots| == 0 {
      assert HolderSet(r.slots, t) == {};
    }
  }

  /** Only a copy has a moment in between: the new object is retained, the old one not yet released. */
  lemma MiddleOfCopy<T>(s: Store<T>, op: Op<T>, k: nat)
    requires Legal(s, op)
    requires |s.log| < k < |Step(s, op).log|
    ensures op.CopyConstruct? || op.CopyAssign?
    ensures Step(s, op).log[..k] == s.log + RetainOf(s.slots[op.from])
  {
  }

  /**
   An object held by some slot before and after an operation keeps a reference all through it; nor does
   any object ever have fewer than none. Self-assignment is the case in point: a copy that released
   before it retained would fail here.
   */
  lemma HeldThroughout<T>(s: Store<T>, op: Op<T>, t: T, k: nat)
    requires Legal(s, op)
    requires Balanced(s, t)
    requires |s.log| <= k <= |Step(s, op).log|
    ensures Balance(Step(s, op).log[..k], t) >= 0
    ensures Holders(s.slots, t) > 0 && Holders(Step(s, op).slots, t) > 0 ==> Balance(Step(s, op).log[..k], t) > 0
  {
    StepKeeps(s, op, t);
    var r := Step(s, op);
    if k == |s.log| {
      assert r.log[..k] == s.log by { hide Balance, Holders; }
    } else if k == |r.log| {
      assert r.log[..k] == r.log;
    } else {
      MiddleOfCopy(s, op, k);
      var theirs := s.slots[op.from];
      BalanceOfMore(s.log, RetainOf(theirs), t);
      BalanceOfEffects(None, theirs, t);
      hide Balance, Step, RetainOf;
    }
  }

  // ----- Uniqued -----

  ghost predicate Unshared<T>(ops: seq<Op<T>>) {
    forall op <- ops :: !op.Share? && !op.CopyConstruct? && !op.CopyAssign?
  }

  lemma {:induction false} UnsharedRetainsNothing<T>(s: Store<T>, ops: seq<Op<T>>, r: Store<T>, t: T)
    requires Runs(s, ops, r) && Unshared(ops)
    ensures Count(r.log, Retained(t)) == Count(s.log, Retained(t))
    ensures Count(r.log, Released(t)) >= Count(s.log, Released(t))
    decreases |ops|
  {
    if ops != [] {
      var n := Step(s, ops[0]);
      assert !ops[0].Share? && !ops[0].CopyConstruct? && !ops[0].CopyAssign?;
      assert n.log == s.log + n.log[|s.log|..];
      UnsharedRetainsNothing(n, ops[1..], r, t);
    }
  }

  lemma {:induction false} RunsSplit<T>(s: Store<T>, first: seq<Op<T>>, m: Store<T>, rest: seq<Op<T>>, r: Store<T>)
    requires Runs(s, first, m) && Runs(m, rest, r)
    ensures Runs(s, first + rest, r)
    decreases |first|
  {
    if first == [] {
      assert first + rest == rest;
    } else {
      RunsSplit(Step(s, first[0]), first[1..], m, rest, r);
      assert (first + rest)[1..] == first[1..] + rest;
    }
  }

  /**
   A resource that is handed over once is freed at most once. From then on no slot holds it, however
   the run goes on; and while it has not been freed, exactly one slot does.
   */
  lemma FreedOnce<T>(first: seq<Op<T>>, m: Store<T>, rest: seq<Op<T>>, r: Store<T>, t: T)
    requires Runs(Fresh(), first, m) && Runs(m, rest, r)
    requires Unshared(first) && Unshared(rest)
    requires Count(r.log, Adopted(t)) == 1
    ensures Count(r.log, Released(t)) <= 1
    ensures Count(m.log, Released(t)) > 0 ==> Holders(r.slots, t) == 0
    ensures Count(r.log, Released(t)) == 0 <==> Holders(r.slots, t) == 1
  {
    var start: Store<T> := Fresh();
    RunsSplit(start, first, m, rest, r);
    OwnershipConserved(first + rest, r, t);
    UnsharedRetainsNothing(start, first, m, t);
    UnsharedRetainsNothing(m, rest, r, t);
  }
}
