/**
 The life of one endpoint's IN side, apart from the rest of the device: what was submitted to it and
 written to it, what was answered, cancelled, and is still waiting. `Inv` holds after every operation;
 the lemmas below it say what follows for the commands and bytes of the endpoint.
 */
module Lanes {
  import opened Endian
  import opened UsbIp
  import opened Engine
  import opened Pipes

  datatype Lane = Lane(
    pipe: Pipe,
    submitted: seq<InCmd>,     // handled commands that park here
    cancelled: seq<InCmd>,     // those removed by an unlink
    writes: seq<seq<Byte>>,    // what was passed to `write` for this endpoint
    answers: seq<Entry>)       // replies to commands parked here

  /** The same commands, without the knowledge that they are IN submits. */
  function Plain(cs: seq<InCmd>): seq<Cmd> { cs }

  function Concat(ws: seq<seq<Byte>>): seq<Byte> {
    if ws == [] then [] else Concat(ws[..|ws| - 1]) + ws[|ws| - 1]
  }

  function Chunks(ws: seq<seq<Byte>>): (ds: seq<Data>)
    ensures |ds| == |ws|
  {
    seq(|ws|, i requires 0 <= i < |ws| => Chunk(ws[i], 0))
  }

  // ----- operations -----

  function Settle(l: Lane): Lane {
    var d := Drain(l.pipe);
    l.(pipe := d.pipe, answers := l.answers + d.entries)
  }

  function ParkOn(l: Lane, c: InCmd): Lane {
    Settle(l.(pipe := Join(l.pipe, [c], []), submitted := l.submitted + [c]))
  }

  function WriteTo(l: Lane, bytes: seq<Byte>): Lane {
    Settle(l.(pipe := Join(l.pipe, [], [Chunk(bytes, 0)]), writes := l.writes + [bytes]))
  }

  function CancelOn(l: Lane, k: nat): Lane
    requires k < |l.pipe.cmds|
  {
    l.(pipe := l.pipe.(cmds := RemoveAt(l.pipe.cmds, k)), cancelled := l.cancelled + [l.pipe.cmds[k]])
  }

  // ----- what holds between operations -----

  /** The bytes answered so far, then the bytes still queued, are the bytes written. */
  ghost predicate Conserved(l: Lane) {
    Payloads(l.answers) + Unsent(l.pipe.data) == Concat(l.writes)
  }

  /** Every submitted command was answered, is waiting, or was cancelled, each as often as it was submitted. */
  ghost predicate Accounted(l: Lane) {
    var answered, waiting: seq<Cmd> := Commands(l.answers), l.pipe.cmds;
    multiset(Plain(l.submitted)) == multiset(answered) + multiset(waiting) + multiset(Plain(l.cancelled))
  }

  /** Without cancellations, the state is that of queueing everything first and matching once. */
  ghost predicate Confluent(l: Lane) {
    l.cancelled == [] ==> Drain(Pipe(l.submitted, Chunks(l.writes))) == Drained(l.pipe, l.answers)
  }

  ghost predicate DistinctSeqnums(cs: seq<Cmd>) {
    forall i, j :: 0 <= i < j < |cs| ==> cs[i].base.seqnum != cs[j].base.seqnum
  }

  predicate HasSeqnum(cs: seq<Cmd>, q: bv32) {
    exists i :: 0 <= i < |cs| && cs[i].base.seqnum == q
  }

  /** The commands whose sequence number is not among those cancelled. */
  function Kept(cs: seq<Cmd>, cancelled: seq<Cmd>): seq<Cmd> {
    if cs == [] then []
    else
      var c := cs[|cs| - 1];
      Kept(cs[..|cs| - 1], cancelled) + if HasSeqnum(cancelled, c.base.seqnum) then [] else [c]
  }

  /** Commands that are not cancelled are answered in the order of their submission; the rest wait in that order. */
  ghost predicate Ordered(l: Lane) {
    DistinctSeqnums(l.submitted) ==> Kept(l.submitted, l.cancelled) == Commands(l.answers) + l.pipe.cmds
  }

  ghost predicate FromWrites(payload: seq<Byte>, ws: seq<seq<Byte>>) {
    exists w :: w in ws && SliceOf(payload, w)
  }

  /** Every answer carries bytes of a single write, and so does every item still queued. */
  ghost predicate Unmixed(l: Lane) {
    Drawn(l.pipe.data, l.writes) && forall e :: e in l.answers ==> FromWrites(Payload(e.rep), l.writes)
  }

  ghost predicate Unmatched(l: Lane) {
    Conserved(l) && Accounted(l) && Ordered(l) && Unmixed(l) && OffsetsOk(l.pipe.data)
  }

  ghost predicate Inv(l: Lane) {
    Unmatched(l) && Idle(l.pipe) && Confluent(l)
  }

  // ----- every operation keeps it -----

  lemma ConservedAfterSettle(l: Lane)
    requires Conserved(l)
    ensures Conserved(Settle(l))
  {
    hide Drain;
    DrainConserves(l.pipe);
    PayloadsAppend(l.answers, Drain(l.pipe).entries);
  }

  lemma CommandsAppend(a: seq<Entry>, b: seq<Entry>)
    ensures Commands(a + b) == Commands(a) + Commands(b)
  {
  }

  lemma AccountedAfterSettle(l: Lane)
    requires Accounted(l)
    ensures Accounted(Settle(l))
  {
    hide Drain;
    var d := Drain(l.pipe);
    DrainOrder(l.pipe);
    CommandsAppend(l.answers, d.entries);
    var waiting: seq<Cmd> := l.pipe.cmds;
    assert waiting == Commands(d.entries) + d.pipe.cmds;
  }

  lemma OrderedAfterSettle(l: Lane)
    requires Ordered(l)
    ensures Ordered(Settle(l))
  {
    hide Drain, DistinctSeqnums, Kept;
    var d := Drain(l.pipe);
    DrainOrder(l.pipe);
    CommandsAppend(l.answers, d.entries);
    assert Commands(l.answers) + (Commands(d.entries) + d.pipe.cmds)
        == Commands(l.answers) + Commands(d.entries) + d.pipe.cmds;
  }

  lemma UnmixedAfterSettle(l: Lane)
    requires Unmixed(l)
    ensures Unmixed(Settle(l))
  {
    hide Drain, Drawn, Payload, SliceOf;
    var d := Drain(l.pipe);
    DrainDrawn(l.pipe, l.writes);
    NoMixing(l.pipe);
    forall e | e in d.entries ensures FromWrites(Payload(e.rep), l.writes) {
      FromOneOfThem(Payload(e.rep), l.pipe.data, l.writes);
    }
  }

  lemma FromOneOfThem(payload: seq<Byte>, ds: seq<Data>, ws: seq<seq<Byte>>)
    requires Drawn(ds, ws) && FromOneWrite(payload, ds)
    ensures FromWrites(payload, ws)
  {
    hide SliceOf;
    var i :| 0 <= i < |ds| && SliceOf(payload, ds[i].bytes);
    assert ds[i].bytes in ws;
  }

  lemma UnmixedWithMore(l: Lane, q: Lane, bytes: seq<Byte>)
    requires Unmixed(l) && q.answers == l.answers
    requires q.pipe.data == l.pipe.data + [Chunk(bytes, 0)] && q.writes == l.writes + [bytes]
    ensures Unmixed(q)
  {
    hide Payload, SliceOf;
    assert forall w :: w in l.writes ==> w in q.writes;
    forall e | e in q.answers ensures FromWrites(Payload(e.rep), q.writes) {
      var w :| w in l.writes && SliceOf(Payload(e.rep), w);
      assert w in q.writes;
    }
    forall k | 0 <= k < |q.pipe.data| ensures q.pipe.data[k].bytes in q.writes {
      if k == |l.pipe.data| {
        assert q.writes[|l.writes|] == bytes;
      }
    }
  }

  lemma UnmatchedAfterSettle(l: Lane)
    requires Unmatched(l)
    ensures Unmatched(Settle(l)) && Idle(Settle(l).pipe)
  {
    hide Conserved, Accounted, Ordered, Unmixed;
    UnmixedAfterSettle(l);
    ConservedAfterSettle(l);
    AccountedAfterSettle(l);
    OrderedAfterSettle(l);
    DrainStops(l.pipe);
  }

  /** Queueing more and matching again amounts to having queued it all before. */
  lemma ConfluentAfter(l: Lane, cs: seq<InCmd>, ws: seq<seq<Byte>>)
    requires Confluent(l)
    ensures Confluent(Settle(l.(pipe := Join(l.pipe, cs, Chunks(ws)), submitted := l.submitted + cs,
                                writes := l.writes + ws)))
  {
    hide Drain;
    var all := Pipe(l.submitted, Chunks(l.writes));
    DrainEarly(all, cs, Chunks(ws));
    assert Join(all, cs, Chunks(ws)) == Pipe(l.submitted + cs, Chunks(l.writes + ws));
  }

  lemma {:induction false} NotCancelledYet(l: Lane, c: InCmd)
    requires Accounted(l) && DistinctSeqnums(l.submitted + [c])
    ensures !HasSeqnum(l.cancelled, c.base.seqnum)
  {
    forall k | 0 <= k < |l.cancelled| ensures l.cancelled[k].base.seqnum != c.base.seqnum {
      var x: Cmd := l.cancelled[k];
      assert x in Plain(l.cancelled);
      assert multiset(Plain(l.submitted))[x] > 0;
      assert x in Plain(l.submitted);
      var i :| 0 <= i < |l.submitted| && l.submitted[i] == x;
      assert (l.submitted + [c])[i] == x && (l.submitted + [c])[|l.submitted|] == c;
    }
  }

  lemma DistinctPrefix(cs: seq<Cmd>, c: Cmd)
    requires DistinctSeqnums(cs + [c])
    ensures DistinctSeqnums(cs)
  {
    forall i, j | 0 <= i < j < |cs| ensures cs[i].base.seqnum != cs[j].base.seqnum {
      assert (cs + [c])[i] == cs[i] && (cs + [c])[j] == cs[j];
    }
  }

  lemma OrderedAfterPark(l: Lane, c: InCmd)
    requires Ordered(l) && Accounted(l)
    ensures Ordered(l.(pipe := Join(l.pipe, [c], []), submitted := l.submitted + [c]))
  {
    hide Accounted, DistinctSeqnums, HasSeqnum;
    if DistinctSeqnums(l.submitted + [c]) {
      DistinctPrefix(l.submitted, c);
      NotCancelledYet(l, c);
      assert (l.submitted + [c])[..|l.submitted|] == l.submitted;
      assert Kept(l.submitted + [c], l.cancelled) == Kept(l.submitted, l.cancelled) + [c];
    }
  }

  lemma AccountedAfterPark(l: Lane, c: InCmd)
    requires Accounted(l)
    ensures Accounted(l.(pipe := Join(l.pipe, [c], []), submitted := l.submitted + [c]))
  {
    assert Plain(l.submitted + [c]) == Plain(l.submitted) + [c];
  }

  lemma ParkKeeps(l: Lane, c: InCmd)
    requires Inv(l)
    ensures Inv(ParkOn(l, c))
  {
    hide Conserved, Accounted, Confluent, Ordered, Unmixed, Drain;
    var q := l.(pipe := Join(l.pipe, [c], []), submitted := l.submitted + [c]);
    assert Join(l.pipe, [c], []).data == l.pipe.data;
    assert Conserved(q) && Unmixed(q) by { SameBytes(l, q); }
    OrderedAfterPark(l, c);
    AccountedAfterPark(l, c);
    UnmatchedAfterSettle(q);
    ConfluentAfter(l, [c], []);
    assert Chunks([]) == [] && l.writes + [] == l.writes;
  }

  lemma SameBytes(l: Lane, q: Lane)
    requires Conserved(l) && Unmixed(l)
    requires q.answers == l.answers && q.pipe.data == l.pipe.data && q.writes == l.writes
    ensures Conserved(q) && Unmixed(q)
  {
  }

  lemma ConservedAfterWrite(l: Lane, bytes: seq<Byte>)
    requires Conserved(l)
    ensures Conserved(l.(pipe := Join(l.pipe, [], [Chunk(bytes, 0)]), writes := l.writes + [bytes]))
  {
    UnsentAppend(l.pipe.data, [Chunk(bytes, 0)]);
    assert Unsent([Chunk(bytes, 0)]) == bytes;
    assert (l.writes + [bytes])[..|l.writes|] == l.writes;
    assert Payloads(l.answers) + (Unsent(l.pipe.data) + bytes) == Payloads(l.answers) + Unsent(l.pipe.data) + bytes;
  }

  lemma WriteKeeps(l: Lane, bytes: seq<Byte>)
    requires Inv(l)
    ensures Inv(WriteTo(l, bytes))
  {
    hide Confluent, Conserved, Accounted, Ordered, Unmixed;
    var q := l.(pipe := Join(l.pipe, [], [Chunk(bytes, 0)]), writes := l.writes + [bytes]);
    UnmixedWithMore(l, q, bytes);
    assert q.pipe.cmds == l.pipe.cmds;
    ConservedAfterWrite(l, bytes);
    assert Accounted(q) by { SameAccount(l, q); }
    assert Ordered(q) by { SameOrder(l, q); }
    UnmatchedAfterSettle(q);
    ConfluentAfter(l, [], [bytes]);
    assert Chunks([bytes]) == [Chunk(bytes, 0)] && l.submitted + [] == l.submitted;
  }

  lemma SameAccount(l: Lane, q: Lane)
    requires Accounted(l) && q.answers == l.answers && q.pipe.cmds == l.pipe.cmds
    requires q.submitted == l.submitted && q.cancelled == l.cancelled
    ensures Accounted(q)
  {
  }

  lemma SameOrder(l: Lane, q: Lane)
    requires Ordered(l) && q.answers == l.answers && q.pipe.cmds == l.pipe.cmds
    requires q.submitted == l.submitted && q.cancelled == l.cancelled
    ensures Ordered(q)
  {
  }

  lemma {:induction false} KeptMore(cs: seq<Cmd>, cancelled: seq<Cmd>, x: Cmd)
    ensures Kept(cs, cancelled + [x]) == Kept(Kept(cs, cancelled), [x])
  {
    if cs != [] {
      var c := cs[|cs| - 1];
      var front := Kept(cs[..|cs| - 1], cancelled);
      KeptMore(cs[..|cs| - 1], cancelled, x);
      HasSeqnumAppend(cancelled, x, c.base.seqnum);
      if !HasSeqnum(cancelled, c.base.seqnum) {
        assert (front + [c])[..|front|] == front;
      } else {
        assert front + [] == front;
      }
    }
  }

  lemma HasSeqnumAppend(cs: seq<Cmd>, x: Cmd, q: bv32)
    ensures HasSeqnum(cs + [x], q) <==> HasSeqnum(cs, q) || x.base.seqnum == q
    ensures HasSeqnum([x], q) <==> x.base.seqnum == q
  {
    assert (cs + [x])[|cs|] == x;
    assert [x][0] == x;
    if HasSeqnum(cs, q) {
      var i :| 0 <= i < |cs| && cs[i].base.seqnum == q;
      assert (cs + [x])[i] == cs[i];
    }
  }

  /** A command is removed by its sequence number alone when no other command has it. */
  lemma {:induction false} KeptWithout(cs: seq<Cmd>, k: nat)
    requires k < |cs| && DistinctSeqnums(cs)
    ensures Kept(cs, [cs[k]]) == RemoveAt(cs, k)
  {
    hide HasSeqnum, DistinctSeqnums;
    var n := |cs| - 1;
    DistinctInitial(cs);
    LastIsNew(cs);
    HasSeqnumAppend([], cs[k], cs[n].base.seqnum);
    if k == n {
      KeptAll(cs[..n], cs[n]);
      assert RemoveAt(cs, n) == cs[..n] + [];
    } else {
      KeptWithout(cs[..n], k);
      assert RemoveAt(cs[..n], k) + [cs[n]] == RemoveAt(cs, k);
    }
  }

  lemma LastIsNew(cs: seq<Cmd>)
    requires cs != [] && DistinctSeqnums(cs)
    ensures !HasSeqnum(cs[..|cs| - 1], cs[|cs| - 1].base.seqnum)
    ensures forall k :: 0 <= k < |cs| - 1 ==> cs[k].base.seqnum != cs[|cs| - 1].base.seqnum
  {
  }

  lemma DistinctInitial(cs: seq<Cmd>)
    requires cs != [] && DistinctSeqnums(cs)
    ensures DistinctSeqnums(cs[..|cs| - 1])
  {
  }

  lemma HasSeqnumInitial(cs: seq<Cmd>, q: bv32)
    requires cs != [] && !HasSeqnum(cs, q)
    ensures !HasSeqnum(cs[..|cs| - 1], q) && cs[|cs| - 1].base.seqnum != q
  {
    var front := cs[..|cs| - 1];
    forall i | 0 <= i < |front| ensures front[i].base.seqnum != q {
      assert front[i] == cs[i];
    }
  }

  lemma {:induction false} KeptAll(cs: seq<Cmd>, x: Cmd)
    requires !HasSeqnum(cs, x.base.seqnum)
    ensures Kept(cs, [x]) == cs
  {
    hide HasSeqnum;
    if cs != [] {
      var n := |cs| - 1;
      HasSeqnumInitial(cs, x.base.seqnum);
      KeptAll(cs[..n], x);
      HasSeqnumAppend([], x, cs[n].base.seqnum);
      assert cs[..n] + [cs[n]] == cs;
    }
  }

  lemma {:induction false} KeptDistinct(cs: seq<Cmd>, cancelled: seq<Cmd>)
    requires DistinctSeqnums(cs)
    ensures DistinctSeqnums(Kept(cs, cancelled))
    ensures forall c :: c in Kept(cs, cancelled) ==> c in cs && !HasSeqnum(cancelled, c.base.seqnum)
    ensures forall c :: c in cs && !HasSeqnum(cancelled, c.base.seqnum) ==> c in Kept(cs, cancelled)
  {
    if cs != [] {
      var n := |cs| - 1;
      DistinctInitial(cs);
      KeptDistinct(cs[..n], cancelled);
      var front := Kept(cs[..n], cancelled);
      forall i | 0 <= i < |front| ensures front[i].base.seqnum != cs[n].base.seqnum {
        assert front[i] in cs[..n];
      }
      assert cs == cs[..n] + [cs[n]];
    }
  }

  lemma OrderedAfterCancel(l: Lane, k: nat)
    requires k < |l.pipe.cmds| && Ordered(l)
    ensures Ordered(CancelOn(l, k))
  {
    hide DistinctSeqnums, Kept;
    if DistinctSeqnums(l.submitted) {
      var answered, waiting: seq<Cmd> := Commands(l.answers), l.pipe.cmds;
      var all := answered + waiting;
      var j := |answered| + k;
      KeptDistinct(l.submitted, l.cancelled);
      KeptMore(l.submitted, l.cancelled, waiting[k]);
      assert all[j] == waiting[k];
      KeptWithout(all, j);
      assert RemoveAt(all, j) == answered + RemoveAt(waiting, k);
    }
  }

  lemma MultisetRemoveAt(cs: seq<Cmd>, k: nat)
    requires k < |cs|
    ensures multiset(RemoveAt(cs, k)) + multiset{cs[k]} == multiset(cs)
  {
    assert cs == cs[..k] + [cs[k]] + cs[k + 1..];
  }

  lemma AccountedAfterCancel(l: Lane, k: nat)
    requires k < |l.pipe.cmds| && Accounted(l)
    ensures Accounted(CancelOn(l, k))
  {
    var waiting: seq<Cmd> := l.pipe.cmds;
    MultisetRemoveAt(waiting, k);
    assert Plain(l.cancelled + [l.pipe.cmds[k]]) == Plain(l.cancelled) + [waiting[k]];
    assert RemoveAt(waiting, k) == Plain(RemoveAt(l.pipe.cmds, k));
  }

  lemma CancelKeeps(l: Lane, k: nat)
    requires Inv(l) && k < |l.pipe.cmds|
    ensures Inv(CancelOn(l, k))
  {
    hide Accounted, Ordered, Unmixed, Conserved;
    OrderedAfterCancel(l, k);
    AccountedAfterCancel(l, k);
    SameBytes(l, CancelOn(l, k));
  }

  // ----- what it means -----

  /** A command waits only once all bytes written to the endpoint have been sent. */
  lemma WaitingMeansAllSent(l: Lane)
    requires Inv(l) && l.pipe.cmds != []
    ensures Payloads(l.answers) == Concat(l.writes)
  {
    assert Payloads(l.answers) + [] == Payloads(l.answers);
  }

  /** Replies and leftovers depend only on the order of commands and on the order of writes. */
  lemma OrderDecides(l: Lane, m: Lane)
    requires Inv(l) && Inv(m)
    requires l.cancelled == m.cancelled == []
    requires l.submitted == m.submitted && l.writes == m.writes
    ensures l.pipe == m.pipe && l.answers == m.answers
  {
    hide Unmatched, Drain;
  }

  /** Each submitted command is in exactly one place, once. */
  lemma ExactlyOnePlace(l: Lane, c: InCmd)
    requires Inv(l) && DistinctSeqnums(l.submitted) && c in l.submitted
    ensures var answered, waiting: seq<Cmd> := Commands(l.answers), l.pipe.cmds;
            multiset(answered)[c] + multiset(waiting)[c] + multiset(Plain(l.cancelled))[c] == 1
  {
    OnceInDistinct(l.submitted, c);
  }

  lemma {:induction false} OnceInDistinct(cs: seq<Cmd>, c: Cmd)
    requires DistinctSeqnums(cs)
    ensures multiset(cs)[c] == if c in cs then 1 else 0
  {
    if cs != [] {
      var n := |cs| - 1;
      assert cs == cs[..n] + [cs[n]];
      OnceInDistinct(cs[..n], c);
    }
  }
}
