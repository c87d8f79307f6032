/**
 What the device promises to the host and to its user, in every reachable state: where each submit
 command is, what an unlink reply means, which bytes have been sent, and what `read` returns.
 */
module Accounting {
  import opened Endian
  import opened UsbIp
  import opened Usb
  import opened Engine
  import opened CommandKinds
  import opened Pipes
  import opened Lanes
  import opened Runs

  /** The host gives every submit its own sequence number. */
  ghost predicate DistinctSubmits(cs: seq<Cmd>) {
    forall i, j :: 0 <= i < j < |cs| && cs[i].Submit? && cs[j].Submit? ==> cs[i].base.seqnum != cs[j].base.seqnum
  }

  // ----- bytes -----

  /** Nothing written to an endpoint is lost, duplicated or reordered, whatever is unlinked in between. */
  lemma ByteConservation(info: Info, es: seq<Event>, i: nat)
    requires i < MAX_ENDPOINTS
    ensures var s := Run(info, es);
            Payloads(SelectAnswers(info, i, s.hist.log)) + Unsent(s.pipes[i].data) == Concat(s.hist.written[i])
  {
    hide BookInv;
    RunInv(info, es);
    assert Inv(LaneOf(info, Run(info, es), i));
  }

  /** No reply mixes the bytes of two writes: each carries a part of a single one. */
  lemma EveryReplyFromOneWrite(info: Info, es: seq<Event>, i: nat)
    requires i < MAX_ENDPOINTS
    ensures var s := Run(info, es);
            forall e :: e in SelectAnswers(info, i, s.hist.log) ==> FromWrites(Payload(e.rep), s.hist.written[i])
  {
    hide BookInv, FromWrites, Conserved, Accounted, Ordered, Confluent;
    RunInv(info, es);
    assert Inv(LaneOf(info, Run(info, es), i));
  }

  /** The replies of a matching loop answer the commands at the front of the queue. */
  lemma DrainAnswersFront(p: Pipe)
    ensures var es := Drain(p).entries;
            |es| <= |p.cmds| && forall k :: 0 <= k < |es| ==> es[k].cmd == p.cmds[k]
  {
    hide Drain;
    var es := Drain(p).entries;
    DrainOrder(p);
    forall k | 0 <= k < |es| ensures es[k].cmd == p.cmds[k] {
      assert Commands(es)[k] == p.cmds[k];
    }
  }

  /** A write to an endpoint with nothing left over is matched on its own. */
  lemma WriteIsDrain(s: Engine, ep: Byte, bytes: seq<Byte>)
    requires |s.pipes| == |s.hist.written| == MAX_ENDPOINTS && !s.failed && s.pipes[WriteIndex(ep)].data == []
    ensures var i, t := WriteIndex(ep), Write(s, ep, bytes);
            var d := Drain(Pipe(s.pipes[i].cmds, [Chunk(bytes, 0)]));
            t.hist.log == s.hist.log + d.entries && t.pipes == s.pipes[i := d.pipe]
  {
    hide Drain, WriteIndex;
    var i := WriteIndex(ep);
    var q := Pipe(s.pipes[i].cmds, [Chunk(bytes, 0)]);
    assert [] + [Chunk(bytes, 0)] == [Chunk(bytes, 0)];
    assert s.pipes[i := q][i := Drain(q).pipe] == s.pipes[i := Drain(q).pipe];
  }

  /** What the theorems count as a command of endpoint `i`. */
  lemma OnIs(info: Info, i: nat, c: Cmd)
    ensures On(info, i, c) <==> InRequest(c) && Endpoint(c) == i
  {
    KindIs(info, c);
    EndpointIs(c);
    hide Parks, EpIndex, InRequest, Endpoint;
  }

  /** In every reachable state a command waits at the endpoint it names. */
  lemma WaitsAtItsEndpoint(info: Info, es: seq<Event>, i: nat, c: Cmd)
    requires i < 32 && c in Run(info, es).pipes[i].cmds
    ensures InRequest(c) && Endpoint(c) == i
  {
    hide BookInv, On, InRequest, Endpoint;
    RunInv(info, es);
    WaitingBelongs(info, Run(info, es), i);
    OnIs(info, i, c);
  }

  /** A write to the address of IN endpoint `k` is a write to endpoint `k`. */
  lemma WrittenToItsEndpoint(s: Engine, k: Byte, bytes: seq<Byte>)
    requires |s.pipes| == |s.hist.written| == MAX_ENDPOINTS && !s.failed && k < 16
    ensures Int(k) < 16
    ensures Write(s, 0x80 + k, bytes).hist.written == s.hist.written[Int(k) := s.hist.written[Int(k)] + [bytes]]
  {
    WriteIndexOfAddress(k);
    hide Int, WriteIndex, Drain;
  }

  lemma CutAnswers(cs: seq<InCmd>, bytes: seq<Byte>, m: nat)
    requires m > 0 && bytes != [] && |cs| >= Pieces(|bytes|, m)
    requires forall c :: c in cs ==> SizeOf32(c.length) == m
    ensures var n, r := Pieces(|bytes|, m), Drain(Pipe(cs, [Chunk(bytes, 0)]));
            && |r.entries| == n && r.pipe == Pipe(cs[n..], [])
            && forall j :: 0 <= j < n ==>
                 && r.entries[j].cmd == cs[j] && cs[j] in cs
                 && |Payload(r.entries[j].rep)| == if j < n - 1 then m else |bytes| - (n - 1) * m
  {
    hide SizeOf32, Drain, Payload;
    WriteIsCut(cs, bytes, m);
    DrainAnswersFront(Pipe(cs, [Chunk(bytes, 0)]));
  }

  /**
   A write of one or more bytes to the address of an IN endpoint where enough commands are waiting, each for
   `m` bytes, answers as many of them as it takes pieces of `m` bytes to carry it: all replies are of `m`
   bytes, except that the last one carries the rest. The commands answered are commands of that endpoint.
   */
  lemma WriteAnswers(info: Info, es: seq<Event>, k: Byte, bytes: seq<Byte>, m: nat)
    requires m > 0 && bytes != [] && !Run(info, es).failed && k < 16 && Int(k) < 16
    requires var p := Run(info, es).pipes[Int(k)];
             && |p.cmds| >= Pieces(|bytes|, m)
             && forall c :: c in p.cmds ==> SizeOf32(c.length) == m
    ensures var s, t, n := Run(info, es), Write(Run(info, es), 0x80 + k, bytes), Pieces(|bytes|, m);
            var waiting := s.pipes[Int(k)].cmds;
            && s.hist.log <= t.hist.log
            && t.pipes == s.pipes[Int(k) := Pipe(waiting[n..], [])]
            && var added := t.hist.log[|s.hist.log|..];
               && |added| == n
               && forall j :: 0 <= j < n ==>
                    && added[j].cmd == waiting[j] && InRequest(waiting[j]) && Endpoint(waiting[j]) == Int(k)
                    && |Payload(added[j].rep)| == if j < n - 1 then m else |bytes| - (n - 1) * m
  {
    WriteIndexOfAddress(k);
    hide SizeOf32, Drain, Payload, WriteIndex, Write, Run, Int, InRequest, Endpoint, InAddress;
    var s, i := Run(info, es), Int(k);
    NothingUnsentWhileWaiting(info, es, i);
    CutAnswers(s.pipes[i].cmds, bytes, m);
    WriteIsDrain(s, 0x80 + k, bytes);
    assert Write(s, 0x80 + k, bytes).hist.log[|s.hist.log|..] == Drain(Pipe(s.pipes[i].cmds, [Chunk(bytes, 0)])).entries;
    forall c | c in s.pipes[i].cmds ensures InRequest(c) && Endpoint(c) == i {
      WaitsAtItsEndpoint(info, es, i, c);
    }
  }

  /** No reply carries more than its command asked for. */
  lemma NeverTooMuch(info: Info, es: seq<Event>, e: Entry)
    requires e in Run(info, es).hist.log && InRequest(e.cmd)
    ensures |Payload(e.rep)| <= SizeOf32(e.cmd.length)
  {
    RunInv(info, es);
    KindIs(info, e.cmd);
    hide LanesInv, Parks, InRequest, SizeOf32, Signed32, EpIndex, Word32;
    assert EntryOk(info, e);
  }

  /** A command waits on an endpoint only when everything written to it has been sent. */
  lemma NothingUnsentWhileWaiting(info: Info, es: seq<Event>, i: nat)
    requires i < MAX_ENDPOINTS && Run(info, es).pipes[i].cmds != []
    ensures var s := Run(info, es);
            && s.pipes[i].data == []
            && Payloads(SelectAnswers(info, i, s.hist.log)) == Concat(s.hist.written[i])
            && forall c :: c in s.pipes[i].cmds ==> On(info, i, c)
  {
    hide BookInv, On;
    RunInv(info, es);
    var s := Run(info, es);
    var l := LaneOf(info, s, i);
    assert Inv(l);
    WaitingMeansAllSent(l);
    WaitingBelongs(info, s, i);
  }

  /** Queues and replies are those of queueing all commands and all writes first and matching once. */
  lemma MatchedOnce(info: Info, es: seq<Event>, i: nat)
    requires i < MAX_ENDPOINTS && Select(info, i, Run(info, es).hist.cancelled) == []
    ensures var s := Run(info, es);
            Drain(Pipe(Select(info, i, s.hist.handled), Chunks(s.hist.written[i])))
            == Drained(s.pipes[i], SelectAnswers(info, i, s.hist.log))
  {
    hide BookInv, Unmatched, Drain;
    RunInv(info, es);
    assert Inv(LaneOf(info, Run(info, es), i));
  }

  /** Two runs that agree on the order of an endpoint's commands and of its writes agree on its replies. */
  lemma InterleavingIndependence(info: Info, es: seq<Event>, fs: seq<Event>, i: nat)
    requires i < MAX_ENDPOINTS
    requires var s, t := Run(info, es), Run(info, fs);
             && Select(info, i, s.hist.cancelled) == Select(info, i, t.hist.cancelled) == []
             && Select(info, i, s.hist.handled) == Select(info, i, t.hist.handled)
             && s.hist.written[i] == t.hist.written[i]
    ensures var s, t := Run(info, es), Run(info, fs);
            && s.pipes[i] == t.pipes[i]
            && SelectAnswers(info, i, s.hist.log) == SelectAnswers(info, i, t.hist.log)
  {
    hide Drain, Select, SelectAnswers;
    MatchedOnce(info, es, i);
    MatchedOnce(info, fs, i);
  }

  // ----- commands -----

  /** How often a command is parked, over all endpoints. */
  function ParkedCount(pipes: seq<Pipe>, c: Cmd): nat {
    if pipes == [] then 0
    else ParkedCount(pipes[..|pipes| - 1], c) + multiset(Plain(pipes[|pipes| - 1].cmds))[c]
  }

  /** How many RET_SUBMIT replies carry a sequence number. */
  function RetCount(es: seq<Entry>, q: bv32): nat {
    if es == [] then 0
    else
      var r := es[|es| - 1].rep;
      RetCount(es[..|es| - 1], q) + if r.RetSubmit? && r.base.seqnum == q then 1 else 0
  }

  lemma {:induction false} ParkedAt(pipes: seq<Pipe>, c: Cmd, i: nat)
    requires forall j :: 0 <= j < |pipes| && j != i ==> c !in Plain(pipes[j].cmds)
    ensures ParkedCount(pipes, c) == if i < |pipes| then multiset(Plain(pipes[i].cmds))[c] else 0
  {
    if pipes != [] {
      ParkedAt(pipes[..|pipes| - 1], c, i);
    }
  }

  lemma {:induction false} SelectCount(info: Info, i: nat, cs: seq<Cmd>, c: Cmd)
    requires On(info, i, c)
    ensures multiset(Plain(Select(info, i, cs)))[c] == multiset(cs)[c]
  {
    hide On;
    if cs != [] {
      var n := |cs| - 1;
      SelectCount(info, i, cs[..n], c);
      assert cs == cs[..n] + [cs[n]];
      assert Plain(Select(info, i, cs)) == Plain(Select(info, i, cs[..n])) + if On(info, i, cs[n]) then [cs[n]] else [];
    }
  }

  lemma {:induction false} ImmediateCount(info: Info, cs: seq<Cmd>, c: Cmd)
    requires !Parks(info, c)
    ensures multiset(Immediate(info, cs))[c] == multiset(cs)[c]
  {
    hide Parks;
    if cs != [] {
      var n := |cs| - 1;
      ImmediateCount(info, cs[..n], c);
      assert cs == cs[..n] + [cs[n]];
      var last := if Parks(info, cs[n]) then [] else [cs[n]];
      assert Immediate(info, cs) == Immediate(info, cs[..n]) + last;
      hide Immediate;
      assert multiset(last)[c] == multiset([cs[n]])[c];
    }
  }

  lemma {:induction false} AnswersCommands(info: Info, i: nat, es: seq<Entry>)
    ensures Commands(SelectAnswers(info, i, es)) == Plain(Select(info, i, Commands(es)))
  {
    hide On;
    if es != [] {
      var n := |es| - 1;
      AnswersCommands(info, i, es[..n]);
      assert Commands(es)[..n] == Commands(es[..n]);
      assert Commands(es)[n] == es[n].cmd;
    }
  }

  /** Every command answered or parked has been handled, the former as a whole list of them. */
  lemma CommandAccounted(info: Info, s: Engine, c: Cmd)
    requires EngineInv(info, s)
    ensures multiset(s.hist.handled)[c]
            == multiset(Commands(s.hist.log))[c] + ParkedCount(s.pipes, c) + multiset(Plain(s.hist.cancelled))[c]
  {
    hide Inv, EntryOk, IsStandard, EpIndex;
    var h := s.hist;
    forall j | 0 <= j < MAX_ENDPOINTS && !On(info, j, c) ensures c !in Plain(s.pipes[j].cmds) {
      WaitingBelongs(info, s, j);
    }
    var i := EpIndex(c);
    ParkedAt(s.pipes, c, i);
    if !Parks(info, c) {
      ImmediateCount(info, h.handled, c);
      ImmediateCount(info, Commands(h.log), c);
      assert c !in Plain(h.cancelled);
    } else {
      assert On(info, i, c);
      SelectCount(info, i, h.handled, c);
      SelectCount(info, i, h.cancelled, c);
      SelectCount(info, i, Commands(h.log), c);
      AnswersCommands(info, i, h.log);
      if i < MAX_ENDPOINTS {
        LaneAccounted(info, s, i);
      } else {
        assert c !in h.handled && c !in Plain(h.cancelled);
        NoStrayAnswer(info, s, c);
      }
    }
  }

  lemma LaneAccounted(info: Info, s: Engine, i: nat)
    requires EngineInv(info, s) && i < MAX_ENDPOINTS
    ensures multiset(Plain(Select(info, i, s.hist.handled)))
            == multiset(Commands(SelectAnswers(info, i, s.hist.log))) + multiset(Plain(s.pipes[i].cmds))
               + multiset(Plain(Select(info, i, s.hist.cancelled)))
  {
    hide BookInv;
    assert Inv(LaneOf(info, s, i));
    assert Plain(s.pipes[i].cmds) == s.pipes[i].cmds;
  }

  /** No reply answers a command for an endpoint that does not exist. */
  lemma NoStrayAnswer(info: Info, s: Engine, c: Cmd)
    requires EngineInv(info, s) && Parks(info, c) && EpIndex(c) >= MAX_ENDPOINTS
    ensures multiset(Commands(s.hist.log))[c] == 0
  {
    hide Inv, EpIndex, IsStandard;
    var cs := Commands(s.hist.log);
    forall k | 0 <= k < |cs| ensures cs[k] != c {
      assert EntryOk(info, s.hist.log[k]);
    }
  }

  lemma {:induction false} OnceInDistinctSubmits(cs: seq<Cmd>, c: Cmd)
    requires DistinctSubmits(cs) && c in cs && c.Submit?
    ensures multiset(cs)[c] == 1
    ensures forall d :: d in cs && d.Submit? && d.base.seqnum == c.base.seqnum ==> d == c
  {
    var n := |cs| - 1;
    assert cs == cs[..n] + [cs[n]];
    if c in cs[..n] {
      OnceInDistinctSubmits(cs[..n], c);
    } else {
      forall d | d in cs[..n] && d.Submit? ensures d.base.seqnum != c.base.seqnum {
        var k :| 0 <= k < n && cs[k] == d;
      }
    }
  }

  lemma DistinctHandled(info: Info, s: Engine)
    requires BookInv(info, s) && DistinctSubmits(s.hist.received)
    ensures DistinctSubmits(s.hist.handled)
  {
    hide EntryOk;
    var h := s.hist;
    forall k | 0 <= k < |h.handled| ensures h.handled[k] == h.received[k] {
    }
  }

  /** Every reply answers a command that has been handled. */
  lemma AnsweredWasHandled(info: Info, s: Engine, k: nat)
    requires EngineInv(info, s) && k < |s.hist.log|
    ensures s.hist.log[k].cmd in s.hist.handled
  {
    hide EngineInv;
    var c := s.hist.log[k].cmd;
    CommandAccounted(info, s, c);
    assert Commands(s.hist.log)[k] == c;
  }

  /** On the wire, replies to a submit are told apart by its sequence number. */
  lemma {:induction false} RetsAreAnswers(info: Info, es: seq<Entry>, c: Cmd)
    requires c.Submit?
    requires forall e :: e in es ==> EntryOk(info, e)
    requires forall e :: e in es && e.cmd.Submit? && e.cmd.base.seqnum == c.base.seqnum ==> e.cmd == c
    ensures RetCount(es, c.base.seqnum) == multiset(Commands(es))[c]
  {
    hide Parks, Delivers, EpIndex, Word32;
    if es != [] {
      var n := |es| - 1;
      RetsAreAnswers(info, es[..n], c);
      assert es[n] in es;
      assert Commands(es) == Commands(es[..n]) + [es[n].cmd];
    }
  }

  lemma RetCountIs(info: Info, s: Engine, c: Cmd)
    requires EngineInv(info, s) && DistinctSubmits(s.hist.received)
    requires c in s.hist.handled && c.Submit?
    ensures RetCount(s.hist.log, c.base.seqnum) == multiset(Commands(s.hist.log))[c]
  {
    hide Inv, EntryOk, DistinctSubmits, IsStandard, EpIndex;
    DistinctHandled(info, s);
    OnceInDistinctSubmits(s.hist.handled, c);
    forall e | e in s.hist.log && e.cmd.Submit? && e.cmd.base.seqnum == c.base.seqnum ensures e.cmd == c {
      var k :| 0 <= k < |s.hist.log| && s.hist.log[k] == e;
      AnsweredWasHandled(info, s, k);
    }
    RetsAreAnswers(info, s.hist.log, c);
  }

  /**
   Every submit handled is in exactly one of three places: answered by one RET_SUBMIT, parked once over
   all endpoints, or cancelled once.
   */
  lemma SubmitAccounting(info: Info, es: seq<Event>, c: Cmd)
    requires DistinctSubmits(Run(info, es).hist.received)
    requires c in Run(info, es).hist.handled && c.Submit?
    ensures var s := Run(info, es);
            RetCount(s.hist.log, c.base.seqnum) + ParkedCount(s.pipes, c) + multiset(Plain(s.hist.cancelled))[c] == 1
  {
    hide EngineInv, DistinctSubmits;
    RunInv(info, es);
    var s := Run(info, es);
    CommandAccounted(info, s, c);
    RetCountIs(info, s, c);
    DistinctHandled(info, s) by { assert EngineInv(info, s); BooksOf(info, s); }
    OnceInDistinctSubmits(s.hist.handled, c);
  }

  /** Without distinct sequence numbers nothing is lost either: each command is answered, parked or cancelled as often as handled. */
  lemma EveryCommandAccounted(info: Info, es: seq<Event>, c: Cmd)
    ensures var s := Run(info, es);
            multiset(s.hist.handled)[c]
            == multiset(Commands(s.hist.log))[c] + ParkedCount(s.pipes, c) + multiset(Plain(s.hist.cancelled))[c]
  {
    hide EngineInv;
    RunInv(info, es);
    CommandAccounted(info, Run(info, es), c);
  }

  lemma {:induction false} SelectDistinct(info: Info, i: nat, cs: seq<Cmd>)
    requires DistinctSubmits(cs)
    ensures DistinctSeqnums(Select(info, i, cs))
  {
    hide IsStandard, EpIndex;
    if cs != [] {
      var n := |cs| - 1;
      SelectDistinct(info, i, cs[..n]);
      SelectAreOn(info, i, cs[..n]);
      var front := Select(info, i, cs[..n]);
      if On(info, i, cs[n]) {
        forall k | 0 <= k < |front| ensures front[k].base.seqnum != cs[n].base.seqnum {
          assert front[k] in front;
          var j :| 0 <= j < n && cs[j] == front[k];
        }
      }
    }
  }

  /** Parked commands of an endpoint are answered in the order of their submission, except for cancelled ones. */
  lemma AnsweredInOrder(info: Info, es: seq<Event>, i: nat)
    requires i < MAX_ENDPOINTS && DistinctSubmits(Run(info, es).hist.received)
    ensures var s := Run(info, es);
            Kept(Select(info, i, s.hist.handled), Select(info, i, s.hist.cancelled))
            == Commands(SelectAnswers(info, i, s.hist.log)) + s.pipes[i].cmds
  {
    hide DistinctSubmits, Conserved, Accounted, Confluent, Kept, Select, DistinctSeqnums;
    RunInv(info, es);
    var s := Run(info, es);
    DistinctHandled(info, s);
    SelectDistinct(info, i, s.hist.handled);
    assert Inv(LaneOf(info, s, i));
  }
}
