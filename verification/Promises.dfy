/**
 Promises that relate several moments of a run: what the reply to an unlink says about the past and the
 future of its target (the rule of the Linux kernel's USB/IP protocol document for USBIP_RET_UNLINK), and
 what successive calls of `read` return.
 */
module Promises {
  import opened Endian
  import opened UsbIp
  import opened Options
  import opened Usb
  import opened Engine
  import opened CommandKinds
  import opened Pipes
  import opened Lanes
  import opened Runs
  import opened Accounting

  // ----- histories only grow -----

  ghost predicate Grows(a: History, b: History) {
    a.log <= b.log && a.handled <= b.handled && a.received <= b.received && a.cancelled <= b.cancelled
  }

  lemma HandleGrows(info: Info, s: Engine, c: Cmd)
    requires Ready(info, s)
    ensures Grows(s.hist, Handle(info, s, c).state.hist)
  {
    hide HandleUnlink, HandleStandardCmd, HandleOut, HandleIn, IsStandard;
    if c.Unlink? {
      UnlinkGrows(info, s, c);
    } else {
      SubmitGrows(info, s, c);
    }
  }

  lemma UnlinkGrows(info: Info, s: Engine, c: Cmd)
    requires Ready(info, s) && c.Unlink?
    ensures Grows(s.hist, HandleUnlink(info, s, c).state.hist)
  {
    hide EpIndex, MakeReply, FirstPipeWith, FirstWith;
  }

  lemma SubmitGrows(info: Info, s: Engine, c: Cmd)
    requires Ready(info, s) && c.Submit?
    ensures Grows(s.hist, HandleStandardCmd(info, s, c).state.hist)
    ensures c.base.direction == DIR_OUT ==> Grows(s.hist, HandleOut(info, s, c).state.hist)
    ensures c.base.direction == DIR_IN ==> Grows(s.hist, HandleIn(info, s, c).state.hist)
  {
    hide HandleStandard, EpIndex, MakeReply, XferOf, Drain;
  }

  lemma StepGrows(info: Info, s: Engine, e: Event)
    requires Ready(info, s)
    ensures Grows(s.hist, Step(info, s, e).hist)
  {
    hide Handle, Drain, WriteIndex;
    if e.Processing? && !s.failed && s.cmds != [] {
      HandleGrows(info, s.(cmds := s.cmds[1..]), s.cmds[0]);
    }
  }

  lemma {:induction false} RunGrows(info: Info, es: seq<Event>, more: seq<Event>)
    ensures Grows(Run(info, es).hist, Run(info, es + more).hist)
  {
    hide Step;
    if more == [] {
      assert es + more == es;
    } else {
      var n := |more| - 1;
      RunGrows(info, es, more[..n]);
      assert (es + more)[..|es + more| - 1] == es + more[..n];
      StepGrows(info, Run(info, es + more[..n]), more[n]);
    }
  }

  // ----- failure -----

  lemma HandleDrops(info: Info, s: Engine, c: Cmd)
    requires Ready(info, s) && !s.failed
    ensures var t := Handle(info, s, c).state;
            t.hist.dropped == s.hist.dropped + if t.failed then [c] else []
  {
    hide HandleStandard, IsStandard, EpIndex, MakeReply, XferOf, FirstPipeWith, FirstWith, Drain;
  }

  lemma StepFails(info: Info, s: Engine, e: Event)
    requires Ready(info, s) && (s.failed || s.hist.dropped == [])
    ensures var t := Step(info, s, e);
            && (t.failed <==> s.failed || e.Halt? || t.hist.dropped != [])
            && (s.hist.dropped != [] ==> t.hist.dropped != [])
  {
    hide Handle, Drain, WriteIndex;
    if e.Processing? && !s.failed && s.cmds != [] {
      HandleDrops(info, s.(cmds := s.cmds[1..]), s.cmds[0]);
    }
  }

  /** The device has failed exactly when it was reset, or handling a command has thrown. */
  lemma {:induction false} FailedIff(info: Info, es: seq<Event>)
    ensures var s := Run(info, es); s.failed <==> Halt in es || s.hist.dropped != []
  {
    hide Step;
    if es != [] {
      var n := |es| - 1;
      FailedIff(info, es[..n]);
      StepFails(info, Run(info, es[..n]), es[n]);
      assert es == es[..n] + [es[n]];
    }
  }

  lemma FailedStep(info: Info, s: Engine, e: Event)
    requires Ready(info, s) && s.failed
    ensures var t := Step(info, s, e);
            t == s.(cmds := t.cmds, hist := s.hist.(received := t.hist.received))
  {
    hide Handle, Drain, WriteIndex;
  }

  /** After that nothing changes, except that commands that still arrive are queued. */
  lemma {:induction false} QuietAfterFailure(info: Info, es: seq<Event>, more: seq<Event>)
    requires Run(info, es).failed
    ensures var s, t := Run(info, es), Run(info, es + more);
            t == s.(cmds := t.cmds, hist := s.hist.(received := t.hist.received))
  {
    hide Step;
    if more == [] {
      assert es + more == es;
    } else {
      var n := |more| - 1;
      QuietAfterFailure(info, es, more[..n]);
      assert (es + more)[..|es + more| - 1] == es + more[..n];
      FailedStep(info, Run(info, es + more[..n]), more[n]);
    }
  }

  // ----- unlink -----

  predicate IsParked(pipes: seq<Pipe>, q: bv32) {
    exists i :: 0 <= i < |pipes| && HasSeqnum(Plain(pipes[i].cmds), q)
  }

  lemma FirstWithFinds(cmds: seq<InCmd>, q: bv32)
    ensures HasSeqnum(Plain(cmds), q) <==> FirstWith(cmds, q) < |cmds|
  {
    var k := FirstWith(cmds, q);
    if k < |cmds| {
      assert Plain(cmds)[k].base.seqnum == q;
    }
  }

  lemma FirstPipeFinds(pipes: seq<Pipe>, q: bv32)
    ensures IsParked(pipes, q) <==> FirstPipeWith(pipes, q) < |pipes|
  {
    hide FirstWith, HasSeqnum;
    var i := FirstPipeWith(pipes, q);
    if i < |pipes| {
      FirstWithFinds(pipes[i].cmds, q);
    }
    if IsParked(pipes, q) {
      var j :| 0 <= j < |pipes| && HasSeqnum(Plain(pipes[j].cmds), q);
      FirstWithFinds(pipes[j].cmds, q);
    }
  }

  /** The reply that an unlink gets, and what becomes of its target. */
  lemma UnlinkStep(info: Info, s: Engine)
    requires Ready(info, s) && !s.failed && s.cmds != []
    requires s.cmds[0].Unlink? && Endpoint(s.cmds[0]) < 32
    ensures var u, t := s.cmds[0], Process(info, s).state;
            var status := if IsParked(s.pipes, u.target) then 0xFFFF_FF98 else 0;
            && t.hist.log == s.hist.log + [Entry(u, RetUnlink(u.base, status))]
            && (IsParked(s.pipes, u.target) ==>
                  exists x: InCmd :: x.base.seqnum == u.target && t.hist.cancelled == s.hist.cancelled + [x])
  {
    EndpointIs(s.cmds[0]);
    hide EpIndex, Endpoint, FirstPipeWith, FirstWith, IsParked;
    var u := s.cmds[0];
    FirstPipeFinds(s.pipes, u.target);
    var i := FirstPipeWith(s.pipes, u.target);
    if i < |s.pipes| {
      var x := s.pipes[i].cmds[FirstWith(s.pipes[i].cmds, u.target)];
      assert x.base.seqnum == u.target;
      assert Process(info, s).state.hist.cancelled == s.hist.cancelled + [x];
    }
  }

  lemma CountAtLeastOne(cs: seq<Cmd>, c: Cmd)
    requires c in cs
    ensures multiset(cs)[c] >= 1
  {
  }

  /** A cancelled command has no RET_SUBMIT in any reachable state. */
  lemma CancelledNeverAnswered(info: Info, es: seq<Event>, x: InCmd)
    requires DistinctSubmits(Run(info, es).hist.received) && x in Run(info, es).hist.cancelled
    ensures RetCount(Run(info, es).hist.log, x.base.seqnum) == 0
  {
    hide DistinctSubmits, LanesInv, EntryOk, IsStandard;
    RunInv(info, es);
    var s := Run(info, es);
    var c: Cmd := x;
    assert c in Plain(s.hist.cancelled);
    assert c in s.hist.handled;
    CountAtLeastOne(Plain(s.hist.cancelled), c);
    SubmitAccounting(info, es, c);
  }

  /** A handled submit that is neither parked nor cancelled has been answered. */
  lemma HandledWasAnswered(info: Info, es: seq<Event>, c: Cmd)
    requires DistinctSubmits(Run(info, es).hist.received)
    requires c in Run(info, es).hist.handled && c.Submit?
    requires !IsParked(Run(info, es).pipes, c.base.seqnum) && c !in Plain(Run(info, es).hist.cancelled)
    ensures RetCount(Run(info, es).hist.log, c.base.seqnum) == 1
  {
    hide DistinctSubmits;
    var s := Run(info, es);
    SubmitAccounting(info, es, c);
    forall j | 0 <= j < |s.pipes| ensures c !in Plain(s.pipes[j].cmds) {
      assert !HasSeqnum(Plain(s.pipes[j].cmds), c.base.seqnum);
    }
    ParkedAt(s.pipes, c, |s.pipes|);
  }

  /** A submit that was handled, and has not been cancelled. */
  ghost predicate Outstanding(s: Engine, c: Cmd, q: bv32) {
    c in s.hist.handled && c.Submit? && c.base.seqnum == q && c !in Plain(s.hist.cancelled)
  }

  /** The reply to an unlink, and its target's place among the cancelled, stay whatever happens next. */
  lemma UnlinkStays(info: Info, es: seq<Event>, more: seq<Event>)
    requires var s := Run(info, es);
             && !s.failed && s.cmds != [] && s.cmds[0].Unlink? && Endpoint(s.cmds[0]) < 32
    ensures var s, t := Run(info, es), Run(info, es + [Processing] + more);
            var u := s.cmds[0];
            var status := if IsParked(s.pipes, u.target) then 0xFFFF_FF98 else 0;
            && s.hist.log + [Entry(u, RetUnlink(u.base, status))] <= t.hist.log
            && s.hist.received <= t.hist.received
            && (IsParked(s.pipes, u.target) ==> exists x :: x in t.hist.cancelled && x.base.seqnum == u.target)
  {
    hide Endpoint, IsParked, Process;
    var s, mid := Run(info, es), es + [Processing];
    assert mid[..|mid| - 1] == es;
    assert Run(info, mid) == Process(info, s).state;
    UnlinkStep(info, s);
    RunGrows(info, es, [Processing]);
    RunGrows(info, mid, more);
    var u, m := s.cmds[0], Run(info, mid);
    if IsParked(s.pipes, u.target) {
      var x: InCmd :| x.base.seqnum == u.target && m.hist.cancelled == s.hist.cancelled + [x];
      assert x == m.hist.cancelled[|s.hist.cancelled|];
      assert x in Run(info, mid + more).hist.cancelled;
    }
  }

  /** The status of a cancelled command, -ECONNRESET on Linux. */
  lemma StatusOfCancelled()
    ensures Signed32(0xFFFF_FF98) == -104
  {
  }

  /**
   The unlink rule. The reply queued for an unlink says -ECONNRESET exactly when its target was parked,
   and then the target gets no RET_SUBMIT, before or after, however the run goes on. Otherwise it says 0,
   and the RET_SUBMIT of a target that was handled and not cancelled before is already in the log, ahead
   of this reply.
   */
  lemma UnlinkAgreement(info: Info, es: seq<Event>, more: seq<Event>)
    requires var s := Run(info, es);
             && !s.failed && s.cmds != [] && s.cmds[0].Unlink? && Endpoint(s.cmds[0]) < 32
    requires DistinctSubmits(Run(info, es + [Processing] + more).hist.received)
    ensures var s, t := Run(info, es), Run(info, es + [Processing] + more);
            var u := s.cmds[0];
            && |s.hist.log| < |t.hist.log| && s.hist.log <= t.hist.log
            && var r := t.hist.log[|s.hist.log|].rep;
               && t.hist.log[|s.hist.log|].cmd == u && r.RetUnlink?
               && (r.status == 0xFFFF_FF98 <==> IsParked(s.pipes, u.target))
               && (r.status == 0 <==> !IsParked(s.pipes, u.target))
               && (r.status == 0xFFFF_FF98 ==> RetCount(t.hist.log, u.target) == 0)
               && (r.status == 0 && (exists c :: Outstanding(s, c, u.target)) ==> RetCount(s.hist.log, u.target) == 1)
  {
    hide DistinctSubmits, Endpoint, IsParked, RetCount, Process, Run, Outstanding;
    UnlinkStays(info, es, more);
    var s, t := Run(info, es), Run(info, es + [Processing] + more);
    var u := s.cmds[0];
    if IsParked(s.pipes, u.target) {
      var x :| x in t.hist.cancelled && x.base.seqnum == u.target;
      CancelledNeverAnswered(info, es + [Processing] + more, x);
    } else {
      EarlierDistinct(s.hist.received, t.hist.received);
      if c :| Outstanding(s, c, u.target) {
        OutstandingAnswered(info, es, c, u.target);
      }
    }
  }

  lemma OutstandingAnswered(info: Info, es: seq<Event>, c: Cmd, q: bv32)
    requires DistinctSubmits(Run(info, es).hist.received)
    requires Outstanding(Run(info, es), c, q) && !IsParked(Run(info, es).pipes, q)
    ensures RetCount(Run(info, es).hist.log, q) == 1
  {
    hide DistinctSubmits, IsParked;
    HandledWasAnswered(info, es, c);
  }

  lemma EarlierDistinct(a: seq<Cmd>, b: seq<Cmd>)
    requires a <= b && DistinctSubmits(b)
    ensures DistinctSubmits(a)
  {
  }

  // ----- read -----

  /** Handling a command returns a transfer exactly when the command delivers one and did not throw. */
  lemma HandleReturns(info: Info, s: Engine, c: Cmd)
    requires Ready(info, s) && !s.failed
    ensures var o := Handle(info, s, c);
            && (o.xfer.Some? <==> OutData(c) && !o.state.failed)
            && (o.xfer.Some? ==> Carries(o.xfer.value, c))
            && o.state.cmds == s.cmds
  {
    KindIs(info, c);
    if OutData(c) {
      XferCarries(info, c);
    }
    hide HandleStandard, IsStandard, StandardRequest, EpIndex, MakeReply, XferOf, Carries, FirstPipeWith, FirstWith, Drain;
  }

  /**
   Handling throws if and only if the endpoint does not exist, the direction is neither IN nor OUT, or a
   standard request is rejected; the reply queue and the parked commands are then as before.
   */
  lemma HandleThrows(info: Info, s: Engine, c: Cmd)
    requires Ready(info, s) && !s.failed
    ensures var t := Handle(info, s, c).state;
            && (t.failed <==>
                  if StandardRequest(c) then HandleStandard(info, s.config, c).Rejected?
                  else Endpoint(c) >= 32 || (c.Submit? && c.base.direction !in {0, 1}))
            && (t.failed ==> t.reps == s.reps && t.pipes == s.pipes && t.config == s.config)
            && (!t.failed ==> t.hist.handled == s.hist.handled + [c])
  {
    StandardIs(info, c);
    EndpointIs(c);
    assert StandardRequest(c) ==> c.Submit?;
    hide HandleStandard, IsStandard, StandardRequest, EpIndex, Endpoint, MakeReply, XferOf, FirstPipeWith, FirstWith,
      Drain;
  }

  /** The state after handling `n` commands, one after the other. */
  function ProcessMany(info: Info, s: Engine, n: nat): (t: Engine)
    requires Ready(info, s)
    ensures Ready(info, t)
    decreases n
  {
    if n == 0 then s else ProcessMany(info, Process(info, s).state, n - 1)
  }

  ghost predicate NoneDelivers(cs: seq<Cmd>) {
    forall c :: c in cs ==> !OutData(c)
  }

  /** What a call of `read` without waiting may do with the queue it finds. */
  ghost predicate ReadsPrefix(info: Info, s: Engine, o: Outcome, n: nat)
    requires Ready(info, s)
  {
    && n <= |s.cmds| && o.state.cmds == s.cmds[n..]
    && o.state == ProcessMany(info, s, n)
    && (o.xfer.Some? ==> n > 0 && !o.state.failed && OutData(s.cmds[n - 1])
                         && Carries(o.xfer.value, s.cmds[n - 1])
                         && NoneDelivers(s.cmds[..n - 1]))
    && (o.xfer.None? && !o.state.failed ==> n == |s.cmds| && NoneDelivers(s.cmds))
  }

  /**
   Unless a command throws, `read` with a zero timeout handles exactly the commands up to and including
   the first that delivers a transfer, and returns that transfer; or all of them if none does.
   */
  lemma {:induction false} ReadHandlesPrefix(info: Info, s: Engine)
    requires Ready(info, s) && !s.failed
    ensures exists n :: ReadsPrefix(info, s, ReadNow(info, s), n)
    decreases |s.cmds|
  {
    hide Handle, StandardRequest, Carries;
    if s.cmds == [] {
      assert ReadsPrefix(info, s, ReadNow(info, s), 0);
    } else {
      var o := Process(info, s);
      HandleReturns(info, s.(cmds := s.cmds[1..]), s.cmds[0]);
      if o.xfer.Some? || o.state.failed {
        assert ProcessMany(info, s, 1) == ProcessMany(info, o.state, 0) == o.state;
        assert ReadsPrefix(info, s, ReadNow(info, s), 1);
      } else {
        ReadHandlesPrefix(info, o.state);
        var n :| ReadsPrefix(info, o.state, ReadNow(info, o.state), n);
        PrefixOneMore(info, s, ReadNow(info, s), n);
      }
    }
  }

  lemma PrefixOneMore(info: Info, s: Engine, o: Outcome, n: nat)
    requires Ready(info, s) && s.cmds != []
    requires Process(info, s).state.cmds == s.cmds[1..] && !OutData(s.cmds[0])
    requires ReadsPrefix(info, Process(info, s).state, o, n)
    ensures ReadsPrefix(info, s, o, n + 1)
  {
    hide OutData, Carries, Process;
    var c := s.cmds[0];
    var first := Process(info, s).state;
    assert s.cmds == [c] + first.cmds;
    assert s.cmds[..n + 1] == [c] + first.cmds[..n];
    if n > 0 {
      assert s.cmds[..n] == [c] + first.cmds[..n - 1];
      assert s.cmds[n] == first.cmds[n - 1];
    }
    assert s.cmds[n + 1..] == first.cmds[n..];
    assert ProcessMany(info, s, n + 1) == ProcessMany(info, first, n);
  }

  // ----- the history is the trace -----

  function Arrivals(es: seq<Event>): seq<Cmd> {
    if es == [] then []
    else
      var e := es[|es| - 1];
      Arrivals(es[..|es| - 1]) + if e.Arrival? then [e.cmd] else []
  }

  /** The transfers returned so far, and the data accepted for endpoint `i`, as the callers saw them. */
  function Returned(info: Info, es: seq<Event>): seq<Xfer> {
    if es == [] then []
    else
      var before, e := es[..|es| - 1], es[|es| - 1];
      var x := if e.Processing? then Process(info, Run(info, before)).xfer else None;
      Returned(info, before) + if x.Some? then [x.value] else []
  }

  function WritesAccepted(info: Info, i: nat, es: seq<Event>): seq<seq<Byte>> {
    if es == [] then []
    else
      var before, e := es[..|es| - 1], es[|es| - 1];
      WritesAccepted(info, i, before)
      + if e.Writing? && Int(e.ep & 0x0F) == i && !Run(info, before).failed then [e.bytes] else []
  }

  lemma HandleHistory(info: Info, s: Engine, c: Cmd)
    requires Ready(info, s)
    ensures var o := Handle(info, s, c);
            && o.state.hist.received == s.hist.received
            && o.state.hist.written == s.hist.written
            && o.state.hist.xfers == s.hist.xfers + if o.xfer.Some? then [o.xfer.value] else []
  {
    hide HandleStandard, IsStandard, EpIndex, MakeReply, XferOf, Drain, Cancel;
    CancelHistory(s, if c.Unlink? then c.target else 0);
  }

  lemma CancelHistory(s: Engine, q: bv32)
    ensures Cancel(s, q).hist.(cancelled := s.hist.cancelled) == s.hist
  {
    hide FirstPipeWith, FirstWith;
  }

  lemma ProcessHistory(info: Info, s: Engine)
    requires Ready(info, s)
    ensures var o := Process(info, s);
            && o.state.hist.received == s.hist.received
            && o.state.hist.written == s.hist.written
            && o.state.hist.xfers == s.hist.xfers + if o.xfer.Some? then [o.xfer.value] else []
  {
    hide Handle;
    if !s.failed && s.cmds != [] {
      HandleHistory(info, s.(cmds := s.cmds[1..]), s.cmds[0]);
    }
  }

  lemma StepHistory(info: Info, s: Engine, e: Event, i: nat)
    requires Ready(info, s) && i < MAX_ENDPOINTS
    ensures var h, h' := s.hist, Step(info, s, e).hist;
            var x := if e.Processing? then Process(info, s).xfer else None;
            && h'.received == h.received + (if e.Arrival? then [e.cmd] else [])
            && h'.xfers == h.xfers + (if x.Some? then [x.value] else [])
            && h'.written[i]
               == h.written[i] + (if e.Writing? && Int(e.ep & 0x0F) == i && !s.failed then [e.bytes] else [])
  {
    if e.Writing? {
      WriteIndexIs(e.ep);
    }
    hide Process, WriteIndex, Int, Drain;
    ProcessHistory(info, s);
  }

  /** What the invariants call received, written and delivered is what passed through the interface. */
  lemma {:induction false} HistoryIsTrace(info: Info, es: seq<Event>, i: nat)
    requires i < MAX_ENDPOINTS
    ensures var h := Run(info, es).hist;
            h.received == Arrivals(es) && h.xfers == Returned(info, es) && h.written[i] == WritesAccepted(info, i, es)
  {
    hide Process, Int, Step;
    if es != [] {
      var before := es[..|es| - 1];
      HistoryIsTrace(info, before, i);
      StepHistory(info, Run(info, before), es[|es| - 1], i);
    }
  }

  // ----- read with a timeout -----

  /** `x` is the transfer of the command handled last. */
  ghost predicate JustDelivered(s: Engine, x: Xfer) {
    var h := s.hist;
    && !s.failed
    && h.handled != [] && OutData(h.handled[|h.handled| - 1]) && Carries(x, h.handled[|h.handled| - 1])
    && h.xfers != [] && x == h.xfers[|h.xfers| - 1]
  }

  lemma ProcessReturns(info: Info, s: Engine)
    requires Ready(info, s) && !s.failed && s.cmds != []
    ensures var o := Process(info, s); o.xfer.Some? ==> JustDelivered(o.state, o.xfer.value)
  {
    hide Handle, OutData, Carries, StandardRequest, Endpoint;
    var t, c := s.(cmds := s.cmds[1..]), s.cmds[0];
    HandleReturns(info, t, c);
    HandleThrows(info, t, c);
    HandleHistory(info, t, c);
  }

  /** Under the lock `read` stops only at a transfer, after an exception, or at the end of the queue. */
  lemma {:induction false} ReadNowReturns(info: Info, s: Engine)
    requires Ready(info, s)
    ensures var o := ReadNow(info, s);
            if o.xfer.Some? then JustDelivered(o.state, o.xfer.value) else o.state.failed || o.state.cmds == []
    decreases |s.cmds|
  {
    hide Process, JustDelivered;
    if !s.failed && s.cmds != [] {
      ProcessReturns(info, s);
      assert |Process(info, s).state.cmds| < |s.cmds|;
      ReadNowReturns(info, Process(info, s).state);
    }
  }

  /**
   What a call of `read` may return, whatever others do while it waits. A transfer is that of the command
   handled last. Nothing is returned only after a wait that timed out, or with a zero timeout for lack of
   commands. A call that is still waiting has found the queue empty and no error.
   */
  lemma {:induction false} ReadReturns(info: Info, s: Engine, timeout: Timeout, waits: seq<Wait>)
    requires Ready(info, s)
    ensures var r := ReadWaiting(info, s, timeout, waits);
            match r.answer
            case Transfer(x) => JustDelivered(r.state, x)
            case Failed => r.state.failed
            case Nothing =>
              if timeout.Never? then !r.state.failed && r.state.cmds == []
              else timeout.Limited? && exists w :: w in waits && w.timedOut
            case Waiting =>
              && !timeout.Never? && !r.state.failed && r.state.cmds == []
              && (timeout.Limited? ==> forall w :: w in waits ==> !w.timedOut)
    decreases |waits|
  {
    hide ReadNow, Others, JustDelivered;
    ReadNowReturns(info, s);
    var o := ReadNow(info, s);
    if o.xfer.None? && !o.state.failed && !timeout.Never? && waits != [] {
      assert waits == [waits[0]] + waits[1..];
      if !(timeout.Limited? && waits[0].timedOut) {
        ReadReturns(info, Others(info, o.state, waits[0].others), timeout, waits[1..]);
      }
    }
  }

  /** A call that still waits looks again after its next wait, unless that one times out; one that has returned stays so. */
  lemma {:induction false} ReadLooksAgain(info: Info, s: Engine, timeout: Timeout, waits: seq<Wait>, w: Wait)
    requires Ready(info, s)
    ensures var r := ReadWaiting(info, s, timeout, waits);
            ReadWaiting(info, s, timeout, waits + [w]) ==
            if !r.answer.Waiting? then r
            else
              var t := Others(info, r.state, w.others);
              if timeout.Limited? && w.timedOut then Reading(t, Nothing) else ReadWaiting(info, t, timeout, [])
    decreases |waits|
  {
    hide ReadNow, Others;
    var o := ReadNow(info, s);
    if o.xfer.None? && !o.state.failed && !timeout.Never? {
      if waits == [] {
        assert (waits + [w])[1..] == [];
      } else if !(timeout.Limited? && waits[0].timedOut) {
        assert (waits + [w])[1..] == waits[1..] + [w];
        ReadLooksAgain(info, Others(info, o.state, waits[0].others), timeout, waits[1..], w);
      }
    }
  }

  /** A look that finds a command with data for the user ends the call, with a transfer unless a command throws. */
  lemma DataEndsRead(info: Info, s: Engine, timeout: Timeout, waits: seq<Wait>, c: Cmd)
    requires Ready(info, s) && !s.failed && c in s.cmds && OutData(c)
    ensures var r := ReadWaiting(info, s, timeout, waits); r.answer.Transfer? || (r.answer.Failed? && r.state.failed)
  {
    hide ReadNow, OutData;
    ReadHandlesPrefix(info, s);
    var n :| ReadsPrefix(info, s, ReadNow(info, s), n);
  }

  lemma {:induction false} OthersRun(info: Info, es: seq<Event>, more: seq<Event>)
    ensures Others(info, Run(info, es), more) == Run(info, es + more)
  {
    hide Step;
    if more == [] {
      assert es + more == es;
    } else {
      var n := |more| - 1;
      OthersRun(info, es, more[..n]);
      assert (es + more)[..|es + more| - 1] == es + more[..n];
    }
  }

  lemma {:induction false} ReadNowIsSteps(info: Info, es: seq<Event>) returns (more: seq<Event>)
    ensures ReadNow(info, Run(info, es)).state == Run(info, es + more)
    ensures forall e :: e in more ==> e == Processing
    decreases |Run(info, es).cmds|
  {
    hide Process;
    var s := Run(info, es);
    if s.failed || s.cmds == [] {
      assert es + [] == es;
      return [];
    }
    var next := es + [Processing];
    assert next[..|next| - 1] == es;
    assert Run(info, next) == Process(info, s).state;
    more := [Processing];
    if Process(info, s).xfer.None? {
      var rest := ReadNowIsSteps(info, next);
      assert next + rest == es + ([Processing] + rest);
      more := [Processing] + rest;
    }
  }

  /** A call of `read` is a series of steps of a run, so that what holds in every reachable state holds around it. */
  lemma {:induction false} ReadIsSteps(info: Info, es: seq<Event>, timeout: Timeout, waits: seq<Wait>)
    returns (more: seq<Event>)
    ensures ReadWaiting(info, Run(info, es), timeout, waits).state == Run(info, es + more)
    decreases |waits|
  {
    hide ReadNow, Others, Run;
    more := ReadNowIsSteps(info, es);
    var o := ReadNow(info, Run(info, es));
    if o.xfer.None? && !o.state.failed && !timeout.Never? && waits != [] {
      var others := waits[0].others;
      OthersRun(info, es + more, others);
      assert es + more + others == es + (more + others);
      more := more + others;
      if !(timeout.Limited? && waits[0].timedOut) {
        var rest := ReadIsSteps(info, es + more, timeout, waits[1..]);
        assert es + more + rest == es + (more + rest);
        more := more + rest;
      }
    }
  }

  /** Those of some commands that carry data for the user, in order. */
  function OutDataOf(cs: seq<Cmd>): seq<Cmd> {
    if cs == [] then []
    else OutDataOf(cs[..|cs| - 1]) + if OutData(cs[|cs| - 1]) then [cs[|cs| - 1]] else []
  }

  lemma {:induction false} DeliveriesCarry(info: Info, cs: seq<Cmd>)
    ensures |Deliveries(info, cs)| == |OutDataOf(cs)|
    ensures forall k :: 0 <= k < |OutDataOf(cs)| ==> Carries(Deliveries(info, cs)[k], OutDataOf(cs)[k])
  {
    hide OutData, Delivers, XferOf, Carries;
    if cs != [] {
      var n := |cs| - 1;
      DeliveriesCarry(info, cs[..n]);
      KindIs(info, cs[n]);
      OutDataCarries(info, cs[n]);
    }
  }

  lemma OutDataCarries(info: Info, c: Cmd)
    ensures OutData(c) ==> Carries(XferOf(info, c), c)
  {
    if OutData(c) {
      XferCarries(info, c);
    }
    hide XferOf, Carries;
  }

  lemma NotBoth(info: Info, c: Cmd)
    ensures Parks(info, c) ==> !OutData(c)
  {
    KindIs(info, c);
    hide Parks, StandardRequest;
  }

  lemma {:induction false} OutDataOfImmediate(info: Info, cs: seq<Cmd>)
    ensures OutDataOf(Immediate(info, cs)) == OutDataOf(cs)
  {
    if cs != [] {
      var n := |cs| - 1;
      OutDataOfImmediate(info, cs[..n]);
      NotBoth(info, cs[n]);
      hide Parks, OutData;
      var front := Immediate(info, cs[..n]);
      if Parks(info, cs[n]) {
        assert Immediate(info, cs) == front + [] == front;
      } else {
        assert Immediate(info, cs) == front + [cs[n]];
        assert (front + [cs[n]])[..|front|] == front;
      }
    }
  }

  /**
   OUT data is delivered exactly once and in order: the transfers returned by successive reads carry what
   the handled OUT submits carried, one for one; the replies to these submits come in the same order, one
   for each, and report the length of the payload.
   */
  lemma OutDeliveredOnce(info: Info, es: seq<Event>)
    ensures var s, r := Run(info, es), Returned(info, es);
            var d := OutDataOf(s.hist.handled);
            && |r| == |d| && (forall k :: 0 <= k < |d| ==> Carries(r[k], d[k]))
            && OutDataOf(Commands(s.hist.log)) == d
            && s.hist.handled <= Arrivals(es)
            && forall e :: e in s.hist.log && OutData(e.cmd) ==>
                 e.rep == RetSubmit(e.cmd.base, Word32(|e.cmd.payload|), [])
  {
    hide LanesInv, IsStandard, StandardRequest, Deliveries, OutDataOf, Immediate, EpIndex, Carries, SizeOf32;
    RunInv(info, es);
    HistoryIsTrace(info, es, 0);
    var s := Run(info, es);
    DeliveriesCarry(info, s.hist.handled);
    OutDataOfImmediate(info, s.hist.handled);
    OutDataOfImmediate(info, Commands(s.hist.log));
    forall e | e in s.hist.log && OutData(e.cmd)
      ensures e.rep == RetSubmit(e.cmd.base, Word32(|e.cmd.payload|), [])
    {
      KindIs(info, e.cmd);
      assert EntryOk(info, e);
    }
  }
}
