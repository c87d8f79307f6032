/**
 Invariants of the device over every run, that is after any interleaving of commands arriving, commands
 being handled, writes, replies being taken, and a reset.
 */
module Runs {
  import opened Endian
  import opened UsbIp
  import opened Options
  import opened Usb
  import opened Engine
  import opened Pipes
  import opened Lanes

  predicate On(info: Info, i: nat, c: Cmd) {
    Parks(info, c) && EpIndex(c) == i
  }

  /** The commands that park on endpoint `i`, in order. */
  function Select(info: Info, i: nat, cs: seq<Cmd>): (r: seq<InCmd>) {
    if cs == [] then []
    else Select(info, i, cs[..|cs| - 1]) + if On(info, i, cs[|cs| - 1]) then [cs[|cs| - 1]] else []
  }

  /** The replies to commands that park on endpoint `i`, in order. */
  function SelectAnswers(info: Info, i: nat, es: seq<Entry>): (r: seq<Entry>) {
    if es == [] then []
    else SelectAnswers(info, i, es[..|es| - 1]) + if On(info, i, es[|es| - 1].cmd) then [es[|es| - 1]] else []
  }

  /** The commands that are answered as soon as they are handled, in order. */
  function Immediate(info: Info, cs: seq<Cmd>): (r: seq<Cmd>) {
    if cs == [] then []
    else Immediate(info, cs[..|cs| - 1]) + if Parks(info, cs[|cs| - 1]) then [] else [cs[|cs| - 1]]
  }

  /** The transfers that a list of handled commands amounts to. */
  function Deliveries(info: Info, cs: seq<Cmd>): (r: seq<Xfer>) {
    if cs == [] then []
    else Deliveries(info, cs[..|cs| - 1])
         + if Delivers(info, cs[|cs| - 1]) then [XferOf(info, cs[|cs| - 1])] else []
  }

  /** What endpoint `i` has seen so far. */
  function LaneOf(info: Info, s: Engine, i: nat): Lane
    requires Ready(info, s) && i < MAX_ENDPOINTS
  {
    Lane(s.pipes[i], Select(info, i, s.hist.handled), Select(info, i, s.hist.cancelled), s.hist.written[i],
         SelectAnswers(info, i, s.hist.log))
  }

  ghost predicate LanesInv(info: Info, s: Engine)
    requires Ready(info, s)
  {
    forall i :: 0 <= i < MAX_ENDPOINTS ==> Inv(LaneOf(info, s, i))
  }

  /** A reply answers its command, and its header counts the bytes transferred. */
  ghost predicate EntryOk(info: Info, e: Entry) {
    && e.rep.base == e.cmd.base
    && (e.rep.RetSubmit? <==> e.cmd.Submit?)
    && (e.cmd.Submit? && e.cmd.base.direction == DIR_IN ==> e.rep.actualLength == Word32(|e.rep.payload|))
    && (e.cmd.Submit? && e.cmd.base.direction != DIR_IN ==> e.rep.payload == [])
    && (Delivers(info, e.cmd) ==> e.rep.actualLength == Word32(|e.cmd.payload|))
    && (Parks(info, e.cmd) ==> EpIndex(e.cmd) < MAX_ENDPOINTS && |Payload(e.rep)| <= SizeOf32(e.cmd.length))
  }

  ghost predicate BookInv(info: Info, s: Engine) {
    var h := s.hist;
    && Immediate(info, Commands(h.log)) == Immediate(info, h.handled)
    && h.xfers == Deliveries(info, h.handled)
    && h.sent <= |h.log| && s.reps == Replies(h.log[h.sent..])
    && h.received == h.handled + h.dropped + s.cmds
    && |h.dropped| <= 1 && (h.dropped != [] ==> s.failed)
    && (forall e :: e in h.log ==> EntryOk(info, e))
    && (forall c :: c in h.handled && Parks(info, c) ==> EpIndex(c) < MAX_ENDPOINTS)
    && (forall c :: c in h.cancelled ==> c in h.handled && Parks(info, c))
  }

  ghost predicate EngineInv(info: Info, s: Engine) {
    Ready(info, s) && LanesInv(info, s) && BookInv(info, s)
  }

  // ----- selections of appended lists -----

  lemma SelectAppend(info: Info, i: nat, cs: seq<Cmd>, c: Cmd)
    ensures Select(info, i, cs + [c]) == Select(info, i, cs) + if On(info, i, c) then [c] else []
  {
    assert (cs + [c])[..|cs|] == cs;
  }

  lemma ImmediateAppend(info: Info, cs: seq<Cmd>, c: Cmd)
    ensures Immediate(info, cs + [c]) == Immediate(info, cs) + if Parks(info, c) then [] else [c]
    ensures Deliveries(info, cs + [c])
            == Deliveries(info, cs) + if Delivers(info, c) then [XferOf(info, c)] else []
  {
    assert (cs + [c])[..|cs|] == cs;
  }

  lemma {:induction false} AnswersAppend(info: Info, i: nat, a: seq<Entry>, b: seq<Entry>)
    ensures SelectAnswers(info, i, a + b) == SelectAnswers(info, i, a) + SelectAnswers(info, i, b)
  {
    hide On;
    if b == [] {
      assert a + b == a;
    } else {
      assert (a + b)[..|a + b| - 1] == a + b[..|b| - 1];
      AnswersAppend(info, i, a, b[..|b| - 1]);
    }
  }

  lemma {:induction false} AnswersAll(info: Info, i: nat, j: nat, es: seq<Entry>)
    requires forall e :: e in es ==> On(info, i, e.cmd)
    ensures SelectAnswers(info, j, es) == if j == i then es else []
  {
    hide Parks, EpIndex;
    if es != [] {
      AnswersAll(info, i, j, es[..|es| - 1]);
      assert es[|es| - 1] in es;
      assert es == es[..|es| - 1] + [es[|es| - 1]];
    }
  }

  lemma {:induction false} SelectAreOn(info: Info, i: nat, cs: seq<Cmd>)
    ensures forall c :: c in Select(info, i, cs) ==> On(info, i, c) && c in cs
  {
    hide On;
    if cs != [] {
      SelectAreOn(info, i, cs[..|cs| - 1]);
      assert cs == cs[..|cs| - 1] + [cs[|cs| - 1]];
    }
  }

  lemma {:induction false} ImmediateOfParked(info: Info, cs: seq<Cmd>, more: seq<Cmd>)
    requires forall c :: c in more ==> Parks(info, c)
    ensures Immediate(info, cs + more) == Immediate(info, cs)
  {
    hide Parks;
    if more == [] {
      assert cs + more == cs;
    } else {
      var n := |more| - 1;
      ImmediateOfParked(info, cs, more[..n]);
      assert cs + more == (cs + more[..n]) + [more[n]];
      ImmediateAppend(info, cs + more[..n], more[n]);
    }
  }

  /** Whatever waits on an endpoint belongs there. */
  lemma WaitingBelongs(info: Info, s: Engine, i: nat)
    requires EngineInv(info, s) && i < MAX_ENDPOINTS
    ensures forall c :: c in s.pipes[i].cmds ==> On(info, i, c) && c in s.hist.handled
  {
    hide BookInv, On;
    var l := LaneOf(info, s, i);
    assert Inv(l);
    SelectAreOn(info, i, s.hist.handled);
    var waiting: seq<Cmd> := l.pipe.cmds;
    forall c | c in s.pipes[i].cmds ensures On(info, i, c) && c in s.hist.handled {
      assert c in waiting;
      assert multiset(Plain(l.submitted))[c] > 0;
      assert c in Plain(l.submitted);
    }
  }

  // ----- how each kind of step moves the lanes -----

  lemma SendDataLanes(info: Info, s: Engine, i: nat, j: nat)
    requires Ready(info, s) && i < MAX_ENDPOINTS && j < MAX_ENDPOINTS
    requires forall c :: c in s.pipes[i].cmds ==> On(info, i, c)
    ensures Ready(info, SendData(s, i))
    ensures LaneOf(info, SendData(s, i), j) == if j == i then Settle(LaneOf(info, s, i)) else LaneOf(info, s, j)
  {
    hide On, Drain;
    var d := Drain(s.pipes[i]);
    EntriesBelong(info, s.pipes[i], i);
    AnswersAppend(info, j, s.hist.log, d.entries);
    AnswersAll(info, i, j, d.entries);
    assert SelectAnswers(info, j, s.hist.log) + [] == SelectAnswers(info, j, s.hist.log);
  }

  /** Replies produced by matching answer commands that waited on the endpoint. */
  lemma EntriesBelong(info: Info, p: Pipe, i: nat)
    requires forall c :: c in p.cmds ==> On(info, i, c)
    ensures forall e :: e in Drain(p).entries ==> On(info, i, e.cmd)
  {
    hide On, Drain;
    DrainOrder(p);
    var d := Drain(p);
    forall k | 0 <= k < |d.entries| ensures On(info, i, d.entries[k].cmd) {
      assert (Commands(d.entries) + d.pipe.cmds)[k] == d.entries[k].cmd;
    }
  }

  lemma OnOne(info: Info, i: nat, j: nat, c: Cmd)
    requires On(info, i, c)
    ensures On(info, j, c) <==> j == i
  {
  }

  lemma ParkLanes(info: Info, s: Engine, c: InCmd, i: nat, j: nat)
    requires Ready(info, s) && i < MAX_ENDPOINTS && j < MAX_ENDPOINTS
    requires On(info, i, c) && forall x :: x in s.pipes[i].cmds ==> On(info, i, x)
    ensures var s' := SendData(Park(Done(s, c), c, i), i);
            Ready(info, s') &&
            LaneOf(info, s', j) == if j == i then ParkOn(LaneOf(info, s, i), c) else LaneOf(info, s, j)
  {
    hide On, Settle, SendData, Select, SelectAnswers;
    var q := Park(Done(s, c), c, i);
    assert On(info, j, c) <==> j == i by { OnOne(info, i, j, c); }
    SelectAppend(info, j, s.hist.handled, c);
    assert Select(info, j, s.hist.handled) + [] == Select(info, j, s.hist.handled);
    assert s.pipes[i].data + [] == s.pipes[i].data;
    SendDataLanes(info, q, i, j);
  }

  lemma WriteLanes(info: Info, s: Engine, ep: Byte, bytes: seq<Byte>, j: nat)
    requires Ready(info, s) && j < MAX_ENDPOINTS && !s.failed
    requires forall x :: x in s.pipes[WriteIndex(ep)].cmds ==> On(info, WriteIndex(ep), x)
    ensures Ready(info, Write(s, ep, bytes))
    ensures LaneOf(info, Write(s, ep, bytes), j)
            == if j == WriteIndex(ep) then WriteTo(LaneOf(info, s, j), bytes) else LaneOf(info, s, j)
  {
    hide On, Settle, WriteIndex, SendData;
    var i := WriteIndex(ep);
    var p := s.pipes[i].(data := s.pipes[i].data + [Chunk(bytes, 0)]);
    var h := s.hist.(written := s.hist.written[i := s.hist.written[i] + [bytes]]);
    var q := s.(pipes := s.pipes[i := p], hist := h);
    assert s.pipes[i].cmds + [] == s.pipes[i].cmds;
    SendDataLanes(info, q, i, j);
  }

  lemma CancelLanes(info: Info, s: Engine, q: bv32, j: nat)
    requires Ready(info, s) && j < MAX_ENDPOINTS
    requires forall i, x :: 0 <= i < MAX_ENDPOINTS && x in s.pipes[i].cmds ==> On(info, i, x)
    ensures Ready(info, Cancel(s, q))
    ensures var i := FirstPipeWith(s.pipes, q);
            LaneOf(info, Cancel(s, q), j)
            == if j == i then CancelOn(LaneOf(info, s, j), FirstWith(s.pipes[i].cmds, q)) else LaneOf(info, s, j)
  {
    hide Parks, EpIndex, FirstWith, FirstPipeWith;
    var i := FirstPipeWith(s.pipes, q);
    if i < MAX_ENDPOINTS {
      var x := s.pipes[i].cmds[FirstWith(s.pipes[i].cmds, q)];
      assert On(info, i, x);
      SelectAppend(info, j, s.hist.cancelled, x);
      assert Select(info, j, s.hist.cancelled) + [] == Select(info, j, s.hist.cancelled);
    }
  }

  /** A command that is answered at once leaves every lane as it is. */
  lemma ImmediateLanes(info: Info, s: Engine, c: Cmd, r: Rep, j: nat)
    requires Ready(info, s) && j < MAX_ENDPOINTS && !Parks(info, c)
    ensures LaneOf(info, Queue(Done(s, c), [Entry(c, r)]), j) == LaneOf(info, s, j)
  {
    hide Parks, EpIndex;
    SelectAppend(info, j, s.hist.handled, c);
    AnswersAppend(info, j, s.hist.log, [Entry(c, r)]);
    assert SelectAnswers(info, j, [Entry(c, r)]) == [];
    assert SelectAnswers(info, j, s.hist.log) + [] == SelectAnswers(info, j, s.hist.log);
    assert Select(info, j, s.hist.handled) + [] == Select(info, j, s.hist.handled);
  }

  // ----- how each kind of step moves the books -----

  lemma RepliesAppend(es: seq<Entry>, more: seq<Entry>, n: nat)
    requires n <= |es|
    ensures Replies((es + more)[n..]) == Replies(es[n..]) + Replies(more)
  {
  }

  lemma {:induction false} DrainedEntriesOk(info: Info, p: Pipe, i: nat)
    requires i < MAX_ENDPOINTS && forall c :: c in p.cmds ==> On(info, i, c)
    ensures forall e :: e in Drain(p).entries ==> EntryOk(info, e)
    decreases |p.cmds|
  {
    hide Word32, Served, IsStandard, EpIndex, Signed32, SizeOf32;
    if !Idle(p) {
      DrainStep(p);
      DrainedEntriesOk(info, ServeOne(p), i);
      assert On(info, i, p.cmds[0]);
      ServedFills(p.cmds[0], p.data[0]);
      assert EntryOk(info, ServedEntry(p.cmds[0], p.data[0]));
    }
  }

  /** Matching parked commands of an endpoint keeps the books. */
  lemma SendDataBooks(info: Info, s: Engine, i: nat)
    requires i < |s.pipes| <= MAX_ENDPOINTS && BookInv(info, s)
    requires forall c :: c in s.pipes[i].cmds ==> On(info, i, c)
    ensures BookInv(info, SendData(s, i))
  {
    hide Drain, EntryOk, Parks, EpIndex, Immediate, Deliveries;
    var es, h := Drain(s.pipes[i]).entries, s.hist;
    EntriesBelong(info, s.pipes[i], i);
    DrainedEntriesOk(info, s.pipes[i], i);
    CommandsAppend(h.log, es);
    ImmediateOfParked(info, Commands(h.log), Commands(es));
    RepliesAppend(h.log, es, h.sent);
  }

  lemma ParkBooks(info: Info, s: Engine, c: InCmd, i: nat)
    requires i < |s.pipes| <= MAX_ENDPOINTS && On(info, i, c)
    requires forall x :: x in s.pipes[i].cmds ==> On(info, i, x)
    requires BookInv(info, s.(cmds := [c] + s.cmds)) && !s.failed
    ensures BookInv(info, SendData(Park(Done(s, c), c, i), i))
  {
    hide EntryOk, IsStandard, EpIndex, Immediate, Deliveries, SendData;
    ImmediateAppend(info, s.hist.handled, c);
    assert s.hist.handled + [] + ([c] + s.cmds) == s.hist.handled + [c] + [] + s.cmds;
    SendDataBooks(info, Park(Done(s, c), c, i), i);
  }

  /** A command that is answered at once is entered as handled and answered. */
  lemma ImmediateBooks(info: Info, s: Engine, c: Cmd, r: Rep)
    requires !Parks(info, c) && EntryOk(info, Entry(c, r)) && !s.failed
    requires BookInv(info, s.(cmds := [c] + s.cmds))
    ensures var t := Queue(Done(s, c), [Entry(c, r)]);
            var more := if Delivers(info, c) then [XferOf(info, c)] else [];
            BookInv(info, t.(hist := t.hist.(xfers := t.hist.xfers + more)))
  {
    hide EntryOk, Parks, Delivers, Immediate, Deliveries, XferOf;
    var h := s.hist;
    ImmediateAppend(info, h.handled, c);
    assert Commands(h.log + [Entry(c, r)]) == Commands(h.log) + [c];
    ImmediateAppend(info, Commands(h.log), c);
    RepliesAppend(h.log, [Entry(c, r)], h.sent);
    assert h.handled + [] + ([c] + s.cmds) == h.handled + [c] + [] + s.cmds;
  }

  lemma FailBooks(info: Info, s: Engine, c: Cmd)
    requires BookInv(info, s.(cmds := [c] + s.cmds)) && !s.failed
    ensures BookInv(info, Fail(s, c).state)
  {
    hide EntryOk, Immediate, Deliveries;
    var h := s.hist;
    assert h.handled + [] + ([c] + s.cmds) == h.handled + [c] + s.cmds;
  }

  // ----- every step keeps the invariants -----

  lemma FailKeeps(info: Info, s: Engine, c: Cmd)
    requires EngineInv(info, s.(cmds := [c] + s.cmds)) && !s.failed
    ensures EngineInv(info, Fail(s, c).state)
  {
    hide BookInv, Inv;
    FailBooks(info, s, c);
    SameLanes(info, s.(cmds := [c] + s.cmds), Fail(s, c).state);
  }

  lemma SameLanes(info: Info, s: Engine, t: Engine)
    requires Ready(info, s) && LanesInv(info, s) && Ready(info, t) && t.pipes == s.pipes
    requires t.hist.handled == s.hist.handled && t.hist.cancelled == s.hist.cancelled
    requires t.hist.written == s.hist.written && t.hist.log == s.hist.log
    ensures LanesInv(info, t)
  {
    hide Inv;
    forall i | 0 <= i < MAX_ENDPOINTS ensures Inv(LaneOf(info, t, i)) {
      assert LaneOf(info, t, i) == LaneOf(info, s, i);
    }
  }

  /** Handling a command that is answered at once, with any change of the active configuration. */
  lemma ImmediateKeeps(info: Info, s: Engine, c: Cmd, r: Rep)
    requires EngineInv(info, s.(cmds := [c] + s.cmds)) && !s.failed
    requires !Parks(info, c) && EntryOk(info, Entry(c, r))
    ensures var t := Queue(Done(s, c), [Entry(c, r)]);
            var more := if Delivers(info, c) then [XferOf(info, c)] else [];
            EngineInv(info, t.(hist := t.hist.(xfers := t.hist.xfers + more)))
  {
    hide Parks, IsStandard, Inv, EntryOk, BookInv;
    ImmediateBooks(info, s, c, r);
    SameLanes(info, s.(cmds := [c] + s.cmds), s);
    forall j | 0 <= j < MAX_ENDPOINTS ensures Inv(LaneOf(info, Queue(Done(s, c), [Entry(c, r)]), j)) {
      ImmediateLanes(info, s, c, r, j);
      assert Inv(LaneOf(info, s, j));
    }
    var t := Queue(Done(s, c), [Entry(c, r)]);
    var more := if Delivers(info, c) then [XferOf(info, c)] else [];
    SameLanes(info, t, t.(hist := t.hist.(xfers := t.hist.xfers + more)));
  }

  lemma CancelKeepsAll(info: Info, s: Engine, q: bv32)
    requires EngineInv(info, s)
    ensures EngineInv(info, Cancel(s, q))
  {
    hide On, Inv, BookInv, FirstWith, FirstPipeWith, CancelOn;
    assert Ready(info, Cancel(s, q));
    hide Cancel;
    forall i, x | 0 <= i < MAX_ENDPOINTS && x in s.pipes[i].cmds ensures On(info, i, x) {
      WaitingBelongs(info, s, i);
    }
    var i := FirstPipeWith(s.pipes, q);
    CancelLanes(info, s, q, 0);
    forall j | 0 <= j < MAX_ENDPOINTS ensures Inv(LaneOf(info, Cancel(s, q), j)) {
      CancelLanes(info, s, q, j);
      assert Inv(LaneOf(info, s, j));
      if j == i {
        CancelKeeps(LaneOf(info, s, j), FirstWith(s.pipes[i].cmds, q));
      }
    }
    CancelBooks(info, s, q);
  }

  lemma CancelBooks(info: Info, s: Engine, q: bv32)
    requires EngineInv(info, s)
    ensures BookInv(info, Cancel(s, q))
  {
    hide EntryOk, Parks, EpIndex, Inv, Immediate, Deliveries;
    var i, h := FirstPipeWith(s.pipes, q), s.hist;
    if i < |s.pipes| {
      WaitingBelongs(info, s, i);
      var x := s.pipes[i].cmds[FirstWith(s.pipes[i].cmds, q)];
      assert On(info, i, x) && x in h.handled;
      var cancelled: seq<Cmd> := h.cancelled + [x];
      assert forall c :: c in cancelled ==> c in h.handled && Parks(info, c);
    }
  }

  lemma UnlinkKeeps(info: Info, s: Engine, c: Cmd)
    requires EngineInv(info, s.(cmds := [c] + s.cmds)) && !s.failed && c.Unlink?
    ensures EngineInv(info, HandleUnlink(info, s, c).state)
  {
    hide EngineInv, EpIndex, FirstPipeWith, Cancel;
    if EpIndex(c) >= MAX_ENDPOINTS {
      FailKeeps(info, s, c);
    } else {
      CancelKeepsAll(info, s.(cmds := [c] + s.cmds), c.target);
      var t := Cancel(s, c.target);
      assert t.(cmds := [c] + t.cmds) == Cancel(s.(cmds := [c] + s.cmds), c.target) && !t.failed
        by { CancelElsewhere(s, c.target, [c] + s.cmds); }
      var status := if FirstPipeWith(s.pipes, c.target) < |s.pipes| then NEG_ECONNRESET else 0;
      ImmediateKeeps(info, t, c, MakeReply(c, None, 0, status));
      var u := Queue(Done(t, c), [Entry(c, MakeReply(c, None, 0, status))]);
      assert u.(hist := u.hist.(xfers := u.hist.xfers + [])) == u;
    }
  }

  lemma CancelElsewhere(s: Engine, q: bv32, cmds: seq<Cmd>)
    ensures Cancel(s.(cmds := cmds), q) == Cancel(s, q).(cmds := cmds)
    ensures Cancel(s, q).failed == s.failed && Cancel(s, q).cmds == s.cmds
    ensures Cancel(s, q).hist.log == s.hist.log && Cancel(s, q).hist.handled == s.hist.handled
  {
  }

  lemma StandardKeeps(info: Info, s: Engine, c: Cmd)
    requires EngineInv(info, s.(cmds := [c] + s.cmds)) && !s.failed && IsStandard(info, c)
    ensures EngineInv(info, HandleStandardCmd(info, s, c).state)
  {
    hide EngineInv, HandleStandard, StandardType, GetSetup, Word32;
    assert Ready(info, s) by { ReadyOf(info, s.(cmds := [c] + s.cmds)); }
    match HandleStandard(info, s.config, c)
    case Rejected => FailKeeps(info, s, c);
    case Accepted(data, config) =>
      var t := s.(config := config);
      var len := if data.Some? then |data.value| else 0;
      var r := MakeReply(c, data, len, 0);
      ConfigKeeps(info, s.(cmds := [c] + s.cmds), config);
      ImmediateKeeps(info, t, c, r);
      var u := Queue(Done(t, c), [Entry(c, r)]);
      assert u.(hist := u.hist.(xfers := u.hist.xfers + [])) == u;
  }

  lemma BooksOf(info: Info, s: Engine)
    requires EngineInv(info, s)
    ensures Ready(info, s) && BookInv(info, s)
  {
  }

  lemma ReadyOf(info: Info, s: Engine)
    requires EngineInv(info, s)
    ensures Ready(info, s)
  {
  }

  lemma ConfigKeeps(info: Info, s: Engine, config: Option<nat>)
    requires EngineInv(info, s) && (config.Some? ==> config.value < |info.configs|)
    ensures EngineInv(info, s.(config := config))
  {
    hide Inv, EntryOk;
    SameLanes(info, s, s.(config := config));
  }

  lemma OutKeeps(info: Info, s: Engine, c: Cmd)
    requires EngineInv(info, s.(cmds := [c] + s.cmds)) && !s.failed && Delivers(info, c)
    ensures EngineInv(info, HandleOut(info, s, c).state)
  {
    hide EngineInv, EpIndex, IsStandard, XferOf, Word32;
    if EpIndex(c) >= MAX_ENDPOINTS {
      FailKeeps(info, s, c);
    } else {
      ImmediateKeeps(info, s, c, MakeReply(c, None, |c.payload|, 0));
    }
  }

  lemma InKeeps(info: Info, s: Engine, c: InCmd)
    requires EngineInv(info, s.(cmds := [c] + s.cmds)) && !s.failed && Parks(info, c)
    ensures EngineInv(info, HandleIn(info, s, c).state)
  {
    hide EpIndex, Inv, BookInv, Parks, SendData;
    var i := EpIndex(c);
    if i >= MAX_ENDPOINTS {
      FailKeeps(info, s, c);
    } else {
      var s0 := s.(cmds := [c] + s.cmds);
      WaitingBelongs(info, s0, i);
      ParkBooks(info, s, c, i);
      var s' := SendData(Park(Done(s, c), c, i), i);
      ParkLanes(info, s, c, i, i);
      forall j | 0 <= j < MAX_ENDPOINTS ensures Inv(LaneOf(info, s', j)) {
        ParkLanes(info, s, c, i, j);
        assert LaneOf(info, s, j) == LaneOf(info, s0, j);
        assert Inv(LaneOf(info, s0, j));
        if j == i {
          ParkKeeps(LaneOf(info, s, i), c);
        }
      }
    }
  }

  lemma HandleKeeps(info: Info, s: Engine, c: Cmd)
    requires EngineInv(info, s.(cmds := [c] + s.cmds)) && !s.failed
    ensures EngineInv(info, Handle(info, s, c).state)
  {
    hide EngineInv, IsStandard, HandleUnlink, HandleStandardCmd, HandleOut, HandleIn;
    ReadyOf(info, s.(cmds := [c] + s.cmds));
    if c.Unlink? {
      UnlinkKeeps(info, s, c);
    } else if IsStandard(info, c) {
      StandardKeeps(info, s, c);
    } else if c.base.direction == DIR_OUT {
      OutKeeps(info, s, c);
    } else if c.base.direction == DIR_IN {
      InKeeps(info, s, c);
    } else {
      FailKeeps(info, s, c);
    }
  }

  lemma ProcessKeeps(info: Info, s: Engine)
    requires EngineInv(info, s)
    ensures EngineInv(info, Process(info, s).state)
  {
    hide EngineInv, Handle;
    ReadyOf(info, s);
    if !s.failed && s.cmds != [] {
      var t := s.(cmds := s.cmds[1..]);
      assert t.(cmds := [s.cmds[0]] + t.cmds) == s;
      HandleKeeps(info, t, s.cmds[0]);
    }
  }

  lemma WriteKeepsAll(info: Info, s: Engine, ep: Byte, bytes: seq<Byte>)
    requires EngineInv(info, s)
    ensures EngineInv(info, Write(s, ep, bytes))
  {
    hide Inv, BookInv, On, WriteTo, WriteIndex;
    if !s.failed {
      var i := WriteIndex(ep);
      WaitingBelongs(info, s, i);
      WriteLanes(info, s, ep, bytes, i);
      forall j | 0 <= j < MAX_ENDPOINTS ensures Inv(LaneOf(info, Write(s, ep, bytes), j)) {
        WriteLanes(info, s, ep, bytes, j);
        assert Inv(LaneOf(info, s, j));
        if j == i {
          WriteKeeps(LaneOf(info, s, j), bytes);
        }
      }
      WriteBooks(info, s, ep, bytes);
    }
  }

  lemma WriteBooks(info: Info, s: Engine, ep: Byte, bytes: seq<Byte>)
    requires Ready(info, s) && BookInv(info, s) && !s.failed
    requires forall c :: c in s.pipes[WriteIndex(ep)].cmds ==> On(info, WriteIndex(ep), c)
    ensures BookInv(info, Write(s, ep, bytes))
  {
    hide EntryOk, On, SendData, WriteIndex;
    var i := WriteIndex(ep);
    var p := s.pipes[i].(data := s.pipes[i].data + [Chunk(bytes, 0)]);
    var h := s.hist.(written := s.hist.written[i := s.hist.written[i] + [bytes]]);
    SendDataBooks(info, s.(pipes := s.pipes[i := p], hist := h), i);
  }

  lemma ArriveKeeps(info: Info, s: Engine, c: Cmd)
    requires EngineInv(info, s)
    ensures EngineInv(info, Arrive(s, c))
  {
    hide Inv, EntryOk, Parks;
    SameLanes(info, s, Arrive(s, c));
    assert s.hist.handled + s.hist.dropped + (s.cmds + [c]) == s.hist.handled + s.hist.dropped + s.cmds + [c];
  }

  lemma TakeReplyKeeps(info: Info, s: Engine)
    requires EngineInv(info, s)
    ensures EngineInv(info, TakeReply(s))
  {
    hide Inv, EntryOk, Parks;
    SameLanes(info, s, TakeReply(s));
    if !s.failed && s.reps != [] {
      assert s.hist.log[s.hist.sent..][1..] == s.hist.log[s.hist.sent + 1..];
    }
  }

  lemma HaltKeeps(info: Info, s: Engine)
    requires EngineInv(info, s)
    ensures EngineInv(info, s.(failed := true))
  {
    hide Inv, EntryOk, Parks;
    SameLanes(info, s, s.(failed := true));
  }

  lemma StepKeeps(info: Info, s: Engine, e: Event)
    requires EngineInv(info, s)
    ensures EngineInv(info, Step(info, s, e))
  {
    hide EngineInv, Process, Write, Arrive, TakeReply;
    ReadyOf(info, s);
    match e
    case Arrival(c) => ArriveKeeps(info, s, c);
    case Processing => ProcessKeeps(info, s);
    case Writing(ep, bytes) => WriteKeepsAll(info, s, ep, bytes);
    case Taking => TakeReplyKeeps(info, s);
    case Halt => HaltKeeps(info, s);
  }

  lemma InitInv(info: Info)
    ensures EngineInv(info, Init())
  {
    forall i | 0 <= i < MAX_ENDPOINTS ensures Inv(LaneOf(info, Init(), i)) {
      assert LaneOf(info, Init(), i) == Lane(Pipe([], []), [], [], [], []);
    }
  }

  /** The invariants hold in every reachable state. */
  lemma {:induction false} RunInv(info: Info, es: seq<Event>)
    ensures EngineInv(info, Run(info, es))
  {
    hide EngineInv, Step;
    if es == [] {
      InitInv(info);
    } else {
      RunInv(info, es[..|es| - 1]);
      StepKeeps(info, Run(info, es[..|es| - 1]), es[|es| - 1]);
    }
  }
}
