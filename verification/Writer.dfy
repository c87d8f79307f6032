/**
 The write thread beside everything else. It takes a reply under the lock and then sends its bytes
 without the lock, a piece at a time, while other threads queue more replies, handle commands or reset
 the device. Whatever the interleaving, the bytes on the wire are a prefix of the replies as logged.
 */
module Writer {
  import opened Endian
  import opened UsbIp
  import opened Options
  import opened Usb
  import opened Engine
  import opened Pipes
  import opened Runs
  import opened Promises

  /** The device, the bytes that the write thread has still to send, and those it has sent. */
  datatype System = System(device: Engine, pending: seq<Byte>, wire: seq<Byte>)

  datatype Action =
    | Other(event: Event)  // a locked step of another thread
    | Take                 // the write thread dequeues a reply, once the one before is sent
    | Send(n: nat)         // `send` accepts `n` bytes

  function Begin(): System { System(Init(), [], []) }

  /** The write thread takes replies itself, so `Taking` is not a step of another thread. */
  predicate Possible(y: System, a: Action) {
    match a
    case Other(e) => !e.Taking?
    case Take => y.pending == [] && y.device.reps != [] && !y.device.failed
    case Send(n) => 0 < n <= |y.pending|
  }

  function Act(info: Info, y: System, a: Action): (y': System)
    requires Ready(info, y.device) && Possible(y, a)
    ensures Ready(info, y'.device)
  {
    match a
    case Other(e) => y.(device := Step(info, y.device, e))
    case Take =>
      var r := y.device.reps[0];
      y.(device := Step(info, y.device, Taking), pending := HeaderImage(info.little, r) + Payload(r))
    case Send(n) => y.(pending := y.pending[n..], wire := y.wire + y.pending[..n])
  }

  /** `ys` is the sequence of states that the actions `acts` lead through. */
  ghost predicate IsRun(info: Info, ys: seq<System>, acts: seq<Action>) {
    && |ys| == |acts| + 1 && ys[0] == Begin()
    && forall k :: 0 <= k < |acts| ==>
         Ready(info, ys[k].device) && Possible(ys[k], acts[k]) && ys[k + 1] == Act(info, ys[k], acts[k])
  }

  /** What has been sent and what is being sent are the replies taken so far. */
  ghost predicate WireInv(info: Info, y: System) {
    && EngineInv(info, y.device)
    && y.wire + y.pending == Serialise(info.little, Replies(y.device.hist.log[..y.device.hist.sent]))
  }

  lemma SentUnchanged(info: Info, s: Engine, e: Event)
    requires Ready(info, s) && !e.Taking?
    ensures Step(info, s, e).hist.sent == s.hist.sent
  {
    hide HandleStandard, IsStandard, EpIndex, MakeReply, XferOf, Drain, WriteIndex, Cancel;
    if e.Processing? && s.cmds != [] && s.cmds[0].Unlink? {
      CancelHistory(s.(cmds := s.cmds[1..]), s.cmds[0].target);
    }
  }

  lemma OtherKeeps(info: Info, y: System, e: Event)
    requires WireInv(info, y) && !e.Taking?
    ensures WireInv(info, y.(device := Step(info, y.device, e)))
  {
    hide LanesInv, EntryOk, Step, Immediate, Deliveries;
    StepKeeps(info, y.device, e);
    StepGrows(info, y.device, e);
    SentUnchanged(info, y.device, e);
    var s, t := y.device, Step(info, y.device, e);
    assert t.hist.log[..t.hist.sent] == s.hist.log[..s.hist.sent];
  }

  lemma TakeKeeps(info: Info, y: System)
    requires WireInv(info, y) && Possible(y, Take)
    ensures WireInv(info, Act(info, y, Take))
  {
    hide LanesInv, EntryOk, HeaderImage, Payload, Immediate, Deliveries;
    StepKeeps(info, y.device, Taking);
    var h, r := y.device.hist, y.device.reps[0];
    assert r == h.log[h.sent].rep;
    assert Replies(h.log[..h.sent + 1]) == Replies(h.log[..h.sent]) + [r];
    SerialiseAppend(info.little, Replies(h.log[..h.sent]), [r]);
    assert Serialise(info.little, [r]) == HeaderImage(info.little, r) + Payload(r) by {
      assert [r][1..] == [];
    }
  }

  lemma SendKeeps(info: Info, y: System, n: nat)
    requires WireInv(info, y) && Possible(y, Send(n))
    ensures WireInv(info, Act(info, y, Send(n)))
  {
    hide EngineInv;
    assert y.wire + y.pending[..n] + y.pending[n..] == y.wire + y.pending;
  }

  lemma {:induction false} WireInvAlways(info: Info, ys: seq<System>, acts: seq<Action>, k: nat)
    requires IsRun(info, ys, acts) && k <= |acts|
    ensures WireInv(info, ys[k])
  {
    hide WireInv, Act;
    if k == 0 {
      assert WireInv(info, Begin()) by { BeginInv(info); }
    } else {
      WireInvAlways(info, ys, acts, k - 1);
      var y := ys[k - 1];
      assert ys[k - 1 + 1] == Act(info, y, acts[k - 1]);
      match acts[k - 1]
      case Other(e) =>
        assert Ready(info, y.device);
        OtherKeeps(info, y, e);
        assert Act(info, y, acts[k - 1]) == y.(device := Step(info, y.device, e)) by { OtherAct(info, y, e); }
      case Take => TakeKeeps(info, y);
      case Send(n) => SendKeeps(info, y, n);
    }
  }

  lemma OtherAct(info: Info, y: System, e: Event)
    requires Ready(info, y.device) && Possible(y, Other(e))
    ensures Act(info, y, Other(e)) == y.(device := Step(info, y.device, e))
  {
  }

  lemma BeginInv(info: Info)
    ensures WireInv(info, Begin())
  {
    InitInv(info);
  }

  lemma SerialiseSplit(little: bool, es: seq<Entry>, n: nat)
    requires n <= |es|
    ensures Serialise(little, Replies(es)) == Serialise(little, Replies(es[..n])) + Serialise(little, Replies(es[n..]))
  {
    hide Serialise;
    assert Replies(es) == Replies(es[..n]) + Replies(es[n..]);
    SerialiseAppend(little, Replies(es[..n]), Replies(es[n..]));
  }

  /** The replies queued are those not yet taken. */
  lemma QueuedReplies(info: Info, s: Engine)
    requires EngineInv(info, s)
    ensures s.hist.sent <= |s.hist.log| && s.reps == Replies(s.hist.log[s.hist.sent..])
  {
    hide LanesInv, EntryOk, Immediate, Deliveries, Parks;
  }

  lemma PrefixOnWire(info: Info, y: System)
    requires WireInv(info, y)
    ensures y.wire <= Serialise(info.little, Replies(y.device.hist.log))
    ensures y.pending == [] && y.device.reps == [] ==> y.wire == Serialise(info.little, Replies(y.device.hist.log))
  {
    hide EngineInv, HeaderImage, Payload;
    QueuedReplies(info, y.device);
    var h := y.device.hist;
    SerialiseSplit(info.little, h.log, h.sent);
    var taken, rest := Serialise(info.little, Replies(h.log[..h.sent])), Serialise(info.little, Replies(h.log[h.sent..]));
    assert y.wire + (y.pending + rest) == taken + rest;
  }

  /** In every state of every interleaving, what the peer has received is a prefix of the logged replies. */
  lemma WirePrefix(info: Info, ys: seq<System>, acts: seq<Action>, k: nat)
    requires IsRun(info, ys, acts) && k <= |acts|
    ensures ys[k].wire <= Serialise(info.little, Replies(ys[k].device.hist.log))
    ensures ys[k].pending == [] && ys[k].device.reps == [] ==>
              ys[k].wire == Serialise(info.little, Replies(ys[k].device.hist.log))
  {
    hide WireInv, Act, Serialise;
    WireInvAlways(info, ys, acts, k);
    PrefixOnWire(info, ys[k]);
  }

  // ----- the peer can parse the stream -----

  /** The `_reply` invariant: the header counts the payload, unless the payload is too long for its field. */
  lemma FramedReply(info: Info, e: Entry)
    requires EntryOk(info, e)
    ensures Framed(e.rep) <==> |Payload(e.rep)| < TWO31
  {
    hide Word32, Signed32, IsStandard, EpIndex;
    SignedWord(|Payload(e.rep)|);
  }

  ghost predicate ShortData(ds: seq<Data>) {
    forall d :: d in ds ==> |d.bytes| < TWO31
  }

  ghost predicate ShortPayloads(es: seq<Entry>) {
    forall e :: e in es ==> |Payload(e.rep)| < TWO31
  }

  ghost predicate AllShort(s: Engine) {
    ShortPayloads(s.hist.log) && forall i :: 0 <= i < |s.pipes| ==> ShortData(s.pipes[i].data)
  }

  lemma {:induction false} DrainShort(p: Pipe)
    requires ShortData(p.data)
    ensures ShortPayloads(Drain(p).entries) && ShortData(Drain(p).pipe.data)
    decreases |p.cmds|
  {
    hide ServedEntry, Served, Drain, Payload;
    if Idle(p) {
      DrainIdle(p);
    } else {
      DrainStep(p);
      ServedPayload(p.cmds[0], p.data[0]);
      assert p.data[0] in p.data;
      DrainShort(ServeOne(p));
    }
  }

  lemma SendDataShort(s: Engine, i: nat)
    requires i < |s.pipes| && AllShort(s)
    ensures AllShort(SendData(s, i))
  {
    hide Drain, Payload, ShortData;
    DrainShort(s.pipes[i]);
  }

  lemma StandardShort(info: Info, config: Option<nat>, c: Cmd)
    requires c.Submit? && (config.Some? ==> config.value < |info.configs|)
    ensures var r := HandleStandard(info, config, c);
            r.Accepted? && r.data.Some? ==> |r.data.value| < TWO31
  {
    hide GetSetup, Kind, LowValue, PickDescriptor;
  }

  lemma QueueShort(s: Engine, c: Cmd, r: Rep)
    requires AllShort(s) && |Payload(r)| < TWO31
    ensures AllShort(Queue(Done(s, c), [Entry(c, r)]))
  {
    hide Payload, ShortData;
  }

  lemma CancelShort(s: Engine, q: bv32)
    requires AllShort(s)
    ensures AllShort(Cancel(s, q))
  {
    hide FirstPipeWith, FirstWith;
  }

  lemma HandleShort(info: Info, s: Engine, c: Cmd)
    requires Ready(info, s) && AllShort(s)
    ensures AllShort(Handle(info, s, c).state)
  {
    hide HandleStandard, StandardType, GetSetup, EpIndex, Word32, Drain, Cancel, AllShort, FirstPipeWith, XferOf;
    if c.Unlink? {
      CancelShort(s, c.target);
      var status := if FirstPipeWith(s.pipes, c.target) < |s.pipes| then NEG_ECONNRESET else 0;
      QueueShort(Cancel(s, c.target), c, MakeReply(c, None, 0, status));
      FailShort(s, c);
    } else if IsStandard(info, c) {
      StandardShort(info, s.config, c);
      FailShort(s, c);
      var r := HandleStandard(info, s.config, c);
      if r.Accepted? {
        ConfigShort(s, r.config);
        var len := if r.data.Some? then |r.data.value| else 0;
        QueueShort(s.(config := r.config), c, MakeReply(c, r.data, len, 0));
      }
    } else if c.base.direction == DIR_OUT {
      FailShort(s, c);
      QueueShort(s, c, MakeReply(c, None, |c.payload|, 0));
      XfersShort(Queue(Done(s, c), [Entry(c, MakeReply(c, None, |c.payload|, 0))]), [XferOf(info, c)]);
    } else if c.base.direction == DIR_IN && EpIndex(c) < MAX_ENDPOINTS {
      ParkShort(s, c, EpIndex(c));
      SendDataShort(Park(Done(s, c), c, EpIndex(c)), EpIndex(c));
    } else {
      FailShort(s, c);
    }
  }

  lemma FailShort(s: Engine, c: Cmd)
    requires AllShort(s)
    ensures AllShort(Fail(s, c).state)
  {
  }

  lemma ConfigShort(s: Engine, config: Option<nat>)
    requires AllShort(s)
    ensures AllShort(s.(config := config))
  {
  }

  lemma XfersShort(s: Engine, more: seq<Xfer>)
    requires AllShort(s)
    ensures AllShort(s.(hist := s.hist.(xfers := s.hist.xfers + more)))
  {
  }

  lemma ParkShort(s: Engine, c: InCmd, i: nat)
    requires AllShort(s) && i < |s.pipes|
    ensures AllShort(Park(Done(s, c), c, i))
  {
    hide Payload, ShortData;
  }

  lemma StepShort(info: Info, s: Engine, e: Event)
    requires Ready(info, s) && AllShort(s) && (e.Writing? ==> |e.bytes| < TWO31)
    ensures AllShort(Step(info, s, e))
  {
    hide Handle, SendData, WriteIndex, Payload;
    match e
    case Processing =>
      if !s.failed && s.cmds != [] {
        HandleShort(info, s.(cmds := s.cmds[1..]), s.cmds[0]);
      }
    case Writing(ep, bytes) =>
      if !s.failed {
        var i := WriteIndex(ep);
        var p := s.pipes[i].(data := s.pipes[i].data + [Chunk(bytes, 0)]);
        var h := s.hist.(written := s.hist.written[i := s.hist.written[i] + [bytes]]);
        assert ShortData(p.data);
        SendDataShort(s.(pipes := s.pipes[i := p], hist := h), i);
      }
    case _ =>
  }

  ghost predicate ShortActions(acts: seq<Action>) {
    forall a :: a in acts && a.Other? && a.event.Writing? ==> |a.event.bytes| < TWO31
  }

  lemma {:induction false} ShortAlways(info: Info, ys: seq<System>, acts: seq<Action>, k: nat)
    requires IsRun(info, ys, acts) && k <= |acts| && ShortActions(acts)
    ensures AllShort(ys[k].device)
  {
    hide AllShort, Step;
    if k == 0 {
      assert AllShort(Init()) by { InitShort(); }
    } else {
      ShortAlways(info, ys, acts, k - 1);
      var y, a := ys[k - 1], acts[k - 1];
      assert ys[k - 1 + 1] == Act(info, y, a);
      assert a in acts;
      if a.Other? {
        StepShort(info, y.device, a.event);
      } else if a.Take? {
        StepShort(info, y.device, Taking);
      }
    }
  }

  lemma InitShort()
    ensures AllShort(Init())
  {
  }

  /**
   The peer parses what it has received into a prefix of the logged replies, in order, at every moment of
   every interleaving; and into all of them once the write thread has caught up.
   */
  lemma PeerReadsReplies(info: Info, ys: seq<System>, acts: seq<Action>, k: nat)
    requires IsRun(info, ys, acts) && k <= |acts| && ShortActions(acts)
    ensures ParseReplies(ys[k].wire) <= Replies(ys[k].device.hist.log)
    ensures ys[k].pending == [] && ys[k].device.reps == [] ==>
              ParseReplies(ys[k].wire) == Replies(ys[k].device.hist.log)
  {
    hide LanesInv, EntryOk, Framed, Payload, ParseReplies, Act, Immediate, Deliveries, Parks, IsStandard;
    WireInvAlways(info, ys, acts, k);
    ShortAlways(info, ys, acts, k);
    WirePrefix(info, ys, acts, k);
    var log := ys[k].device.hist.log;
    forall r | r in Replies(log) ensures Framed(r) {
      var j :| 0 <= j < |log| && log[j].rep == r;
      FramedReply(info, log[j]);
      assert log[j] in log;
    }
    PartialReplyStream(info.little, Replies(log), ys[k].wire);
    ReplyStream(info.little, Replies(log));
  }
}
