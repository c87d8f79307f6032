/**
 The device itself: the fields of `_s` that its lock protects, and the locked operations on them, each
 proved against its function in Engine.dfy. An exception is a `Threw` result; `HandleNext` catches it and
 marks the device as failed, as `_reset` does by setting `_s.err`.
 */
module VirtualUSBDevice {
  import opened Endian
  import opened UsbIp
  import opened Options
  import opened Usb
  import opened Engine
  import Spec = Engine
  import opened Pipes

  datatype Try<+T> = Returned(value: T) | Threw

  /** What `write` asserts of its callers. */
  ghost predicate Callable(es: seq<Event>) {
    forall e :: e in es && e.Writing? ==> e.ep & 0x80 == 0x80
  }

  class VirtualUSBDevice {
    const info: Info
    var cmds: seq<Cmd>
    var reps: seq<Rep>
    var inCmds: seq<seq<InCmd>>
    var inData: seq<seq<Data>>
    var configDesc: Option<nat>
    var err: bool
    ghost var hist: History

    ghost predicate Valid()
      reads this
    {
      && |inCmds| == |inData| == |hist.written| == MAX_ENDPOINTS
      && (configDesc.Some? ==> configDesc.value < |info.configs|)
    }

    ghost function View(): (s: Engine)
      requires Valid()
      reads this
      ensures Ready(info, s)
    {
      var pipes := seq(MAX_ENDPOINTS, i requires 0 <= i < MAX_ENDPOINTS && Valid() reads this => Pipe(inCmds[i], inData[i]));
      Engine(cmds, pipes, configDesc, err, reps, hist)
    }

    constructor (info: Info)
      ensures Valid() && View() == Init() && this.info == info
    {
      this.info := info;
      cmds, reps := [], [];
      inCmds := seq(MAX_ENDPOINTS, _ => []);
      inData := seq(MAX_ENDPOINTS, _ => []);
      configDesc, err := None, false;
      hist := Init().hist;
      new;
      assert View().pipes == Init().pipes;
    }

    /** `_reply`: the requires clause is its assertion. */
    method Reply(c: Cmd, data: Option<seq<Byte>>, len: nat, status: bv32)
      requires Valid() && ReplyArgs(c, data, len)
      requires data.Some? ==> |data.value| == len
      modifies this`reps, this`hist
      ensures Valid() && View() == Queue(old(View()), [Entry(c, MakeReply(c, data, len, status))])
    {
      hide Word32;
      var rep;
      match c {
        case Submit(base, _, _, _, _, _, _, _) =>
          var payload: seq<Byte> := [];
          if base.direction == DIR_IN && len > 0 {
            payload := data.value;
          }
          rep := RetSubmit(base, Word32(len), payload);
        case Unlink(base, _, _) =>
          rep := RetUnlink(base, status);
      }
      reps := reps + [rep];
      hist := hist.(log := hist.log + [Entry(c, rep)]);
    }

    /** The loop body of `_sendDataForInEndpoint`: the front command gets its share of the front data. */
    method ServeFront(epIdx: nat)
      requires Valid() && epIdx < MAX_ENDPOINTS
      requires inCmds[epIdx] != [] && inData[epIdx] != []
      modifies this`inCmds, this`inData, this`reps, this`hist
      ensures Valid()
      ensures var s, p := old(View()), old(View()).pipes[epIdx];
              View() == Queue(s.(pipes := s.pipes[epIdx := ServeOne(p)]), [ServedEntry(p.cmds[0], p.data[0])])
    {
      hide SizeOf32, Signed32, MakeReply;
      ghost var s := View();
      var cmd, d := inCmds[epIdx][0], inData[epIdx][0];
      // Limited by what the host asks for and by what is available
      var len := Min(SizeOf32(cmd.length), |d.bytes| - d.off);
      assert len == Served(cmd, d);
      Reply(cmd, Some(d.bytes[d.off..d.off + len]), len, 0);
      assert View() == Queue(s, [ServedEntry(cmd, d)]);
      hide ServedEntry, Served;
      var off := d.off + len;
      // The command is popped in any case, the data once all of it is sent
      inCmds := inCmds[epIdx := inCmds[epIdx][1..]];
      if off == |d.bytes| {
        inData := inData[epIdx := inData[epIdx][1..]];
      } else {
        inData := inData[epIdx := [Chunk(d.bytes, off)] + inData[epIdx][1..]];
      }
      assert inData[epIdx] == Remaining(cmd, d) + s.pipes[epIdx].data[1..];
      assert View().pipes == s.pipes[epIdx := ServeOne(s.pipes[epIdx])];
    }

    /** `_sendDataForInEndpoint`. */
    method SendDataForInEndpoint(epIdx: nat)
      requires Valid() && epIdx < MAX_ENDPOINTS
      modifies this`inCmds, this`inData, this`reps, this`hist
      ensures Valid() && View() == SendData(old(View()), epIdx)
    {
      hide ServedEntry, ServeOne, Drain, Queue;
      while inCmds[epIdx] != [] && inData[epIdx] != []
        invariant Valid() && SendData(View(), epIdx) == SendData(old(View()), epIdx)
        decreases |inCmds[epIdx]|
      {
        ghost var s := View();
        DrainStep(s.pipes[epIdx]);
        ServeFront(epIdx);
        SendDataStep(s, epIdx);
      }
      DrainIdle(View().pipes[epIdx]);
      QueueNothing(View(), epIdx);
    }

    static lemma SendDataStep(s: Engine, i: nat)
      requires i < |s.pipes| && !Idle(s.pipes[i])
      ensures var p := s.pipes[i];
              var t := Queue(s.(pipes := s.pipes[i := ServeOne(p)]), [ServedEntry(p.cmds[0], p.data[0])]);
              |t.pipes| == |s.pipes| && t.pipes[i].cmds == p.cmds[1..] && SendData(t, i) == SendData(s, i)
    {
      hide ServedEntry, Drain;
      var p := s.pipes[i];
      DrainStep(p);
      var first, rest := [ServedEntry(p.cmds[0], p.data[0])], Drain(ServeOne(p));
      assert s.pipes[i := ServeOne(p)][i := rest.pipe] == s.pipes[i := rest.pipe];
      assert s.reps + Replies(first) + Replies(rest.entries) == s.reps + Replies(first + rest.entries);
      assert s.hist.log + first + rest.entries == s.hist.log + (first + rest.entries);
    }

    static lemma QueueNothing(s: Engine, i: nat)
      requires i < |s.pipes| && Drain(s.pipes[i]) == Drained(s.pipes[i], [])
      ensures SendData(s, i) == s
    {
      hide Drain;
      assert s.pipes[i := s.pipes[i]] == s.pipes;
      assert s.reps + Replies([]) == s.reps;
      assert s.hist.log + [] == s.hist.log;
    }

    /** `_handleCmdSubmitEPXIn`. */
    method HandleCmdSubmitEPXIn(cmd: Cmd) returns (r: Try<()>)
      requires Valid() && cmd.Submit? && cmd.base.direction == DIR_IN
      modifies this`inCmds, this`inData, this`reps, this`hist
      ensures Valid()
      ensures r.Threw? ==> View() == old(View()) && HandleIn(info, old(View()), cmd) == Fail(old(View()), cmd)
      ensures r.Returned? ==> Outcome(View(), None) == HandleIn(info, old(View()), cmd)
    {
      hide Value, SendData;
      var epIdx := EpIndex(cmd);
      if epIdx >= MAX_ENDPOINTS {
        return Threw;
      }
      ghost var s := View();
      hist := hist.(handled := hist.handled + [cmd]);
      inCmds := inCmds[epIdx := inCmds[epIdx] + [cmd]];
      assert View() == Park(Done(s, cmd), cmd, epIdx);
      SendDataForInEndpoint(epIdx);
      r := Returned(());
    }

    /** `_handleCmdSubmitEPXOut`. */
    method HandleCmdSubmitEPXOut(cmd: Cmd, setup: SetupRequest) returns (r: Try<Xfer>)
      requires Valid() && cmd.Submit? && cmd.base.direction == DIR_OUT
      requires setup == if cmd.base.ep == 0 then GetSetup(info.little, cmd.setup) else NO_SETUP
      modifies this`reps, this`hist
      ensures Valid()
      ensures r.Threw? ==> View() == old(View()) && HandleOut(info, old(View()), cmd) == Fail(old(View()), cmd)
      ensures r.Returned? ==> Outcome(View(), Some(r.value)) == HandleOut(info, old(View()), cmd)
    {
      hide Value, GetSetup, Address;
      if EpIndex(cmd) >= MAX_ENDPOINTS {
        return Threw;
      }
      hist := hist.(handled := hist.handled + [cmd]);
      // Lets the host know that its data was received
      Reply(cmd, None, |cmd.payload|, 0);
      var xfer := Xfer(Address(cmd), setup, cmd.payload);
      hist := hist.(xfers := hist.xfers + [xfer]);
      r := Returned(xfer);
    }

    /** `_handleCmdUnlink`. */
    method HandleCmdUnlink(cmd: Cmd) returns (r: Try<()>)
      requires Valid() && cmd.Unlink?
      modifies this`inCmds, this`reps, this`hist
      ensures Valid()
      ensures r.Threw? ==> View() == old(View()) && HandleUnlink(info, old(View()), cmd) == Fail(old(View()), cmd)
      ensures r.Returned? ==> Outcome(View(), None) == HandleUnlink(info, old(View()), cmd)
    {
      hide Value, Cancel, FirstPipeWith;
      if EpIndex(cmd) >= MAX_ENDPOINTS {
        return Threw;
      }
      var found := CancelParked(cmd.target);
      hist := hist.(handled := hist.handled + [cmd]);
      var status := if found then NEG_ECONNRESET else 0;
      Reply(cmd, None, 0, status);
      r := Returned(());
    }

    /** The search in `_handleCmdUnlink`: removes the first parked command with sequence number `q`. */
    method CancelParked(q: bv32) returns (found: bool)
      requires Valid()
      modifies this`inCmds, this`hist
      ensures Valid() && View() == Cancel(old(View()), q)
      ensures found <==> FirstPipeWith(old(View()).pipes, q) < |old(View()).pipes|
    {
      hide FirstWith, FirstPipeWith;
      ghost var s := View();
      var i := 0;
      while i < MAX_ENDPOINTS
        invariant i <= MAX_ENDPOINTS && Valid() && View() == s
        invariant forall j :: 0 <= j < i ==> FirstWith(s.pipes[j].cmds, q) == |s.pipes[j].cmds|
      {
        var k := 0;
        while k < |inCmds[i]|
          invariant k <= |inCmds[i]| && Valid() && View() == s
          invariant forall j :: 0 <= j < k ==> inCmds[i][j].base.seqnum != q
        {
          if inCmds[i][k].base.seqnum == q {
            assert FirstWith(s.pipes[i].cmds, q) == k;
            assert FirstPipeWith(s.pipes, q) == i;
            hist := hist.(cancelled := hist.cancelled + [inCmds[i][k]]);
            inCmds := inCmds[i := RemoveAt(inCmds[i], k)];
            assert View().pipes == s.pipes[i := s.pipes[i].(cmds := RemoveAt(s.pipes[i].cmds, k))];
            return true;
          }
          k := k + 1;
        }
        assert FirstWith(s.pipes[i].cmds, q) == |s.pipes[i].cmds|;
        i := i + 1;
      }
      assert FirstPipeWith(s.pipes, q) == |s.pipes|;
      found := false;
    }

    /** The search for a configuration by its value. */
    method SelectConfiguration(value: Byte) returns (found: Option<nat>)
      ensures found == FindConfig(info.configs, value, 0)
    {
      hide FindConfig;
      var i := 0;
      while i < |info.configs|
        invariant i <= |info.configs|
        invariant forall k :: 0 <= k < i ==> info.configs[k][5] != value
      {
        if ConfigValue(info.configs[i]) == value {
          return Some(i);
        }
        i := i + 1;
      }
      found := None;
    }

    /** The GetDescriptor branch: the data and length to reply with. */
    method ChooseDescriptor(req: SetupRequest) returns (r: Try<(Option<seq<Byte>>, nat)>)
      ensures r.Threw? ==> GetDescriptor(info, req, configDesc) == Rejected
      ensures r.Returned? ==>
                && GetDescriptor(info, req, configDesc) == Accepted(r.value.0, configDesc)
                && r.value.1 == if r.value.0.Some? then |r.value.0.value| else 0
    {
      hide Kind, LowValue, Value, Unsigned16, TotalLen;
      var descType, descIdx := Kind(req), Value(LowValue(req));
      var replyData: Option<seq<Byte>> := None;
      var replyDataLen := 0;
      if descType == DESC_DEVICE {
        if descIdx >= |info.configs| {
          return Threw;  // the code reads outside the table here
        }
        replyData := Some(info.device);
        replyDataLen := TotalLen(info.little, info.configs[descIdx]);
      } else if descType == DESC_CONFIGURATION {
        if descIdx >= |info.configs| {
          return Threw;
        }
        replyData := Some(info.configs[descIdx]);
        replyDataLen := TotalLen(info.little, info.configs[descIdx]);
      } else if descType == DESC_STRING {
        if info.strings.Some? {
          if descIdx >= |info.strings.value| {
            return Threw;
          }
          replyData := Some(info.strings.value[descIdx]);
          replyDataLen := ShortLen(info.strings.value[descIdx]);
        }
      } else if descType == DESC_DEVICE_QUALIFIER {
        if info.qualifier.Some? {
          replyData := Some(info.qualifier.value);
          replyDataLen := ShortLen(info.qualifier.value);
        }
      }
      // Caps the reply to what was asked for
      replyDataLen := Min(replyDataLen, Unsigned16(req.length));
      if replyData.None? {
        return Returned((None, 0));
      }
      if replyDataLen > |replyData.value| {
        return Threw;  // the code reads past the descriptor here
      }
      r := Returned((Some(replyData.value[..replyDataLen]), replyDataLen));
    }

    /** What a standard request is answered with, and the configuration selected afterwards. */
    method DecideStandard(cmd: Cmd, req: SetupRequest) returns (r: Try<(Option<seq<Byte>>, nat, Option<nat>)>)
      requires Valid() && cmd.Submit? && req == GetSetup(info.little, cmd.setup)
      ensures r.Threw? ==> HandleStandard(info, configDesc, cmd) == Rejected
      ensures r.Returned? ==>
                && HandleStandard(info, configDesc, cmd) == Accepted(r.value.0, r.value.2)
                && r.value.1 == if r.value.0.Some? then |r.value.0.value| else 0
    {
      hide GetSetup, GetDescriptor, SizeOf32, FindConfig, LFH16, Store16, LowValue, SelfPowered;
      if req.requestType & 0x1F != 0 {
        return Threw;
      }
      if cmd.base.direction == DIR_IN {
        if req.request == GET_STATUS {
          if configDesc.None? {
            return Threw;
          }
          var status: bv16 := if SelfPowered(info.configs[configDesc.value]) then 1 else 0;
          return Returned((Some(Store16(info.little, LFH16(info.little, status))), 2, configDesc));
        } else if req.request == GET_DESCRIPTOR {
          var chosen := ChooseDescriptor(req);
          return if chosen.Threw? then Threw else Returned((chosen.value.0, chosen.value.1, configDesc));
        } else if req.request == SET_CONFIGURATION {
          var found := SelectConfiguration(LowValue(req));
          return if found.None? then Threw else Returned((None, 0, found));
        } else {
          return Threw;
        }
      } else if cmd.base.direction == DIR_OUT {
        if SizeOf32(cmd.length) != 0 || req.request != SET_CONFIGURATION {
          return Threw;
        }
        var found := SelectConfiguration(LowValue(req));
        return if found.None? then Threw else Returned((None, 0, found));
      } else {
        return Threw;
      }
    }

    /** `_handleCmdSubmitEP0StandardRequest`. */
    method HandleStandardRequest(cmd: Cmd, req: SetupRequest) returns (r: Try<()>)
      requires Valid() && cmd.Submit? && req == GetSetup(info.little, cmd.setup)
      modifies this`configDesc, this`reps, this`hist
      ensures Valid()
      ensures r.Threw? ==> View() == old(View()) && HandleStandardCmd(info, old(View()), cmd) == Fail(old(View()), cmd)
      ensures r.Returned? ==> Outcome(View(), None) == HandleStandardCmd(info, old(View()), cmd)
    {
      hide GetSetup, HandleStandard, MakeReply;
      var decision := DecideStandard(cmd, req);
      if decision.Threw? {
        return Threw;
      }
      var (data, len, config) := decision.value;
      hist := hist.(handled := hist.handled + [cmd]);
      configDesc := config;
      Reply(cmd, data, len, 0);
      r := Returned(());
    }

    /** `_handleCmd`, with the dispatch of `_handleCmdSubmitEP0` and `_handleCmdSubmitEPX`. */
    method HandleCmd(cmd: Cmd) returns (r: Try<Option<Xfer>>)
      requires Valid()
      modifies this`inCmds, this`inData, this`configDesc, this`reps, this`hist
      ensures Valid()
      ensures r.Threw? ==> View() == old(View()) && Handle(info, old(View()), cmd) == Fail(old(View()), cmd)
      ensures r.Returned? ==> Outcome(View(), r.value) == Handle(info, old(View()), cmd)
    {
      hide GetSetup, StandardType, HandleIn, HandleOut, HandleUnlink, HandleStandardCmd;
      match cmd {
        case Submit(base, _, _, _, _, _, setupBytes, _) =>
          var setup := NO_SETUP;
          if base.ep == 0 {
            setup := GetSetup(info.little, setupBytes);
            if StandardType(setup) {
              var done := HandleStandardRequest(cmd, setup);
              return if done.Threw? then Threw else Returned(None);
            }
          }
          if base.direction == DIR_OUT {
            var xfer := HandleCmdSubmitEPXOut(cmd, setup);
            return if xfer.Threw? then Threw else Returned(Some(xfer.value));
          } else if base.direction == DIR_IN {
            var parked := HandleCmdSubmitEPXIn(cmd);
            return if parked.Threw? then Threw else Returned(None);
          } else {
            return Threw;
          }
        case Unlink(_, _, _) =>
          var done := HandleCmdUnlink(cmd);
          return if done.Threw? then Threw else Returned(None);
      }
    }

    /** What `read` does under the lock until it returns or has to wait. */
    method ReadQueue() returns (xfer: Option<Xfer>)
      requires Valid()
      modifies this
      ensures Valid() && Outcome(View(), xfer) == ReadNow(info, old(View()))
    {
      hide Handle;
      while !err && cmds != []
        invariant Valid() && ReadNow(info, View()) == ReadNow(info, old(View()))
        decreases |cmds|, !err
      {
        xfer := HandleNext();
        if xfer.Some? {
          return;
        }
      }
      xfer := None;
    }

    /** Takes the next command and handles it. An exception resets the device. */
    method HandleNext() returns (xfer: Option<Xfer>)
      requires Valid() && !err && cmds != []
      modifies this
      ensures Valid() && Outcome(View(), xfer) == Process(info, old(View()))
    {
      hide Handle;
      ghost var before := View();
      var cmd := cmds[0];
      cmds := cmds[1..];
      assert View() == before.(cmds := before.cmds[1..]);
      var r := HandleCmd(cmd);
      if r.Threw? {
        err := true;
        hist := hist.(dropped := hist.dropped + [cmd]);
        return None;
      }
      xfer := r.value;
    }

    /** While a call of `read` waits, it has let go of the lock, and others take their steps. */
    method LetOthers(others: seq<Event>)
      requires Valid() && Callable(others)
      modifies this
      ensures Valid() && View() == Others(info, old(View()), others)
    {
      hide Process, Arrive, TakeReply, Spec.Write;
      ghost var s := View();
      for i := 0 to |others|
        invariant Valid() && View() == Others(info, s, others[..i])
      {
        assert others[..i + 1][..i] == others[..i];
        ghost var before := View();
        LetOther(others[i]);
        assert View() == Step(info, before, others[i]);
      }
      assert others[..|others|] == others;
    }

    method LetOther(e: Event)
      requires Valid() && (e.Writing? ==> e.ep & 0x80 == 0x80)
      modifies this
      ensures Valid() && View() == Step(info, old(View()), e)
    {
      hide Process, Arrive, TakeReply, Spec.Write;
      if e.Arrival? {
        QueueCmd(e.cmd);
      } else if e.Processing? {
        ProcessingSkips(info, View());
        if !err && cmds != [] {
          var xfer := HandleNext();
        }
      } else if e.Writing? {
        var r := Write(e.ep, e.bytes);
      } else if e.Taking? {
        var rep := DequeueReply();
      } else {
        err := true;
      }
    }

    static lemma ProcessingSkips(info: Info, s: Engine)
      requires Ready(info, s)
      ensures s.failed || s.cmds == [] ==> Process(info, s).state == s
    {
      hide Handle;
    }

    /** `read`, with any timeout. After an error it throws, or returns nothing if the device is not to throw. */
    method Read(timeout: Timeout, waits: seq<Wait>) returns (r: Try<Answer>)
      requires Valid() && forall w :: w in waits ==> Callable(w.others)
      modifies this
      ensures Valid()
      ensures var reading := ReadWaiting(info, old(View()), timeout, waits);
              && View() == reading.state
              && r == if !reading.answer.Failed? then Returned(reading.answer)
                      else if info.throwOnErr then Threw else Returned(Nothing)
    {
      hide ReadNow, Others;
      var i := 0;
      while true
        invariant i <= |waits| && Valid()
        invariant ReadWaiting(info, View(), timeout, waits[i..]) == ReadWaiting(info, old(View()), timeout, waits)
        decreases |waits| - i
      {
        var xfer := ReadQueue();
        if xfer.Some? {
          return Returned(Transfer(xfer.value));
        }
        if err {
          return if info.throwOnErr then Threw else Returned(Nothing);
        }
        if timeout.Never? {
          return Returned(Nothing);
        }
        if i == |waits| {
          return Returned(Waiting);
        }
        LetOthers(waits[i].others);
        if timeout.Limited? && waits[i].timedOut {
          return Returned(Nothing);
        }
        assert waits[i..][1..] == waits[i + 1..];
        i := i + 1;
      }
    }

    /** `write`: the requires clause is its assertion that the endpoint is an IN endpoint. */
    method Write(ep: Byte, data: seq<Byte>) returns (r: Try<()>)
      requires Valid() && ep & 0x80 == 0x80
      modifies this`inCmds, this`inData, this`reps, this`hist
      ensures Valid() && View() == Spec.Write(old(View()), ep, data)
      ensures r.Threw? <==> err && info.throwOnErr
    {
      hide Value, SendData;
      var epIdx := WriteIndex(ep);
      if err {
        return if info.throwOnErr then Threw else Returned(());
      }
      ghost var s := View();
      hist := hist.(written := hist.written[epIdx := hist.written[epIdx] + [data]]);
      inData := inData[epIdx := inData[epIdx] + [Chunk(data, 0)]];
      assert View().pipes == s.pipes[epIdx := s.pipes[epIdx].(data := s.pipes[epIdx].data + [Chunk(data, 0)])];
      SendDataForInEndpoint(epIdx);
      r := Returned(());
    }

    /** The read thread's locked region. */
    method QueueCmd(cmd: Cmd)
      requires Valid()
      modifies this`cmds, this`hist
      ensures Valid() && View() == Arrive(old(View()), cmd)
    {
      cmds := cmds + [cmd];
      hist := hist.(received := hist.received + [cmd]);
    }

    /** The write thread's locked region; no reply when there is none, or the device has failed. */
    method DequeueReply() returns (rep: Option<Rep>)
      requires Valid()
      modifies this`reps, this`hist
      ensures Valid() && View() == TakeReply(old(View()))
      ensures rep == if err || old(reps) == [] then None else Some(old(reps)[0])
    {
      if err || reps == [] {
        return None;
      }
      rep := Some(reps[0]);
      reps := reps[1..];
      hist := hist.(sent := hist.sent + 1);
    }
  }
}
