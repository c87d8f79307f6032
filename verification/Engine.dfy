/**
 What each locked operation of VirtualUSBDevice.cpp does to the device's state, as functions on
 values. The class in VirtualUSBDevice.dfy is proved against these functions; Pipes, Lanes, Runs,
 Accounting, Promises and Writer prove what the device promises about them.

 `History` records what the state no longer shows: it is never read by an operation.
 */
module Engine {
  import opened Endian
  import opened UsbIp
  import opened Options
  import opened Usb

  const MAX_ENDPOINTS: nat := 32  // USB::Endpoint::MaxCount

  /** -ECONNRESET as an `int32_t` bit pattern. */
  const NEG_ECONNRESET: bv32 := 0xFFFF_FF98

  /** A command that can be parked: an IN submit. */
  type InCmd = c: Cmd | c.Submit? && c.base.direction == DIR_IN
    witness Submit(Base(0, 0, DIR_IN, 0), 0, 0, 0, 0, 0, [0, 0, 0, 0, 0, 0, 0, 0], [])

  datatype Chunk = Chunk(bytes: seq<Byte>, off: nat)

  /** Written data, of which the first `off` bytes have been sent. */
  type Data = d: Chunk | d.off <= |d.bytes| witness Chunk([], 0)

  /** A queued reply together with the command it answers. */
  datatype Entry = Entry(cmd: Cmd, rep: Rep)

  /** One endpoint's `inCmds` and `inData`. */
  datatype Pipe = Pipe(cmds: seq<InCmd>, data: seq<Data>)

  datatype Xfer = Xfer(ep: Byte, setup: SetupRequest, data: seq<Byte>)

  datatype History = History(
    received: seq<Cmd>,             // pushed by the read thread
    handled: seq<Cmd>,              // handled without an exception
    dropped: seq<Cmd>,              // the command whose handling threw
    cancelled: seq<InCmd>,          // removed by an unlink
    written: seq<seq<seq<Byte>>>,   // per endpoint, what was passed to `write`
    log: seq<Entry>,                // every reply ever queued
    sent: nat,                      // how many of them the write thread has taken
    xfers: seq<Xfer>)               // transfers handed to the caller of `read`

  datatype Engine = Engine(cmds: seq<Cmd>, pipes: seq<Pipe>, config: Option<nat>, failed: bool, reps: seq<Rep>,
                           hist: History)

  function EpIndex(c: Cmd): nat {
    Value((c.base.ep & 0xFF) as Byte)  // the code keeps the low byte
  }

  /** Handled by the standard-request code of the default endpoint. */
  predicate IsStandard(info: Info, c: Cmd) {
    c.Submit? && c.base.ep == 0 && StandardType(GetSetup(info.little, c.setup))
  }

  /** Handled by being parked on its endpoint. */
  predicate Parks(info: Info, c: Cmd) {
    c.Submit? && c.base.direction == DIR_IN && !IsStandard(info, c)
  }

  /** Handled by being handed to the caller of `read`. */
  predicate Delivers(info: Info, c: Cmd) {
    c.Submit? && c.base.direction == DIR_OUT && !IsStandard(info, c)
  }

  // ----- replies -----

  /** The assertion at the head of `_reply`. */
  predicate ReplyArgs(c: Cmd, data: Option<seq<Byte>>, len: nat) {
    c.Submit? ==>
      || (c.base.direction == DIR_IN && ((len > 0 && data.Some?) || len == 0))
      || (c.base.direction == DIR_OUT && data.None?)
  }

  function MakeReply(c: Cmd, data: Option<seq<Byte>>, len: nat, status: bv32): (r: Rep)
    requires ReplyArgs(c, data, len)
    requires data.Some? ==> |data.value| == len
  {
    match c
    case Submit(base, _, _, _, _, _, _, _) =>
      RetSubmit(base, Word32(len), if base.direction == DIR_IN && len > 0 then data.value else [])
    case Unlink(base, _, _) => RetUnlink(base, status)
  }

  function Replies(es: seq<Entry>): (rs: seq<Rep>)
    ensures |rs| == |es|
    ensures forall i :: 0 <= i < |es| ==> rs[i] == es[i].rep
  {
    seq(|es|, i requires 0 <= i < |es| => es[i].rep)
  }

  function Queue(s: Engine, es: seq<Entry>): Engine {
    s.(reps := s.reps + Replies(es), hist := s.hist.(log := s.hist.log + es))
  }

  // ----- matching parked commands with written data -----

  datatype Drained = Drained(pipe: Pipe, entries: seq<Entry>)

  function Served(c: InCmd, d: Data): (n: nat)
    ensures d.off + n <= |d.bytes|
  {
    Min(SizeOf32(c.length), |d.bytes| - d.off)
  }

  function ServedEntry(c: InCmd, d: Data): (e: Entry)
    ensures e.cmd == c
  {
    var n := Served(c, d);
    Entry(c, MakeReply(c, Some(d.bytes[d.off..d.off + n]), n, 0))
  }

  /** What stays queued of the front data after a command: nothing once it is sent in full. */
  function Remaining(c: InCmd, d: Data): seq<Data> {
    var off := d.off + Served(c, d);
    if off == |d.bytes| then [] else [Chunk(d.bytes, off)]
  }

  /** One iteration of `_sendDataForInEndpoint`. */
  function ServeOne(p: Pipe): Pipe
    requires p.cmds != [] && p.data != []
  {
    Pipe(p.cmds[1..], Remaining(p.cmds[0], p.data[0]) + p.data[1..])
  }

  predicate Idle(p: Pipe) { p.cmds == [] || p.data == [] }

  function Drain(p: Pipe): Drained
    decreases |p.cmds|
  {
    if Idle(p) then Drained(p, [])
    else
      var rest := Drain(ServeOne(p));
      Drained(rest.pipe, [ServedEntry(p.cmds[0], p.data[0])] + rest.entries)
  }

  function SendData(s: Engine, i: nat): Engine
    requires i < |s.pipes|
  {
    var d := Drain(s.pipes[i]);
    Queue(s.(pipes := s.pipes[i := d.pipe]), d.entries)
  }

  // ----- handling a command -----

  /** The tables have their fixed size, and the active configuration is one of the device's. */
  ghost predicate Ready(info: Info, s: Engine) {
    && |s.pipes| == |s.hist.written| == MAX_ENDPOINTS
    && (s.config.Some? ==> s.config.value < |info.configs|)
  }

  /** The state after a command, and the transfer handed to the caller of `read`, if any. */
  datatype Outcome = Outcome(state: Engine, xfer: Option<Xfer>)

  function Done(s: Engine, c: Cmd): Engine {
    s.(hist := s.hist.(handled := s.hist.handled + [c]))
  }

  function Fail(s: Engine, c: Cmd): Outcome {
    Outcome(s.(failed := true, hist := s.hist.(dropped := s.hist.dropped + [c])), None)
  }

  function Address(c: Cmd): Byte {
    ((c.base.ep & 0xFF) as Byte) | (if c.base.direction == DIR_IN then 0x80 else 0)
  }

  function XferOf(info: Info, c: Cmd): Xfer
    requires c.Submit?
  {
    Xfer(Address(c), if c.base.ep == 0 then GetSetup(info.little, c.setup) else NO_SETUP, c.payload)
  }

  function HandleOut(info: Info, s: Engine, c: Cmd): (o: Outcome)
    requires Ready(info, s)
    requires c.Submit? && c.base.direction == DIR_OUT
    ensures Ready(info, o.state) && o.state.cmds == s.cmds
  {
    if EpIndex(c) >= MAX_ENDPOINTS then Fail(s, c)
    else
      var x := XferOf(info, c);
      var s' := Queue(Done(s, c), [Entry(c, MakeReply(c, None, |c.payload|, 0))]);
      Outcome(s'.(hist := s'.hist.(xfers := s'.hist.xfers + [x])), Some(x))
  }

  function Park(s: Engine, c: InCmd, i: nat): Engine
    requires i < |s.pipes|
  {
    s.(pipes := s.pipes[i := s.pipes[i].(cmds := s.pipes[i].cmds + [c])])
  }

  function HandleIn(info: Info, s: Engine, c: Cmd): (o: Outcome)
    requires Ready(info, s)
    requires c.Submit? && c.base.direction == DIR_IN
    ensures Ready(info, o.state) && o.state.cmds == s.cmds
  {
    if EpIndex(c) >= MAX_ENDPOINTS then Fail(s, c)
    else Outcome(SendData(Park(Done(s, c), c, EpIndex(c)), EpIndex(c)), None)
  }

  function HandleStandardCmd(info: Info, s: Engine, c: Cmd): (o: Outcome)
    requires Ready(info, s)
    requires c.Submit?
    ensures Ready(info, o.state) && o.state.cmds == s.cmds
  {
    match HandleStandard(info, s.config, c)
    case Rejected => Fail(s, c)
    case Accepted(data, config) =>
      var len := if data.Some? then |data.value| else 0;
      Outcome(Queue(Done(s, c).(config := config), [Entry(c, MakeReply(c, data, len, 0))]), None)
  }

  /** The position of the first command with a sequence number, or the queue's length. */
  function FirstWith(cmds: seq<InCmd>, q: bv32): (k: nat)
    ensures k <= |cmds|
    ensures k < |cmds| ==> cmds[k].base.seqnum == q
    ensures forall j :: 0 <= j < k ==> cmds[j].base.seqnum != q
  {
    if cmds == [] || cmds[0].base.seqnum == q then 0 else 1 + FirstWith(cmds[1..], q)
  }

  /** The first endpoint that has such a command parked, or the number of endpoints. */
  function FirstPipeWith(pipes: seq<Pipe>, q: bv32): (i: nat)
    ensures i <= |pipes|
    ensures i < |pipes| ==> FirstWith(pipes[i].cmds, q) < |pipes[i].cmds|
    ensures forall j :: 0 <= j < i ==> FirstWith(pipes[j].cmds, q) == |pipes[j].cmds|
  {
    if pipes == [] || FirstWith(pipes[0].cmds, q) < |pipes[0].cmds| then 0 else 1 + FirstPipeWith(pipes[1..], q)
  }

  function RemoveAt<T>(s: seq<T>, k: nat): seq<T>
    requires k < |s|
  {
    s[..k] + s[k + 1..]
  }

  /** Removes the first parked command with sequence number `q`, if there is one. */
  function Cancel(s: Engine, q: bv32): Engine {
    var i := FirstPipeWith(s.pipes, q);
    if i == |s.pipes| then s
    else
      var p := s.pipes[i];
      var k := FirstWith(p.cmds, q);
      s.(pipes := s.pipes[i := p.(cmds := RemoveAt(p.cmds, k))],
         hist := s.hist.(cancelled := s.hist.cancelled + [p.cmds[k]]))
  }

  function HandleUnlink(info: Info, s: Engine, c: Cmd): (o: Outcome)
    requires Ready(info, s)
    requires c.Unlink?
    ensures Ready(info, o.state) && o.state.cmds == s.cmds
  {
    if EpIndex(c) >= MAX_ENDPOINTS then Fail(s, c)
    else
      var found := FirstPipeWith(s.pipes, c.target) < |s.pipes|;
      var status := if found then NEG_ECONNRESET else 0;
      Outcome(Queue(Done(Cancel(s, c.target), c), [Entry(c, MakeReply(c, None, 0, status))]), None)
  }

  /** `_handleCmd`. */
  function Handle(info: Info, s: Engine, c: Cmd): (o: Outcome)
    requires Ready(info, s)
    ensures Ready(info, o.state) && o.state.cmds == s.cmds
  {
    if c.Unlink? then HandleUnlink(info, s, c)
    else if IsStandard(info, c) then HandleStandardCmd(info, s, c)
    else if c.base.direction == DIR_OUT then HandleOut(info, s, c)
    else if c.base.direction == DIR_IN then HandleIn(info, s, c)
    else Fail(s, c)
  }

  // ----- the operations -----

  /** Takes the next command from the queue and handles it; does nothing once the device has failed. */
  function Process(info: Info, s: Engine): (o: Outcome)
    requires Ready(info, s)
    ensures Ready(info, o.state)
    ensures |o.state.cmds| == if s.failed || s.cmds == [] then |s.cmds| else |s.cmds| - 1
  {
    if s.failed || s.cmds == [] then Outcome(s, None)
    else Handle(info, s.(cmds := s.cmds[1..]), s.cmds[0])
  }

  function WriteIndex(ep: Byte): (i: nat)
    ensures i < MAX_ENDPOINTS
  {
    Value(ep & 0x0F)
  }

  /** `write`. */
  function Write(s: Engine, ep: Byte, bytes: seq<Byte>): Engine
    requires |s.pipes| == |s.hist.written| == MAX_ENDPOINTS
  {
    if s.failed then s
    else
      var i := WriteIndex(ep);
      var p := s.pipes[i].(data := s.pipes[i].data + [Chunk(bytes, 0)]);
      var h := s.hist.(written := s.hist.written[i := s.hist.written[i] + [bytes]]);
      SendData(s.(pipes := s.pipes[i := p], hist := h), i)
  }

  /** `read` with a zero timeout: commands are handled until one yields a transfer, fails, or none is left. */
  function ReadNow(info: Info, s: Engine): (o: Outcome)
    requires Ready(info, s)
    ensures Ready(info, o.state)
    decreases |s.cmds|
  {
    if s.failed || s.cmds == [] then Outcome(s, None)
    else
      var o := Process(info, s);
      if o.xfer.Some? then o else ReadNow(info, o.state)
  }

  /** The read thread queues a command. */
  function Arrive(s: Engine, c: Cmd): Engine {
    s.(cmds := s.cmds + [c], hist := s.hist.(received := s.hist.received + [c]))
  }

  /** The write thread takes the next reply; it stops once the device has failed. */
  function TakeReply(s: Engine): Engine {
    if s.failed || s.reps == [] then s
    else s.(reps := s.reps[1..], hist := s.hist.(sent := s.hist.sent + 1))
  }

  function Init(): (s: Engine)
    ensures |s.pipes| == |s.hist.written| == MAX_ENDPOINTS
  {
    Engine([], seq(MAX_ENDPOINTS, _ => Pipe([], [])), None, false, [],
           History([], [], [], [], seq(MAX_ENDPOINTS, _ => []), [], 0, []))
  }

  // ----- runs -----

  /** One locked step of some thread; `Halt` is a reset for a reason outside command handling. */
  datatype Event = Arrival(cmd: Cmd) | Processing | Writing(ep: Byte, bytes: seq<Byte>) | Taking | Halt

  function Step(info: Info, s: Engine, e: Event): (s': Engine)
    requires Ready(info, s)
    ensures Ready(info, s')
  {
    match e
    case Arrival(c) => Arrive(s, c)
    case Processing => Process(info, s).state
    case Writing(ep, bytes) => Write(s, ep, bytes)
    case Taking => TakeReply(s)
    case Halt => s.(failed := true)
  }

  /** The state after any interleaving of the threads' steps. */
  function Run(info: Info, es: seq<Event>): (s: Engine)
    ensures Ready(info, s)
  {
    if es == [] then Init() else Step(info, Run(info, es[..|es| - 1]), es[|es| - 1])
  }

  // ----- read with a timeout -----

  datatype Timeout = Never | Limited | Forever  // wait not at all, for some time, or until there is something

  /** One wait on the condition variable, and the steps that others take while it lasts. */
  datatype Wait = Wait(others: seq<Event>, timedOut: bool)

  /** `Waiting` is a call that has not returned yet. */
  datatype Answer = Transfer(xfer: Xfer) | Nothing | Failed | Waiting

  datatype Reading = Reading(state: Engine, answer: Answer)

  function Others(info: Info, s: Engine, es: seq<Event>): (t: Engine)
    requires Ready(info, s)
    ensures Ready(info, t)
  {
    if es == [] then s else Step(info, Others(info, s, es[..|es| - 1]), es[|es| - 1])
  }

  /** `read`: it looks at the queue, and waits and looks again as often as `waits` says. */
  function ReadWaiting(info: Info, s: Engine, timeout: Timeout, waits: seq<Wait>): (r: Reading)
    requires Ready(info, s)
    ensures Ready(info, r.state)
    decreases |waits|
  {
    var o := ReadNow(info, s);
    if o.xfer.Some? then Reading(o.state, Transfer(o.xfer.value))
    else if o.state.failed then Reading(o.state, Failed)
    else if timeout.Never? then Reading(o.state, Nothing)
    else if waits == [] then Reading(o.state, Waiting)
    else
      var t := Others(info, o.state, waits[0].others);
      if timeout.Limited? && waits[0].timedOut then Reading(t, Nothing)
      else ReadWaiting(info, t, timeout, waits[1..])
  }
}
