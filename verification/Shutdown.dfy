/**
 Start, reset and shutdown: the read thread, the write thread and any number of API callers as one step
 system. A step is one region under the lock, or one socket call; condition variables are explicit, in
 that a sleeping thread takes part again only after a notification (or a spurious wake-up).

 Queues and command handling appear only as far as they matter here: how many bytes are still to be
 received, and how many commands and replies are queued.
 */
module Shutdown {
  import opened Options

  datatype Who = ReadThread | WriteThread | Caller(id: nat)

  datatype Cause = Stopped | Failure(who: Who)

  /** Where the read thread is; `fd` is its copy of the socket. */
  datatype Reader =
    | RAbsent | RBegin
    | RReceiving(fd: int)
    | RPushing(fd: int)       // has a whole command, needs the lock
    | RCaught                 // its exception handler is about to call _reset
    | RResetting(asleep: bool)
    | RLeaving                // about to clear its running flag
    | RGone
    | RMissing                // its flag is set, but the thread could not be created

  datatype Writer =
    | WAbsent | WBegin
    | WChecking(fd: int)              // about to look for an error or a reply
    | WAsleep(fd: int)
    | WSending(fd: int, left: nat)
    | WCaught
    | WResetting(asleep: bool)
    | WLeaving
    | WGone
    | WMissing

  datatype ApiCaller = Outside | Reading(asleep: bool) | Resetting(asleep: bool)

  datatype State = State(
    started: bool, reset: bool, err: Option<Cause>,
    initiator: Option<Who>,           // who set the Reset flag
    socket: Option<int>, usbipSocket: Option<int>,
    readRunning: bool, writeRunning: bool,
    reader: Reader, writer: Writer, callers: seq<ApiCaller>,
    commands: nat, replies: nat,      // how many are queued
    open: set<int>, closed: seq<int>, // descriptors, and every close() so far
    shut: bool,                       // shutdown() was called on the socket
    peerClosed: bool, unread: nat,
    hiccups: nat)                     // EINTRs and spurious wake-ups still to come

  datatype StartOutcome = NoSockets | NotAttached | NoReadThread | NoWriteThread | Attached

  /** How a call of `read` comes to an end, or to its next wait, after the commands it has taken. */
  datatype Took = Returns | Waits | Throws

  datatype Got = Part | Whole | Malformed

  datatype Move =
    | Start(i: nat, outcome: StartOutcome, a: int, b: int)
    | PeerSends(n: nat) | PeerCloses
    | ReaderBegins | ReaderReceives(n: nat, got: Got) | ReaderEof | ReaderFails | ReaderInterrupted
    | ReaderPushes | ReaderResets | ReaderRechecks | ReaderLeaves
    | WriterBegins | WriterChecks(size: nat) | WriterSends(n: nat) | WriterSent | WriterFails | WriterInterrupted
    | WriterResets | WriterRechecks | WriterLeaves
    | CallerReplies | CallerTakes(i: nat, n: nat, took: Took) | CallerWaits(i: nat) | CallerWakes(i: nat)
    | CallerResets(i: nat, cause: Cause) | CallerRechecks(i: nat)
    | SpuriousWake(who: Who)

  // ----- shared regions -----

  function Wake(c: ApiCaller): ApiCaller {
    match c
    case Outside => Outside
    case Reading(_) => Reading(false)
    case Resetting(_) => Resetting(false)
  }

  /** `_s.signal.notify_all()`. */
  function Notify(s: State): State {
    s.(writer := match s.writer
                 case WAsleep(fd) => WChecking(fd)
                 case WResetting(_) => WResetting(false)
                 case _ => s.writer,
       reader := if s.reader.RResetting? then RResetting(false) else s.reader,
       callers := seq(|s.callers|, i requires 0 <= i < |s.callers| => Wake(s.callers[i])))
  }

  function Descriptor(fd: Option<int>): seq<int> { if fd.Some? then [fd.value] else [] }

  /** The end of `_reset`: closes whatever is open. */
  function CloseSockets(s: State): State {
    var fds := Descriptor(s.socket) + Descriptor(s.usbipSocket);
    s.(open := s.open - (set fd | fd in fds), closed := s.closed + fds, socket := None, usbipSocket := None)
  }

  predicate WorkersRunning(s: State) { s.readRunning || s.writeRunning }

  /** `_reset` up to its wait, if it is not short-circuited. */
  function BeginReset(s: State, who: Who, cause: Cause): State {
    Notify(s.(reset := true, err := Some(cause), initiator := Some(who))).(
      shut := s.shut || s.socket.Some? || s.usbipSocket.Some?)
  }

  /** An API caller runs `_reset`: it returns at once, or waits, or closes the sockets at once. */
  function ResetByCaller(s: State, i: nat, cause: Cause): State
    requires i < |s.callers|
  {
    if s.reset then s.(callers := s.callers[i := Outside])
    else
      var t := BeginReset(s, Caller(i), cause);
      if WorkersRunning(t) then t.(callers := t.callers[i := Resetting(true)])
      else CloseSockets(t).(callers := t.callers[i := Outside])
  }

  // ----- steps -----

  predicate IsReaderMove(m: Move) {
    m.ReaderBegins? || m.ReaderReceives? || m.ReaderEof? || m.ReaderFails? || m.ReaderInterrupted?
    || m.ReaderPushes? || m.ReaderResets? || m.ReaderRechecks? || m.ReaderLeaves?
  }

  predicate IsWriterMove(m: Move) {
    m.WriterBegins? || m.WriterChecks? || m.WriterSends? || m.WriterSent? || m.WriterFails?
    || m.WriterInterrupted? || m.WriterResets? || m.WriterRechecks? || m.WriterLeaves?
  }

  /** Caller `i` is in `read`, about to look at the queue of commands. */
  predicate Looks(s: State, i: nat) {
    i < |s.callers| && s.callers[i] in {Outside, Reading(false)} && s.err.None?
  }

  predicate Enabled(s: State, m: Move) {
    match m
    case Start(i, _, a, b) => i < |s.callers| && s.callers[i] == Outside && !s.started && !s.reset && a != b && a >= 0 && b >= 0
    case PeerSends(_) => s.socket.Some? && !s.shut && !s.peerClosed
    case PeerCloses => s.socket.Some?
    case ReaderBegins => s.reader.RBegin? && s.socket.Some?
    case ReaderReceives(n, _) => s.reader.RReceiving? && 0 < n <= s.unread
    case ReaderEof => s.reader.RReceiving? && s.unread == 0 && (s.shut || s.peerClosed)
    case ReaderFails => s.reader.RReceiving?
    case ReaderInterrupted => s.reader.RReceiving? && s.hiccups > 0
    case ReaderPushes => s.reader.RPushing?
    case ReaderResets => s.reader.RCaught?
    case ReaderRechecks => s.reader.RResetting? && !s.reader.asleep
    case ReaderLeaves => s.reader.RLeaving?
    case WriterBegins => s.writer.WBegin? && s.socket.Some?
    case WriterChecks(size) => s.writer.WChecking? && size > 0
    case WriterSends(n) => s.writer.WSending? && 0 < n <= s.writer.left && !s.shut
    case WriterSent => s.writer.WSending? && s.writer.left == 0
    case WriterFails => s.writer.WSending? && s.writer.left > 0
    case WriterInterrupted => s.writer.WSending? && s.writer.left > 0 && s.hiccups > 0
    case WriterResets => s.writer.WCaught?
    case WriterRechecks => s.writer.WResetting? && !s.writer.asleep
    case WriterLeaves => s.writer.WLeaving?
    case CallerReplies => s.err.None?
    case CallerTakes(i, n, took) => Looks(s, i) && 0 < n <= s.commands && (took.Waits? ==> n == s.commands)
    case CallerWaits(i) => Looks(s, i) && s.commands == 0
    case CallerWakes(i) => i < |s.callers| && s.callers[i] == Reading(false)
    case CallerResets(i, _) => i < |s.callers| && s.callers[i] == Outside
    case CallerRechecks(i) => i < |s.callers| && s.callers[i] == Resetting(false)
    case SpuriousWake(_) => s.hiccups > 0
  }

  function ReaderNext(s: State, m: Move): State
    requires Enabled(s, m) && IsReaderMove(m)
  {
    match m
    case ReaderBegins => s.(reader := RReceiving(s.socket.value))
    case ReaderReceives(n, got) =>
      var reader := match got case Part => s.reader case Whole => RPushing(s.reader.fd) case Malformed => RCaught;
      s.(unread := s.unread - n, reader := reader)
    case ReaderEof => s.(reader := RCaught)
    case ReaderFails => s.(reader := RCaught)
    case ReaderInterrupted => s.(hiccups := s.hiccups - 1)
    case ReaderPushes => Notify(s.(commands := s.commands + 1, reader := RReceiving(s.reader.fd)))
    case ReaderResets =>
      if s.reset then s.(reader := RLeaving)
      else BeginReset(s, ReadThread, Failure(ReadThread)).(reader := RResetting(true))
    case ReaderRechecks =>
      if WorkersRunning(s) then s.(reader := RResetting(true)) else CloseSockets(s).(reader := RLeaving)
    case ReaderLeaves => Notify(s.(readRunning := false, reader := RGone))
  }

  function WriterNext(s: State, m: Move): State
    requires Enabled(s, m) && IsWriterMove(m)
  {
    match m
    case WriterBegins => s.(writer := WChecking(s.socket.value))
    case WriterChecks(size) =>
      s.(replies := if s.err.None? && s.replies > 0 then s.replies - 1 else s.replies,
         writer := if s.err.Some? then WCaught
                   else if s.replies > 0 then WSending(s.writer.fd, size)
                   else WAsleep(s.writer.fd))
    case WriterSends(n) => s.(writer := WSending(s.writer.fd, s.writer.left - n))
    case WriterSent => s.(writer := WChecking(s.writer.fd))
    case WriterFails => s.(writer := WCaught)
    case WriterInterrupted => s.(hiccups := s.hiccups - 1)
    case WriterResets =>
      if s.reset then s.(writer := WLeaving)
      else BeginReset(s, WriteThread, Failure(WriteThread)).(writer := WResetting(true))
    case WriterRechecks =>
      if WorkersRunning(s) then s.(writer := WResetting(true)) else CloseSockets(s).(writer := WLeaving)
    case WriterLeaves => Notify(s.(writeRunning := false, writer := WGone))
  }

  function SpuriousNext(s: State, who: Who): State
    requires s.hiccups > 0
  {
    s.(hiccups := s.hiccups - 1,
       reader := if who == ReadThread && s.reader.RResetting? then RResetting(false) else s.reader,
       writer := if who == WriteThread && s.writer.WAsleep? then WChecking(s.writer.fd)
                 else if who == WriteThread && s.writer.WResetting? then WResetting(false)
                 else s.writer,
       callers := if who.Caller? && who.id < |s.callers|
                  then s.callers[who.id := Wake(s.callers[who.id])] else s.callers)
  }

  /** What `start` has done by the time it has set both running flags. */
  function Attach(s: State, a: int, b: int, reader: Reader, writer: Writer): State {
    s.(started := true, socket := Some(a), usbipSocket := None, open := s.open + {a}, closed := s.closed + [b],
       readRunning := true, writeRunning := true, reader := reader, writer := writer)
  }

  function OtherNext(s: State, m: Move): State
    requires Enabled(s, m) && !IsReaderMove(m) && !IsWriterMove(m)
  {
    match m
    // Before the running flags are set, the _reset of a failed start does not wait
    case Start(i, NoSockets, _, _) =>
      CloseSockets(BeginReset(s, Caller(i), Failure(Caller(i))).(started := true))
    case Start(i, NotAttached, a, b) =>
      CloseSockets(BeginReset(s, Caller(i), Failure(Caller(i))).(
        started := true, socket := Some(a), usbipSocket := Some(b), open := s.open + {a, b}, shut := true))
    // Afterwards it waits for both, whether or not the threads were created
    case Start(i, NoReadThread, a, b) => ResetByCaller(Attach(s, a, b, RMissing, WMissing), i, Failure(Caller(i)))
    case Start(i, NoWriteThread, a, b) => ResetByCaller(Attach(s, a, b, RBegin, WMissing), i, Failure(Caller(i)))
    case Start(i, Attached, a, b) => Attach(s, a, b, RBegin, WBegin)
    case PeerSends(n) => s.(unread := s.unread + n)
    case PeerCloses => s.(peerClosed := true)
    case CallerReplies => Notify(s.(replies := s.replies + 1))
    // The replies that handling the commands queues are steps of their own
    case CallerTakes(i, n, took) =>
      var t := s.(commands := s.commands - n);
      if took.Throws? then ResetByCaller(t, i, Failure(Caller(i)))
      else t.(callers := t.callers[i := if took.Returns? then Outside else Reading(true)])
    case CallerWaits(i) => s.(callers := s.callers[i := Reading(true)])
    case CallerWakes(i) =>
      // An error ends the call through _reset, which has nothing left to do
      if s.err.Some? then ResetByCaller(s, i, s.err.value)
      else s.(callers := s.callers[i := Outside])
    case CallerResets(i, cause) => ResetByCaller(s, i, cause)
    case CallerRechecks(i) =>
      if WorkersRunning(s) then s.(callers := s.callers[i := Resetting(true)])
      else CloseSockets(s).(callers := s.callers[i := Outside])
    case SpuriousWake(who) => SpuriousNext(s, who)
  }

  function Next(s: State, m: Move): State
    requires Enabled(s, m)
  {
    if IsReaderMove(m) then ReaderNext(s, m) else if IsWriterMove(m) then WriterNext(s, m) else OtherNext(s, m)
  }

  function Init(callers: nat, hiccups: nat): State {
    State(false, false, None, None, None, None, false, false, RAbsent, WAbsent, seq(callers, _ => Outside), 0, 0, {}, [],
          false, false, 0, hiccups)
  }

  /** The states that the steps `ms` lead through. */
  ghost predicate IsRun(ss: seq<State>, ms: seq<Move>) {
    && |ss| == |ms| + 1
    && (exists callers, hiccups :: ss[0] == Init(callers, hiccups))
    && IsPath(ss, ms)
  }

  ghost predicate IsPath(ss: seq<State>, ms: seq<Move>) {
    && |ss| == |ms| + 1
    && forall k :: 0 <= k < |ms| ==> Enabled(ss[k], ms[k]) && ss[k + 1] == Next(ss[k], ms[k])
  }

  // ----- safety -----

  predicate Uses(s: State, fd: int) {
    || (s.reader.RReceiving? && s.reader.fd == fd)
    || (s.reader.RPushing? && s.reader.fd == fd)
    || (s.writer.WChecking? && s.writer.fd == fd)
    || (s.writer.WAsleep? && s.writer.fd == fd)
    || (s.writer.WSending? && s.writer.fd == fd)
  }

  ghost predicate NoDuplicates(fds: seq<int>) {
    forall i, j :: 0 <= i < j < |fds| ==> fds[i] != fds[j]
  }

  /** The running flags say where the workers are, and while one runs the sockets are as `start` left them. */
  ghost predicate Workers(s: State) {
    && (s.readRunning <==> !s.reader.RAbsent? && !s.reader.RGone?)
    && (s.writeRunning <==> !s.writer.WAbsent? && !s.writer.WGone?)
    && (s.reader.RAbsent? <==> s.writer.WAbsent?)
    && s.usbipSocket.None?
    && (WorkersRunning(s) ==> s.socket.Some?)
    && (forall fd :: Uses(s, fd) ==> s.socket == Some(fd))
    && (s.socket.Some? ==> s.started && !s.reader.RAbsent?)
    && (!s.reader.RAbsent? ==> s.started)
  }

  /** Open descriptors are those in the fields, and none of them has been closed before. */
  ghost predicate Descriptors(s: State) {
    && (forall fd :: fd in s.open <==> s.socket == Some(fd) || s.usbipSocket == Some(fd))
    && (forall fd :: fd in s.open ==> fd !in s.closed)
    && NoDuplicates(s.closed)
    && (!s.started ==> s.closed == [])
  }

  predicate WaitsInReset(s: State, who: Who) {
    match who
    case ReadThread => s.reader.RResetting?
    case WriteThread => s.writer.WResetting?
    case Caller(i) => i < |s.callers| && s.callers[i].Resetting?
  }

  /** Only the thread that started the reset waits in it; a worker that did never gets out. */
  ghost predicate Initiator(s: State) {
    && (s.reset <==> s.err.Some?)
    && (s.initiator.Some? ==> s.reset)
    && (forall who :: WaitsInReset(s, who) ==> s.initiator == Some(who))
    && (s.initiator == Some(ReadThread) ==> s.reader.RResetting?)
    && (s.initiator == Some(WriteThread) ==> s.writer.WResetting?)
    && (s.initiator.Some? && s.initiator.value.Caller? && s.socket.Some? ==> WaitsInReset(s, s.initiator.value))
    && (s.reset && s.socket.Some? ==> s.initiator.Some? && s.shut)
  }

  /** No one sleeps through what it is waiting for. */
  ghost predicate NoLostWakeup(s: State) {
    && (s.writer.WAsleep? ==> !s.reset && s.replies == 0)
    && (forall i :: 0 <= i < |s.callers| && s.callers[i] == Reading(true) ==> !s.reset && s.commands == 0)
    && (!WorkersRunning(s) ==> forall i :: 0 <= i < |s.callers| ==> s.callers[i] != Resetting(true))
  }

  ghost predicate Inv(s: State) {
    Workers(s) && Descriptors(s) && Initiator(s) && NoLostWakeup(s)
  }

  lemma BeginResetKeeps(s: State, who: Who, cause: Cause)
    requires Inv(s) && !s.reset
    ensures var t := BeginReset(s, who, cause);
            && Workers(t) && Descriptors(t)
            && t.reset && t.err == Some(cause) && t.initiator == Some(who)
            && (s.socket.Some? ==> t.shut)
            && (forall w :: !WaitsInReset(t, w))
            && !t.writer.WAsleep? && |t.callers| == |s.callers|
            && (forall i :: 0 <= i < |s.callers| ==> t.callers[i] == Outside || t.callers[i] == Reading(false))
            && t.reader == s.reader && t.socket == s.socket
            && (t.writer == s.writer || (s.writer.WAsleep? && t.writer == WChecking(s.writer.fd)))
  {
    var t := BeginReset(s, who, cause);
    assert forall w :: !WaitsInReset(s, w);
    assert !WaitsInReset(s, ReadThread) && !WaitsInReset(s, WriteThread);
    forall i | 0 <= i < |s.callers| ensures t.callers[i] == Outside || t.callers[i] == Reading(false) {
      assert !WaitsInReset(s, Caller(i));
    }
    forall w ensures !WaitsInReset(t, w) {
      assert !WaitsInReset(s, w);
    }
    forall fd | Uses(t, fd) ensures Uses(s, fd) {
    }
  }

  lemma AttachKeeps(s: State, a: int, b: int, reader: Reader, writer: Writer)
    requires Inv(s) && !s.started && !s.reset && a != b
    requires (reader.RBegin? || reader.RMissing?) && (writer.WBegin? || writer.WMissing?)
    ensures Inv(Attach(s, a, b, reader, writer))
  {
    var t := Attach(s, a, b, reader, writer);
    assert s.closed == [] && s.socket.None? && s.reader.RAbsent?;
    forall who | WaitsInReset(t, who) ensures t.initiator == Some(who) {
      assert WaitsInReset(s, who);
    }
  }

  lemma StrandedKeeps(s: State, m: Move)
    requires Inv(s) && m.Start? && (m.outcome.NoReadThread? || m.outcome.NoWriteThread?) && Enabled(s, m)
    ensures Inv(OtherNext(s, m))
  {
    hide Inv, ResetByCaller, Attach;
    var reader := if m.outcome.NoReadThread? then RMissing else RBegin;
    AttachKeeps(s, m.a, m.b, reader, WMissing);
    assert Attach(s, m.a, m.b, reader, WMissing).callers == s.callers by { AttachCallers(s, m.a, m.b, reader); }
    ResetByCallerKeeps(Attach(s, m.a, m.b, reader, WMissing), m.i, Failure(Caller(m.i)));
  }

  lemma AttachCallers(s: State, a: int, b: int, reader: Reader)
    ensures Attach(s, a, b, reader, WMissing).callers == s.callers
  {
  }

  lemma StartFailsKeeps(s: State, m: Move)
    requires Inv(s) && m.Start? && (m.outcome.NoSockets? || m.outcome.NotAttached?) && Enabled(s, m)
    ensures Inv(OtherNext(s, m))
  {
    var t := OtherNext(s, m);
    assert s.closed == [] && s.socket.None? && s.reader.RAbsent?;
    var r := BeginReset(s, Caller(m.i), Failure(Caller(m.i)));
    BeginResetKeeps(s, Caller(m.i), Failure(Caller(m.i)));
    forall who ensures !WaitsInReset(t, who) {
      assert !WaitsInReset(r, who);
    }
    assert forall fd :: Uses(t, fd) <==> Uses(r, fd);
  }

  lemma StartKeeps(s: State, m: Move)
    requires Inv(s) && m.Start? && Enabled(s, m)
    ensures Inv(Next(s, m))
  {
    hide Inv, OtherNext, ReaderNext, WriterNext;
    if m.outcome.Attached? {
      AttachKeeps(s, m.a, m.b, RBegin, WBegin);
      assert OtherNext(s, m) == Attach(s, m.a, m.b, RBegin, WBegin) by { StartAttaches(s, m); }
    } else if m.outcome.NoReadThread? || m.outcome.NoWriteThread? {
      StrandedKeeps(s, m);
    } else {
      StartFailsKeeps(s, m);
    }
  }

  lemma StartAttaches(s: State, m: Move)
    requires m.Start? && m.outcome.Attached? && Enabled(s, m)
    ensures OtherNext(s, m) == Attach(s, m.a, m.b, RBegin, WBegin)
  {
  }

  /** A socket call, or another step outside the shared regions, of the read thread. */
  lemma ReaderAloneKeeps(s: State, m: Move)
    requires Inv(s) && Enabled(s, m)
    requires m.ReaderBegins? || m.ReaderReceives? || m.ReaderEof? || m.ReaderFails? || m.ReaderInterrupted?
    ensures Inv(Next(s, m))
  {
    hide WriterNext, OtherNext;
    var t := Next(s, m);
    assert s.readRunning;
    forall fd | Uses(t, fd) ensures t.socket == Some(fd) {
      assert Uses(s, fd) || s.socket == Some(fd);
    }
    forall who | WaitsInReset(t, who) ensures t.initiator == Some(who) {
      assert WaitsInReset(s, who);
    }
  }

  lemma WriterAloneKeeps(s: State, m: Move)
    requires Inv(s) && Enabled(s, m)
    requires m.WriterBegins? || m.WriterChecks? || m.WriterSends? || m.WriterSent? || m.WriterFails?
             || m.WriterInterrupted?
    ensures Inv(Next(s, m))
  {
    hide ReaderNext, OtherNext;
    var t := Next(s, m);
    assert s.writeRunning;
    forall fd | Uses(t, fd) ensures t.socket == Some(fd) {
      assert Uses(s, fd) || s.socket == Some(fd);
    }
    forall who | WaitsInReset(t, who) ensures t.initiator == Some(who) {
      assert WaitsInReset(s, who);
    }
  }

  /** The sockets are closed by a thread that has found both workers gone. */
  lemma CloseKeeps(s: State)
    requires Workers(s) && Descriptors(s) && !WorkersRunning(s)
    ensures Workers(CloseSockets(s)) && Descriptors(CloseSockets(s))
    ensures CloseSockets(s) == s.(open := CloseSockets(s).open, closed := CloseSockets(s).closed, socket := None)
  {
    var t := CloseSockets(s);
    assert forall fd :: Uses(t, fd) <==> Uses(s, fd);
  }

  lemma ShortCircuitKeeps(s: State, i: nat)
    requires Inv(s) && i < |s.callers| && !s.callers[i].Resetting?
    ensures Inv(s.(callers := s.callers[i := Outside]))
  {
    CallerMovesKeeps(s, i, Outside);
  }

  lemma FirstResetKeeps(s: State, i: nat, cause: Cause)
    requires Inv(s) && i < |s.callers| && !s.callers[i].Resetting? && !s.reset
    ensures Inv(ResetByCaller(s, i, cause))
  {
    hide BeginReset, CloseSockets;
    var t := ResetByCaller(s, i, cause);
    var r := BeginReset(s, Caller(i), cause);
    BeginResetKeeps(s, Caller(i), cause);
    if !WorkersRunning(r) {
      CloseKeeps(r);
    }
    forall who ensures WaitsInReset(t, who) <==> WorkersRunning(r) && who == Caller(i) {
      assert !WaitsInReset(r, who);
    }
    assert forall fd :: Uses(t, fd) <==> Uses(r, fd);
  }

  lemma ResetByCallerKeeps(s: State, i: nat, cause: Cause)
    requires Inv(s) && i < |s.callers| && !s.callers[i].Resetting?
    ensures Inv(ResetByCaller(s, i, cause))
  {
    hide Inv;
    if s.reset {
      ShortCircuitKeeps(s, i);
    } else {
      FirstResetKeeps(s, i, cause);
    }
  }

  lemma WorkerShortCircuitKeeps(s: State, m: Move)
    requires Inv(s) && (m.ReaderResets? || m.WriterResets?) && Enabled(s, m) && s.reset
    ensures Inv(Next(s, m))
  {
    hide OtherNext;
    var t := Next(s, m);
    forall who | WaitsInReset(t, who) ensures t.initiator == Some(who) {
      assert WaitsInReset(s, who);
    }
    assert forall fd :: Uses(t, fd) <==> Uses(s, fd);
  }

  lemma WorkerFirstResetKeeps(s: State, m: Move)
    requires Inv(s) && (m.ReaderResets? || m.WriterResets?) && Enabled(s, m) && !s.reset
    ensures Inv(Next(s, m))
  {
    hide OtherNext, BeginReset;
    var t := Next(s, m);
    var me := if m.ReaderResets? then ReadThread else WriteThread;
    var r := BeginReset(s, me, Failure(me));
    BeginResetKeeps(s, me, Failure(me));
    forall who ensures WaitsInReset(t, who) <==> who == me {
      assert !WaitsInReset(r, who);
    }
    assert forall fd :: Uses(t, fd) ==> Uses(r, fd);
  }

  lemma WorkerResetKeeps(s: State, m: Move)
    requires Inv(s) && (m.ReaderResets? || m.WriterResets?) && Enabled(s, m)
    ensures Inv(Next(s, m))
  {
    hide Inv, Next, Enabled;
    if s.reset {
      WorkerShortCircuitKeeps(s, m);
    } else {
      WorkerFirstResetKeeps(s, m);
    }
  }

  /** After a notification no one sleeps, whatever has been queued just before. */
  lemma NotifyKeeps(s: State)
    requires Workers(s) && Descriptors(s) && Initiator(s)
    ensures Inv(Notify(s))
  {
    var t := Notify(s);
    forall who ensures WaitsInReset(t, who) <==> WaitsInReset(s, who) {
    }
    forall fd ensures Uses(t, fd) <==> Uses(s, fd) {
    }
  }

  lemma WorkerLeavesKeeps(s: State, m: Move)
    requires Inv(s) && (m.ReaderLeaves? || m.WriterLeaves?) && Enabled(s, m)
    ensures Inv(Next(s, m))
  {
    hide OtherNext;
    var t := Next(s, m);
    forall who ensures WaitsInReset(t, who) <==> WaitsInReset(s, who) {
    }
    forall fd ensures Uses(t, fd) <==> Uses(s, fd) {
    }
  }

  lemma ReaderPushesKeeps(s: State)
    requires Inv(s) && s.reader.RPushing?
    ensures Inv(Next(s, ReaderPushes))
  {
    hide WriterNext, OtherNext;
    var q := s.(commands := s.commands + 1, reader := RReceiving(s.reader.fd));
    forall who ensures WaitsInReset(q, who) <==> WaitsInReset(s, who) {
    }
    forall fd ensures Uses(q, fd) <==> Uses(s, fd) {
    }
    NotifyKeeps(q);
  }

  lemma CallerKeeps(s: State, m: Move)
    requires Inv(s) && Enabled(s, m)
    requires m.CallerReplies? || m.CallerTakes? || m.CallerWaits? || m.CallerWakes? || m.CallerResets?
             || m.CallerRechecks?
    ensures Inv(Next(s, m))
  {
    hide Inv, ResetByCaller, Notify, CloseSockets, ReaderNext, WriterNext;
    match m
    case CallerReplies => MoreRepliesKeeps(s);
    case CallerTakes(i, n, took) =>
      assert !s.reset by { ErrMeansReset(s); }
      var t := s.(commands := s.commands - n);
      FewerCommands(s, n);
      if took.Throws? {
        ResetByCallerKeeps(t, i, Failure(Caller(i)));
      } else {
        CallerMovesKeeps(t, i, if took.Returns? then Outside else Reading(true));
      }
    case CallerWaits(i) =>
      assert !s.reset by { ErrMeansReset(s); }
      CallerMovesKeeps(s, i, Reading(true));
    case CallerWakes(i) =>
      if s.err.Some? {
        ResetByCallerKeeps(s, i, s.err.value);
      } else {
        CallerMovesKeeps(s, i, Outside);
      }
    case CallerResets(i, cause) => ResetByCallerKeeps(s, i, cause);
    case CallerRechecks(i) =>
      if WorkersRunning(s) {
        CallerMovesKeeps(s, i, Resetting(true));
      } else {
        CloseByCallerKeeps(s, i);
      }
  }

  lemma ErrMeansReset(s: State)
    requires Inv(s)
    ensures s.reset <==> s.err.Some?
  {
  }

  lemma FewerCommands(s: State, n: nat)
    requires Inv(s) && n <= s.commands
    ensures Inv(s.(commands := s.commands - n))
  {
    var t := s.(commands := s.commands - n);
    forall w ensures WaitsInReset(t, w) <==> WaitsInReset(s, w) {
    }
    forall fd ensures Uses(t, fd) <==> Uses(s, fd) {
    }
  }

  lemma MoreRepliesKeeps(s: State)
    requires Inv(s)
    ensures Inv(Notify(s.(replies := s.replies + 1)))
  {
    var q := s.(replies := s.replies + 1);
    forall who ensures WaitsInReset(q, who) <==> WaitsInReset(s, who) {
    }
    forall fd ensures Uses(q, fd) <==> Uses(s, fd) {
    }
    NotifyKeeps(q);
  }

  lemma CallerMovesKeeps(s: State, i: nat, c: ApiCaller)
    requires Inv(s) && i < |s.callers|
    requires c.Resetting? <==> s.callers[i].Resetting?
    requires c == Reading(true) ==> !s.reset && s.commands == 0
    requires c == Resetting(true) ==> WorkersRunning(s)
    ensures Inv(s.(callers := s.callers[i := c]))
  {
    var t := s.(callers := s.callers[i := c]);
    forall who ensures WaitsInReset(t, who) <==> WaitsInReset(s, who) {
    }
    forall fd ensures Uses(t, fd) <==> Uses(s, fd) {
    }
  }

  lemma CloseByCallerKeeps(s: State, i: nat)
    requires Inv(s) && i < |s.callers| && s.callers[i].Resetting? && !WorkersRunning(s)
    ensures Inv(CloseSockets(s).(callers := s.callers[i := Outside]))
  {
    CloseKeeps(s);
    var t := CloseSockets(s).(callers := s.callers[i := Outside]);
    forall who | WaitsInReset(t, who) ensures t.initiator == Some(who) {
      assert WaitsInReset(s, who);
    }
    forall fd ensures Uses(t, fd) <==> Uses(s, fd) {
    }
  }

  lemma RecheckKeeps(s: State, m: Move)
    requires Inv(s) && (m.ReaderRechecks? || m.WriterRechecks?) && Enabled(s, m)
    ensures Inv(Next(s, m)) && WorkersRunning(s)
  {
    hide OtherNext;
    var t := Next(s, m);
    forall who ensures WaitsInReset(t, who) <==> WaitsInReset(s, who) {
    }
    forall fd ensures Uses(t, fd) <==> Uses(s, fd) {
    }
  }

  lemma FewerHiccups(s: State)
    requires Inv(s) && s.hiccups > 0
    ensures Inv(s.(hiccups := s.hiccups - 1))
  {
    var t := s.(hiccups := s.hiccups - 1);
    forall w ensures WaitsInReset(t, w) <==> WaitsInReset(s, w) {
    }
    forall fd ensures Uses(t, fd) <==> Uses(s, fd) {
    }
  }

  lemma WorkerWakes(s: State, reader: Reader, writer: Writer)
    requires Inv(s)
    requires reader == s.reader || (s.reader.RResetting? && reader == RResetting(false))
    requires || writer == s.writer
             || (s.writer.WResetting? && writer == WResetting(false))
             || (s.writer.WAsleep? && writer == WChecking(s.writer.fd))
    ensures Inv(s.(reader := reader, writer := writer))
  {
    var t := s.(reader := reader, writer := writer);
    forall w ensures WaitsInReset(t, w) <==> WaitsInReset(s, w) {
    }
    forall fd ensures Uses(t, fd) <==> Uses(s, fd) {
    }
  }

  lemma SpuriousIs(s: State, who: Who)
    requires s.hiccups > 0
    ensures Next(s, SpuriousWake(who)) == SpuriousNext(s, who)
  {
    hide ReaderNext, WriterNext, SpuriousNext, ResetByCaller, Notify, CloseSockets;
  }

  lemma SpuriousKeeps(s: State, who: Who)
    requires Inv(s) && s.hiccups > 0
    ensures Inv(Next(s, SpuriousWake(who)))
  {
    SpuriousIs(s, who);
    hide Inv, Next, ReaderNext, WriterNext, OtherNext;
    FewerHiccups(s);
    var q, t := s.(hiccups := s.hiccups - 1), SpuriousNext(s, who);
    if who.Caller? {
      if who.id < |q.callers| {
        CallerMovesKeeps(q, who.id, Wake(q.callers[who.id]));
      }
    } else {
      WorkerWakes(q, t.reader, t.writer);
      assert t == q.(reader := t.reader, writer := t.writer);
    }
  }

  lemma PeerKeeps(s: State, m: Move)
    requires Inv(s) && (m.PeerSends? || m.PeerCloses?) && Enabled(s, m)
    ensures Inv(Next(s, m))
  {
    hide ReaderNext, WriterNext;
    var t := Next(s, m);
    forall w ensures WaitsInReset(t, w) <==> WaitsInReset(s, w) {
    }
    forall fd ensures Uses(t, fd) <==> Uses(s, fd) {
    }
  }

  lemma StepKeeps(s: State, m: Move)
    requires Inv(s) && Enabled(s, m)
    ensures Inv(Next(s, m))
  {
    hide Inv, Next;
    match m
    case Start(_, _, _, _) => StartKeeps(s, m);
    case PeerSends(_) => PeerKeeps(s, m);
    case PeerCloses => PeerKeeps(s, m);
    case ReaderPushes => ReaderPushesKeeps(s);
    case ReaderResets => WorkerResetKeeps(s, m);
    case WriterResets => WorkerResetKeeps(s, m);
    case ReaderRechecks => RecheckKeeps(s, m);
    case WriterRechecks => RecheckKeeps(s, m);
    case ReaderLeaves => WorkerLeavesKeeps(s, m);
    case WriterLeaves => WorkerLeavesKeeps(s, m);
    case SpuriousWake(who) => SpuriousKeeps(s, who);
    case ReaderBegins => ReaderAloneKeeps(s, m);
    case ReaderReceives(_, _) => ReaderAloneKeeps(s, m);
    case ReaderEof => ReaderAloneKeeps(s, m);
    case ReaderFails => ReaderAloneKeeps(s, m);
    case ReaderInterrupted => ReaderAloneKeeps(s, m);
    case WriterBegins => WriterAloneKeeps(s, m);
    case WriterChecks(_) => WriterAloneKeeps(s, m);
    case WriterSends(_) => WriterAloneKeeps(s, m);
    case WriterSent => WriterAloneKeeps(s, m);
    case WriterFails => WriterAloneKeeps(s, m);
    case WriterInterrupted => WriterAloneKeeps(s, m);
    case _ => CallerKeeps(s, m);
  }

  lemma InitKeeps(callers: nat, hiccups: nat)
    ensures Inv(Init(callers, hiccups))
  {
    assert forall who :: !WaitsInReset(Init(callers, hiccups), who);
  }

  lemma {:induction false} PathInv(ss: seq<State>, ms: seq<Move>, k: nat)
    requires IsPath(ss, ms) && Inv(ss[0]) && k <= |ms|
    ensures Inv(ss[k])
  {
    hide Inv, Enabled, Next;
    if k > 0 {
      PathInv(ss, ms, k - 1);
      StepKeeps(ss[k - 1], ms[k - 1]);
      assert ss[k - 1 + 1] == Next(ss[k - 1], ms[k - 1]);
    }
  }

  lemma RunInv(ss: seq<State>, ms: seq<Move>, k: nat)
    requires IsRun(ss, ms) && k <= |ms|
    ensures Inv(ss[k])
  {
    hide Inv, Enabled, Next;
    var callers, hiccups :| ss[0] == Init(callers, hiccups);
    InitKeeps(callers, hiccups);
    PathInv(ss, ms, k);
  }

  /**
   In every state of every run: a descriptor that a worker may still use is open and has never been closed,
   and no descriptor has been closed twice.
   */
  lemma DescriptorSafety(ss: seq<State>, ms: seq<Move>, k: nat)
    requires IsRun(ss, ms) && k <= |ms|
    ensures forall fd :: Uses(ss[k], fd) ==> fd in ss[k].open && fd !in ss[k].closed && WorkersRunning(ss[k])
    ensures NoDuplicates(ss[k].closed)
  {
    RunInv(ss, ms, k);
  }

  /** After `start`, sockets are closed only in a step that finds both running flags cleared and no descriptor in use. */
  lemma ClosedAfterWorkers(ss: seq<State>, ms: seq<Move>, k: nat)
    requires IsRun(ss, ms) && k < |ms| && !ms[k].Start?
    requires ss[k + 1].closed != ss[k].closed
    ensures !WorkersRunning(ss[k]) && forall fd :: !Uses(ss[k], fd)
  {
    RunInv(ss, ms, k);
    assert ss[k + 1] == Next(ss[k], ms[k]);
    if WorkersRunning(ss[k]) {
      StepFrame(ss[k], ms[k]);
    }
  }

  /**
   The descriptors stay as they are, unless no worker runs and whatever is open is closed; the cause of a
   reset that has begun stays, too; no thread comes to be missing.
   */
  ghost predicate Framed(s: State, t: State) {
    && (t.reader.RMissing? <==> s.reader.RMissing?) && (t.writer.WMissing? <==> s.writer.WMissing?)
    && t.started == s.started
    && (Untouched(s, t) || (!WorkersRunning(s) && ClosedIn(s, t)))
    && (s.reset ==> t.err == s.err && t.initiator == s.initiator)
  }

  predicate SameQueues(s: State, t: State) {
    t.commands == s.commands && t.replies == s.replies && t.unread == s.unread
  }

  predicate Untouched(s: State, t: State) {
    t.socket == s.socket && t.usbipSocket == s.usbipSocket && t.open == s.open && t.closed == s.closed
  }

  /** The descriptors in the fields are closed, in this order, and the fields cleared. */
  ghost predicate ClosedIn(s: State, t: State) {
    && t.socket == None && t.usbipSocket == None
    && t.closed == s.closed + (if s.socket.Some? then [s.socket.value] else [])
                            + (if s.usbipSocket.Some? then [s.usbipSocket.value] else [])
    && forall fd :: fd in t.open <==> fd in s.open && s.socket != Some(fd) && s.usbipSocket != Some(fd)
  }

  lemma ClosedInSame(s: State, t: State, u: State)
    requires ClosedIn(s, t) && Untouched(t, u)
    ensures ClosedIn(s, u)
  {
  }

  lemma NotifyFrame(s: State)
    ensures var t := Notify(s);
            && t == s.(writer := t.writer, reader := t.reader, callers := t.callers)
            && (t.reader.RMissing? <==> s.reader.RMissing?) && (t.writer.WMissing? <==> s.writer.WMissing?)
  {
  }

  lemma BeginResetFrame(s: State, who: Who, cause: Cause)
    ensures var t := BeginReset(s, who, cause);
            && Untouched(s, t) && t.started == s.started && (WorkersRunning(t) <==> WorkersRunning(s))
            && t.reset && t.err == Some(cause) && SameQueues(s, t)
            && |t.callers| == |s.callers|
            && (t.reader.RMissing? <==> s.reader.RMissing?) && (t.writer.WMissing? <==> s.writer.WMissing?)
  {
    hide Notify;
    NotifyFrame(s.(reset := true, err := Some(cause), initiator := Some(who)));
    assert |BeginReset(s, who, cause).callers| == |s.callers| by { NotifyCallers(s, who, cause); }
  }

  lemma NotifyCallers(s: State, who: Who, cause: Cause)
    ensures |BeginReset(s, who, cause).callers| == |s.callers|
  {
  }

  lemma CloseFrame(s: State)
    ensures var t := CloseSockets(s);
            && t.err == s.err && t.initiator == s.initiator && t.reader == s.reader && t.writer == s.writer
            && t.started == s.started && t.reset == s.reset && SameQueues(s, t) && ClosedIn(s, t)
  {
  }

  lemma ReaderFrame(s: State, m: Move)
    requires Enabled(s, m) && IsReaderMove(m)
    ensures Framed(s, ReaderNext(s, m))
  {
    hide Framed, ReaderNext, Enabled;
    if m.ReaderResets? {
      ReaderResetsFrame(s);
    } else if m.ReaderRechecks? {
      ReaderRechecksFrame(s);
    } else if m.ReaderLeaves? || m.ReaderPushes? {
      ReaderNotifiesFrame(s, m);
    } else {
      ReaderReceivesFrame(s, m);
    }
  }

  lemma ReaderResetsFrame(s: State)
    requires Enabled(s, ReaderResets)
    ensures Framed(s, ReaderNext(s, ReaderResets))
  {
    hide BeginReset, CloseSockets;
    BeginResetFrame(s, ReadThread, Failure(ReadThread));
  }

  lemma ReaderRechecksFrame(s: State)
    requires Enabled(s, ReaderRechecks)
    ensures Framed(s, ReaderNext(s, ReaderRechecks))
  {
    hide BeginReset, CloseSockets, ClosedIn;
    CloseFrame(s);
    if !WorkersRunning(s) {
      ClosedInSame(s, CloseSockets(s), ReaderNext(s, ReaderRechecks));
    }
  }

  lemma ReaderNotifiesFrame(s: State, m: Move)
    requires Enabled(s, m) && (m.ReaderLeaves? || m.ReaderPushes?)
    ensures Framed(s, ReaderNext(s, m))
  {
    hide Notify;
    NotifyFrame(if m.ReaderLeaves? then s.(readRunning := false, reader := RGone)
                else s.(commands := s.commands + 1, reader := RReceiving(s.reader.fd)));
  }

  lemma ReaderReceivesFrame(s: State, m: Move)
    requires Enabled(s, m)
    requires m.ReaderBegins? || m.ReaderReceives? || m.ReaderEof? || m.ReaderFails? || m.ReaderInterrupted?
    ensures Framed(s, ReaderNext(s, m))
  {
    hide Notify, BeginReset, CloseSockets;
  }

  lemma WriterFrame(s: State, m: Move)
    requires Enabled(s, m) && IsWriterMove(m)
    ensures Framed(s, WriterNext(s, m))
  {
    hide Framed, WriterNext, Enabled;
    if m.WriterResets? {
      WriterResetsFrame(s);
    } else if m.WriterRechecks? {
      WriterRechecksFrame(s);
    } else if m.WriterLeaves? {
      WriterLeavesFrame(s);
    } else if m.WriterBegins? {
      WriterBeginsFrame(s);
    } else if m.WriterChecks? {
      WriterChecksFrame(s, m.size);
    } else {
      WriterSendsFrame(s, m);
    }
  }

  lemma WriterBeginsFrame(s: State)
    requires Enabled(s, WriterBegins)
    ensures Framed(s, WriterNext(s, WriterBegins))
  {
    hide Notify, BeginReset, CloseSockets;
  }

  lemma WriterChecksFrame(s: State, size: nat)
    requires Enabled(s, WriterChecks(size))
    ensures Framed(s, WriterNext(s, WriterChecks(size)))
  {
    hide Notify, BeginReset, CloseSockets;
  }

  lemma WriterSendsFrame(s: State, m: Move)
    requires Enabled(s, m) && (m.WriterSends? || m.WriterSent? || m.WriterFails? || m.WriterInterrupted?)
    ensures Framed(s, WriterNext(s, m))
  {
    hide Notify, BeginReset, CloseSockets;
  }

  lemma WriterResetsFrame(s: State)
    requires Enabled(s, WriterResets)
    ensures Framed(s, WriterNext(s, WriterResets))
  {
    hide BeginReset, CloseSockets;
    BeginResetFrame(s, WriteThread, Failure(WriteThread));
  }

  lemma WriterRechecksFrame(s: State)
    requires Enabled(s, WriterRechecks)
    ensures Framed(s, WriterNext(s, WriterRechecks))
  {
    hide BeginReset, CloseSockets, ClosedIn;
    CloseFrame(s);
    if !WorkersRunning(s) {
      ClosedInSame(s, CloseSockets(s), WriterNext(s, WriterRechecks));
    }
  }

  lemma WriterLeavesFrame(s: State)
    requires Enabled(s, WriterLeaves)
    ensures Framed(s, WriterNext(s, WriterLeaves))
  {
    hide Notify;
    NotifyFrame(s.(writeRunning := false, writer := WGone));
  }

  lemma ResetByCallerFrame(s: State, i: nat, cause: Cause)
    requires i < |s.callers|
    ensures Framed(s, ResetByCaller(s, i, cause))
  {
    hide BeginReset, CloseSockets;
    BeginResetFrame(s, Caller(i), cause);
    CloseFrame(BeginReset(s, Caller(i), cause));
  }

  lemma CallerFrame(s: State, m: Move)
    requires Enabled(s, m) && !m.Start? && !IsReaderMove(m) && !IsWriterMove(m)
    ensures Framed(s, OtherNext(s, m))
  {
    hide ResetByCaller, Framed, OtherNext, Notify, CloseSockets, SpuriousNext;
    if m.SpuriousWake? {
      SpuriousFrame(s, m.who);
    } else if m.CallerReplies? {
      RepliesFrame(s);
    } else if m.CallerRechecks? {
      RecheckFrame(s, m.i);
    } else if m.CallerResets? || (m.CallerWakes? && s.err.Some?) {
      ResetsFrame(s, m);
    } else if m.CallerTakes? && m.took.Throws? {
      TakesFrame(s, m);
    } else if m.CallerTakes? || m.CallerWaits? || m.CallerWakes? {
      CallerAloneFrame(s, m);
    } else {
      PeerFrame(s, m);
    }
  }

  lemma ResetsFrame(s: State, m: Move)
    requires Enabled(s, m) && (m.CallerResets? || (m.CallerWakes? && s.err.Some?))
    ensures Framed(s, OtherNext(s, m))
  {
    hide ResetByCaller, Framed, Notify, CloseSockets, SpuriousNext;
    ResetByCallerFrame(s, m.i, if m.CallerResets? then m.cause else s.err.value);
  }

  lemma CallerAloneFrame(s: State, m: Move)
    requires Enabled(s, m)
    requires (m.CallerTakes? && !m.took.Throws?) || m.CallerWaits? || (m.CallerWakes? && s.err.None?)
    ensures Framed(s, OtherNext(s, m))
  {
    hide ResetByCaller, Notify, CloseSockets, SpuriousNext;
  }

  lemma PeerFrame(s: State, m: Move)
    requires Enabled(s, m) && (m.PeerSends? || m.PeerCloses?)
    ensures Framed(s, OtherNext(s, m))
  {
    hide ResetByCaller, Notify, CloseSockets, SpuriousNext;
  }

  lemma TakesFrame(s: State, m: Move)
    requires Enabled(s, m) && m.CallerTakes? && m.took.Throws?
    ensures Framed(s, OtherNext(s, m))
  {
    hide ResetByCaller;
    ResetByCallerFrame(s.(commands := s.commands - m.n), m.i, Failure(Caller(m.i)));
  }

  lemma SpuriousFrame(s: State, who: Who)
    requires s.hiccups > 0
    ensures Framed(s, OtherNext(s, SpuriousWake(who)))
  {
    hide ResetByCaller, Notify, CloseSockets;
  }

  lemma RepliesFrame(s: State)
    requires Enabled(s, CallerReplies)
    ensures Framed(s, OtherNext(s, CallerReplies))
  {
    hide ResetByCaller, Notify, CloseSockets, SpuriousNext;
    NotifyFrame(s.(replies := s.replies + 1));
  }

  lemma RecheckFrame(s: State, i: nat)
    requires Enabled(s, CallerRechecks(i))
    ensures Framed(s, OtherNext(s, CallerRechecks(i)))
  {
    hide CloseSockets, ClosedIn, ResetByCaller, SpuriousNext, Notify;
    CloseFrame(s);
    if !WorkersRunning(s) {
      ClosedInSame(s, CloseSockets(s), OtherNext(s, CallerRechecks(i)));
    }
  }

  lemma StepFrame(s: State, m: Move)
    requires Enabled(s, m) && !m.Start?
    ensures Framed(s, Next(s, m))
  {
    hide ReaderNext, WriterNext, OtherNext, Framed, Enabled;
    if IsReaderMove(m) {
      ReaderFrame(s, m);
    } else if IsWriterMove(m) {
      WriterFrame(s, m);
    } else {
      CallerFrame(s, m);
    }
  }

  lemma FirstCauseStays(s: State, m: Move)
    requires Inv(s) && Enabled(s, m) && s.err.Some?
    ensures Next(s, m).err == s.err && Next(s, m).initiator == s.initiator
  {
    hide Next, Workers, Descriptors, NoLostWakeup;
    assert s.reset && !m.Start?;
    StepFrame(s, m);
  }

  /** The first cause of a reset is kept for good. */
  lemma {:induction false} ErrIsFirstCause(ss: seq<State>, ms: seq<Move>, j: nat, k: nat)
    requires IsRun(ss, ms) && j <= k <= |ms| && ss[j].err.Some?
    ensures ss[k].err == ss[j].err && ss[k].initiator == ss[j].initiator
    decreases k
  {
    hide Inv, Enabled, Next;
    if j < k {
      ErrIsFirstCause(ss, ms, j, k - 1);
      RunInv(ss, ms, k - 1);
      FirstCauseStays(ss[k - 1], ms[k - 1]);
      assert ss[k - 1 + 1] == Next(ss[k - 1], ms[k - 1]);
    }
  }

  // ----- causes, and queues -----

  /** The cause that a step gives when it calls `_reset`. */
  function CauseOf(m: Move): Option<Cause> {
    match m
    case Start(i, outcome, _, _) => if outcome.Attached? then None else Some(Failure(Caller(i)))
    case ReaderResets => Some(Failure(ReadThread))
    case WriterResets => Some(Failure(WriteThread))
    case CallerTakes(i, _, Throws) => Some(Failure(Caller(i)))
    case CallerResets(_, cause) => Some(cause)
    case _ => None
  }

  /** What a step may do to the cause of the reset and to the queues. */
  ghost predicate Keeps(s: State, m: Move, t: State) {
    && t.err == (if s.err.Some? then s.err else CauseOf(m))
    && t.commands == s.commands + (if m.ReaderPushes? then 1 else 0) - (if m.CallerTakes? then m.n else 0)
    && t.unread == s.unread + (if m.PeerSends? then m.n else 0) - (if m.ReaderReceives? then m.n else 0)
    && t.replies == s.replies + (if m.CallerReplies? then 1 else 0) - (if Begins(s, t) then 1 else 0)
  }

  /** The write thread begins to send a reply. */
  predicate Begins(s: State, t: State) { !s.writer.WSending? && t.writer.WSending? }

  lemma ReaderKeepsQueues(s: State, m: Move)
    requires Enabled(s, m) && IsReaderMove(m) && (s.reset <==> s.err.Some?)
    ensures Keeps(s, m, ReaderNext(s, m))
  {
    hide Keeps, ReaderNext, Enabled;
    if m.ReaderResets? {
      ReaderResetKeepsQueues(s);
    } else if m.ReaderRechecks? {
      ReaderRecheckKeepsQueues(s);
    } else if m.ReaderPushes? || m.ReaderLeaves? {
      ReaderNotifyKeepsQueues(s, m);
    } else {
      ReaderAloneKeepsQueues(s, m);
    }
  }

  lemma ReaderResetKeepsQueues(s: State)
    requires Enabled(s, ReaderResets) && (s.reset <==> s.err.Some?)
    ensures Keeps(s, ReaderResets, ReaderNext(s, ReaderResets))
  {
    hide Notify, BeginReset, Untouched;
    BeginResetFrame(s, ReadThread, Failure(ReadThread));
    BeginResetWriter(s, ReadThread, Failure(ReadThread));
  }

  lemma ReaderRecheckKeepsQueues(s: State)
    requires Enabled(s, ReaderRechecks)
    ensures Keeps(s, ReaderRechecks, ReaderNext(s, ReaderRechecks))
  {
    hide Notify, CloseSockets, ClosedIn;
    CloseFrame(s);
  }

  lemma ReaderNotifyKeepsQueues(s: State, m: Move)
    requires Enabled(s, m) && (m.ReaderPushes? || m.ReaderLeaves?)
    ensures Keeps(s, m, ReaderNext(s, m))
  {
    hide Notify, BeginReset, CloseSockets;
    NotifyWriter(if m.ReaderPushes? then s.(commands := s.commands + 1, reader := RReceiving(s.reader.fd))
                 else s.(readRunning := false, reader := RGone));
  }

  lemma ReaderAloneKeepsQueues(s: State, m: Move)
    requires Enabled(s, m)
    requires m.ReaderBegins? || m.ReaderReceives? || m.ReaderEof? || m.ReaderFails? || m.ReaderInterrupted?
    ensures Keeps(s, m, ReaderNext(s, m))
  {
    hide Notify, BeginReset, CloseSockets;
  }

  lemma NotifyWriter(s: State)
    ensures var t := Notify(s); (t.writer.WSending? <==> s.writer.WSending?) && t.err == s.err && SameQueues(s, t)
  {
  }

  lemma BeginResetWriter(s: State, who: Who, cause: Cause)
    ensures BeginReset(s, who, cause).writer.WSending? <==> s.writer.WSending?
  {
  }

  lemma WriterKeepsQueues(s: State, m: Move)
    requires Enabled(s, m) && IsWriterMove(m) && (s.reset <==> s.err.Some?)
    ensures Keeps(s, m, WriterNext(s, m))
  {
    hide Keeps, WriterNext, Enabled;
    if m.WriterResets? {
      WriterResetKeepsQueues(s);
    } else if m.WriterRechecks? {
      WriterRecheckKeepsQueues(s);
    } else if m.WriterLeaves? {
      WriterLeaveKeepsQueues(s);
    } else if m.WriterChecks? {
      WriterCheckKeepsQueues(s, m.size);
    } else {
      WriterAloneKeepsQueues(s, m);
    }
  }

  lemma WriterResetKeepsQueues(s: State)
    requires Enabled(s, WriterResets) && (s.reset <==> s.err.Some?)
    ensures Keeps(s, WriterResets, WriterNext(s, WriterResets))
  {
    hide Notify, BeginReset, Untouched;
    BeginResetFrame(s, WriteThread, Failure(WriteThread));
  }

  lemma WriterRecheckKeepsQueues(s: State)
    requires Enabled(s, WriterRechecks)
    ensures Keeps(s, WriterRechecks, WriterNext(s, WriterRechecks))
  {
    hide Notify, CloseSockets, ClosedIn;
    CloseFrame(s);
  }

  lemma WriterLeaveKeepsQueues(s: State)
    requires Enabled(s, WriterLeaves)
    ensures Keeps(s, WriterLeaves, WriterNext(s, WriterLeaves))
  {
    hide Notify, BeginReset, CloseSockets;
    NotifyWriter(s.(writeRunning := false, writer := WGone));
  }

  lemma WriterCheckKeepsQueues(s: State, size: nat)
    requires Enabled(s, WriterChecks(size))
    ensures Keeps(s, WriterChecks(size), WriterNext(s, WriterChecks(size)))
  {
    hide Notify, BeginReset, CloseSockets;
  }

  lemma WriterAloneKeepsQueues(s: State, m: Move)
    requires Enabled(s, m)
    requires m.WriterBegins? || m.WriterSends? || m.WriterSent? || m.WriterFails? || m.WriterInterrupted?
    ensures Keeps(s, m, WriterNext(s, m))
  {
    hide Notify, BeginReset, CloseSockets;
  }

  lemma ResetKeepsQueues(s: State, i: nat, cause: Cause)
    requires i < |s.callers| && (s.reset <==> s.err.Some?)
    ensures var t := ResetByCaller(s, i, cause);
            && t.err == (if s.err.Some? then s.err else Some(cause))
            && SameQueues(s, t) && (t.writer.WSending? <==> s.writer.WSending?)
  {
    hide BeginReset, CloseSockets;
    BeginResetFrame(s, Caller(i), cause);
    BeginResetWriter(s, Caller(i), cause);
    CloseFrame(BeginReset(s, Caller(i), cause));
  }

  lemma StartKeepsQueues(s: State, m: Move)
    requires Inv(s) && Enabled(s, m) && m.Start?
    ensures Keeps(s, m, OtherNext(s, m))
  {
    assert s.err.None? && s.writer.WAbsent?;
    hide BeginReset, CloseSockets, ResetByCaller, Inv;
    var i, cause := m.i, Failure(Caller(m.i));
    match m.outcome
    case NoReadThread => ResetKeepsQueues(Attach(s, m.a, m.b, RMissing, WMissing), i, cause);
    case NoWriteThread => ResetKeepsQueues(Attach(s, m.a, m.b, RBegin, WMissing), i, cause);
    case Attached =>
    case _ => EarlyStartKeepsQueues(s, m);
  }

  lemma EarlyStartKeepsQueues(s: State, m: Move)
    requires Enabled(s, m) && m.Start? && (m.outcome.NoSockets? || m.outcome.NotAttached?)
    requires s.err.None? && s.writer.WAbsent?
    ensures Keeps(s, m, OtherNext(s, m))
  {
    hide BeginReset, CloseSockets;
    var i, cause := m.i, Failure(Caller(m.i));
    BeginResetFrame(s, Caller(i), cause);
    BeginResetWriter(s, Caller(i), cause);
    var t := BeginReset(s, Caller(i), cause);
    CloseFrame(t.(started := true));
    CloseFrame(t.(started := true, socket := Some(m.a), usbipSocket := Some(m.b), open := s.open + {m.a, m.b}, shut := true));
  }

  lemma CallerKeepsQueues(s: State, m: Move)
    requires Enabled(s, m) && (s.reset <==> s.err.Some?)
    requires m.CallerTakes? || m.CallerWakes? || m.CallerResets? || m.CallerWaits?
    ensures Keeps(s, m, OtherNext(s, m))
  {
    hide ResetByCaller, Notify, CloseSockets, BeginReset, SpuriousNext;
    if m.CallerTakes? {
      ResetKeepsQueues(s.(commands := s.commands - m.n), m.i, Failure(Caller(m.i)));
    } else if m.CallerWakes? && s.err.Some? {
      ResetKeepsQueues(s, m.i, s.err.value);
    } else if m.CallerResets? {
      ResetKeepsQueues(s, m.i, m.cause);
    }
  }

  lemma RepliesKeepQueues(s: State)
    requires Enabled(s, CallerReplies)
    ensures Keeps(s, CallerReplies, OtherNext(s, CallerReplies))
  {
    hide Notify, ResetByCaller, CloseSockets, SpuriousNext;
    NotifyWriter(s.(replies := s.replies + 1));
  }

  lemma RecheckKeepsQueues(s: State, i: nat)
    requires Enabled(s, CallerRechecks(i))
    ensures Keeps(s, CallerRechecks(i), OtherNext(s, CallerRechecks(i)))
  {
    hide Notify, ResetByCaller, CloseSockets, ClosedIn, SpuriousNext;
    CloseFrame(s);
  }

  lemma PeerKeepsQueues(s: State, m: Move)
    requires Enabled(s, m) && (m.PeerSends? || m.PeerCloses? || m.SpuriousWake?)
    ensures Keeps(s, m, OtherNext(s, m))
  {
    hide Notify, ResetByCaller, CloseSockets;
  }

  lemma OtherKeepsQueues(s: State, m: Move)
    requires Enabled(s, m) && !IsReaderMove(m) && !IsWriterMove(m) && !m.Start? && (s.reset <==> s.err.Some?)
    ensures Keeps(s, m, OtherNext(s, m))
  {
    hide Keeps, Enabled, OtherNext;
    if m.CallerTakes? || m.CallerWakes? || m.CallerResets? || m.CallerWaits? {
      CallerKeepsQueues(s, m);
    } else if m.CallerReplies? {
      RepliesKeepQueues(s);
    } else if m.CallerRechecks? {
      RecheckKeepsQueues(s, m.i);
    } else {
      PeerKeepsQueues(s, m);
    }
  }

  lemma StepKeepsQueues(s: State, m: Move)
    requires Inv(s) && Enabled(s, m)
    ensures Keeps(s, m, Next(s, m))
  {
    ErrMeansReset(s);
    hide Inv, Keeps, Enabled, ReaderNext, WriterNext, OtherNext;
    if IsReaderMove(m) {
      ReaderKeepsQueues(s, m);
    } else if IsWriterMove(m) {
      WriterKeepsQueues(s, m);
    } else if m.Start? {
      StartKeepsQueues(s, m);
    } else {
      OtherKeepsQueues(s, m);
    }
  }

  function Pushed(ms: seq<Move>): nat {
    if ms == [] then 0 else Pushed(ms[..|ms| - 1]) + if ms[|ms| - 1].ReaderPushes? then 1 else 0
  }

  function Taken(ms: seq<Move>): nat {
    if ms == [] then 0 else Taken(ms[..|ms| - 1]) + if ms[|ms| - 1].CallerTakes? then ms[|ms| - 1].n else 0
  }

  function Replied(ms: seq<Move>): nat {
    if ms == [] then 0 else Replied(ms[..|ms| - 1]) + if ms[|ms| - 1].CallerReplies? then 1 else 0
  }

  /** How often the write thread has begun to send a reply, before step `k`. */
  function Begun(ss: seq<State>, k: nat): nat
    requires k < |ss|
  {
    if k == 0 then 0 else Begun(ss, k - 1) + if Begins(ss[k - 1], ss[k]) then 1 else 0
  }

  /**
   Commands are pushed and taken one for one, and replies queued and sent; and what the error is: the cause
   given with the first call of `_reset`, if there was one.
   */
  lemma {:induction false} QueuesBalance(ss: seq<State>, ms: seq<Move>, k: nat)
    requires IsRun(ss, ms) && k <= |ms|
    ensures ss[k].commands + Taken(ms[..k]) == Pushed(ms[..k])
    ensures ss[k].replies + Begun(ss, k) == Replied(ms[..k])
    ensures ss[k].err.Some? <==> exists j :: 0 <= j < k && CauseOf(ms[j]).Some?
    ensures ss[k].err.Some? ==> exists j :: 0 <= j < k && CauseOf(ms[j]) == ss[k].err && ss[j].err.None?
    decreases k
  {
    hide Inv, Enabled, Next, CauseOf, Begins;
    if k == 0 {
      assert ss[0].commands == 0 && ss[0].replies == 0 && ss[0].err.None?;
    } else {
      QueuesBalance(ss, ms, k - 1);
      RunInv(ss, ms, k - 1);
      assert Enabled(ss[k - 1], ms[k - 1]) && ss[k - 1 + 1] == Next(ss[k - 1], ms[k - 1]);
      StepKeepsQueues(ss[k - 1], ms[k - 1]);
      assert ms[..k][..k - 1] == ms[..k - 1];
    }
  }

  // ----- descriptors -----

  /** What `close` has been called on by the time `start` returns, or waits in its reset. */
  function ClosedByStart(m: Move): seq<int>
    requires m.Start?
  {
    match m.outcome
    case NoSockets => []
    case NotAttached => [m.a, m.b]
    case _ => [m.b]
  }

  lemma StartCloses(s: State, m: Move)
    requires Inv(s) && Enabled(s, m) && m.Start?
    ensures var t := Next(s, m);
            && t.started && t.closed == ClosedByStart(m)
            && t.socket == if m.outcome.NoSockets? || m.outcome.NotAttached? then None else Some(m.a)
  {
    hide ReaderNext, WriterNext, BeginReset;
    BeginResetFrame(s, Caller(m.i), Failure(Caller(m.i)));
    assert s.socket.None? && s.usbipSocket.None? && s.closed == [];
    if m.outcome.NotAttached? {
      assert Descriptor(Some(m.a)) + Descriptor(Some(m.b)) == [m.a, m.b];
    } else if m.outcome.NoReadThread? {
      BeginResetFrame(Attach(s, m.a, m.b, RMissing, WMissing), Caller(m.i), Failure(Caller(m.i)));
    } else if m.outcome.NoWriteThread? {
      BeginResetFrame(Attach(s, m.a, m.b, RBegin, WMissing), Caller(m.i), Failure(Caller(m.i)));
    }
  }

  /** After `start`, a step closes the socket, or leaves the descriptors alone. */
  lemma StepCloses(s: State, m: Move)
    requires Inv(s) && Enabled(s, m) && s.started
    ensures var t := Next(s, m);
            && t.started
            && ((t.socket == s.socket && t.closed == s.closed)
                || (s.socket.Some? && t.socket.None? && t.closed == s.closed + [s.socket.value]))
  {
    hide Next, Initiator, NoLostWakeup;
    assert !m.Start?;
    StepFrame(s, m);
  }

  /**
   Every descriptor that `start` (step `j`) has opened is closed once, and nothing else is: both before it
   returns if it fails early; otherwise `b` at once, and `a` when the socket field is cleared. What is open
   is what the fields hold, so after that nothing is.
   */
  lemma {:induction false} OpenedAndClosed(ss: seq<State>, ms: seq<Move>, j: nat, k: nat)
    requires IsRun(ss, ms) && j < k <= |ms| && ms[j].Start?
    ensures ss[k].closed == match ms[j].outcome
              case NoSockets => []
              case NotAttached => [ms[j].a, ms[j].b]
              case _ => if ss[k].socket.None? then [ms[j].b, ms[j].a] else [ms[j].b]
    ensures ms[j].outcome.NoSockets? || ms[j].outcome.NotAttached? ==> ss[k].socket.None?
    ensures ss[k].socket.None? ==> ss[k].open == {}
    ensures ss[k].socket.Some? ==> ss[k].socket == Some(ms[j].a) && ss[k].open == {ms[j].a}
    ensures ss[k].started
    decreases k
  {
    hide Enabled, Next, Initiator, NoLostWakeup;
    RunInv(ss, ms, k - 1);
    assert Enabled(ss[k - 1], ms[k - 1]) && ss[k - 1 + 1] == Next(ss[k - 1], ms[k - 1]);
    if k == j + 1 {
      StartCloses(ss[j], ms[j]);
    } else {
      OpenedAndClosed(ss, ms, j, k - 1);
      StepCloses(ss[k - 1], ms[k - 1]);
    }
    RunInv(ss, ms, k);
    WhatIsOpen(ss[k]);
  }

  lemma WhatIsOpen(s: State)
    requires Inv(s)
    ensures s.open == if s.socket.Some? then {s.socket.value} else {}
  {
    var held := if s.socket.Some? then {s.socket.value} else {};
    assert forall fd :: fd in s.open <==> fd in held;
  }

  lemma NothingLeftOpen(s: State)
    requires Descriptors(s)
    ensures CloseSockets(s).open == {}
  {
    assert forall fd :: fd !in CloseSockets(s).open;
  }

  // ----- termination of a reset started by an API caller -----

  /** Every running flag that is set belongs to a thread that was created. */
  predicate Created(s: State) { !s.reader.RMissing? && !s.writer.WMissing? }

  /** A reset started by API caller `i` is under way, and the threads it waits for exist. */
  ghost predicate Ending(s: State, i: nat) {
    Inv(s) && s.initiator == Some(Caller(i)) && s.socket.Some? && Created(s)
  }

  function ReaderLoad(s: State): nat {
    match s.reader
    case RBegin => 8 * s.unread + 40
    case RPushing(_) => 8 * s.unread + 36
    case RReceiving(_) => 8 * s.unread + 32
    case RCaught => 24
    case RLeaving => 16
    case _ => 0
  }

  function WriterLoad(s: State): nat {
    match s.writer
    case WBegin => 40
    case WSending(_, left) => 8 * left + 36
    case WChecking(_) => 32
    case WAsleep(_) => 28
    case WCaught => 24
    case WLeaving => 16
    case _ => 0
  }

  /** How much is left to do before the sockets are closed. */
  function Load(s: State, i: nat): nat {
    ReaderLoad(s) + WriterLoad(s) + 8 * s.hiccups
    + if i < |s.callers| && s.callers[i] == Resetting(false) then 1 else 0
  }

  /** Steps of the workers, of the caller that waits for them, and the hiccups. */
  predicate IsProgress(m: Move, i: nat) {
    !m.Start? && !m.PeerSends? && !m.PeerCloses? && !m.CallerReplies? && !m.CallerTakes? && !m.CallerWaits?
    && !m.CallerWakes? && !m.CallerResets? && (m.CallerRechecks? ==> m.i == i)
  }

  lemma ReaderProgress(s: State, m: Move, i: nat)
    requires Ending(s, i) && Enabled(s, m)
    requires IsReaderMove(m)
    ensures Next(s, m).socket == s.socket && Load(Next(s, m), i) < Load(s, i)
  {
    hide WriterNext, OtherNext;
    assert WaitsInReset(s, Caller(i)) && !WaitsInReset(s, ReadThread) && !WaitsInReset(s, WriteThread);
  }

  lemma WriterProgress(s: State, m: Move, i: nat)
    requires Ending(s, i) && Enabled(s, m)
    requires IsWriterMove(m)
    ensures Next(s, m).socket == s.socket && Load(Next(s, m), i) < Load(s, i)
  {
    hide ReaderNext, OtherNext;
    assert WaitsInReset(s, Caller(i)) && !WaitsInReset(s, ReadThread) && !WaitsInReset(s, WriteThread);
  }

  /** Other callers find the device reset already and return. */
  lemma CallerProgress(s: State, m: Move, i: nat)
    requires Ending(s, i) && Enabled(s, m)
    requires m.PeerCloses? || m.CallerWakes? || m.CallerResets?
    ensures Load(OtherNext(s, m), i) == Load(s, i)
  {
    EndingFacts(s, i);
  }

  lemma RecheckProgress(s: State, j: nat, i: nat)
    requires Ending(s, i) && Enabled(s, CallerRechecks(j))
    ensures j == i
    ensures var t := OtherNext(s, CallerRechecks(j)); t.socket.None? || Load(t, i) < Load(s, i)
  {
    EndingFacts(s, i);
    RecheckerIsInitiator(s, j);
  }

  lemma OtherProgress(s: State, m: Move, i: nat)
    requires Ending(s, i) && Enabled(s, m) && !IsReaderMove(m) && !IsWriterMove(m)
    ensures Next(s, m).socket.None? || Load(Next(s, m), i) <= Load(s, i)
    ensures IsProgress(m, i) ==> Next(s, m).socket.None? || Load(Next(s, m), i) < Load(s, i)
  {
    hide ReaderNext, WriterNext, SpuriousNext, Load, Ending;
    EndingFacts(s, i);
    if m.SpuriousWake? {
      SpuriousProgress(s, m.who, i);
    } else if m.CallerRechecks? {
      RecheckProgress(s, m.i, i);
    } else {
      CallerProgress(s, m, i);
    }
  }

  lemma EndingFacts(s: State, i: nat)
    requires Ending(s, i)
    ensures WaitsInReset(s, Caller(i)) && s.reset && s.err.Some? && s.shut
  {
  }

  lemma RecheckerIsInitiator(s: State, j: nat)
    requires Inv(s) && j < |s.callers| && s.callers[j].Resetting?
    ensures s.initiator == Some(Caller(j))
  {
    assert WaitsInReset(s, Caller(j));
  }

  lemma SpuriousProgress(s: State, who: Who, i: nat)
    requires Ending(s, i) && s.hiccups > 0
    ensures Load(SpuriousNext(s, who), i) < Load(s, i)
  {
    assert WaitsInReset(s, Caller(i)) && !WaitsInReset(s, ReadThread) && !WaitsInReset(s, WriteThread);
  }

  /** No step adds to the load, and progress steps take from it, until the sockets are closed. */
  lemma LoadFalls(s: State, m: Move, i: nat)
    requires Ending(s, i) && Enabled(s, m)
    ensures Next(s, m).socket.None? || Load(Next(s, m), i) <= Load(s, i)
    ensures IsProgress(m, i) ==> Next(s, m).socket.None? || Load(Next(s, m), i) < Load(s, i)
    ensures Next(s, m).socket.None? || Ending(Next(s, m), i)
  {
    hide Ending, Enabled, Next, Load;
    assert Next(s, m).socket.None? || Ending(Next(s, m), i) by { EndingStays(s, m, i); }
    if IsReaderMove(m) {
      ReaderProgress(s, m, i);
    } else if IsWriterMove(m) {
      WriterProgress(s, m, i);
    } else {
      OtherProgress(s, m, i);
    }
  }

  lemma EndingStays(s: State, m: Move, i: nat)
    requires Ending(s, i) && Enabled(s, m)
    ensures Next(s, m).socket.None? || Ending(Next(s, m), i)
  {
    assert s.err.Some? && !m.Start?;
    hide Next, Enabled, Workers, Descriptors, NoLostWakeup;
    StepKeeps(s, m);
    FirstCauseStays(s, m);
    StepFrame(s, m);
  }

  /** As long as the sockets are open, some progress step can be taken. */
  lemma NeverStuck(s: State, i: nat) returns (m: Move)
    requires Ending(s, i)
    ensures IsProgress(m, i) && Enabled(s, m)
  {
    assert WaitsInReset(s, Caller(i)) && !WaitsInReset(s, ReadThread) && !WaitsInReset(s, WriteThread);
    if s.readRunning {
      m := match s.reader
        case RBegin => ReaderBegins
        case RReceiving(_) => if s.unread > 0 then ReaderReceives(1, Part) else ReaderEof
        case RPushing(_) => ReaderPushes
        case RCaught => ReaderResets
        case _ => ReaderLeaves;
    } else if s.writeRunning {
      m := match s.writer
        case WBegin => WriterBegins
        case WChecking(_) => WriterChecks(1)
        case WSending(_, left) => if left > 0 then WriterFails else WriterSent
        case WCaught => WriterResets
        case _ => WriterLeaves;
    } else {
      assert s.callers[i] != Resetting(true);
      m := CallerRechecks(i);
    }
  }

  function ProgressCount(ms: seq<Move>, i: nat): nat {
    if ms == [] then 0 else (if IsProgress(ms[0], i) then 1 else 0) + ProgressCount(ms[1..], i)
  }

  /** However the threads interleave, fewer progress steps than the load fit in before the sockets are closed. */
  lemma {:induction false} ShutdownTerminates(ss: seq<State>, ms: seq<Move>, i: nat)
    requires IsPath(ss, ms) && Ending(ss[0], i)
    requires forall k :: 0 <= k <= |ms| ==> ss[k].socket.Some?
    ensures ProgressCount(ms, i) + Load(ss[|ms|], i) <= Load(ss[0], i)
    ensures Ending(ss[|ms|], i)
    decreases |ms|
  {
    hide Ending, Enabled, Next, Load;
    if ms != [] {
      LoadFalls(ss[0], ms[0], i);
      assert ss[0 + 1] == Next(ss[0], ms[0]);
      assert IsPath(ss[1..], ms[1..]) by {
        forall k | 0 <= k < |ms[1..]|
          ensures Enabled(ss[1..][k], ms[1..][k]) && ss[1..][k + 1] == Next(ss[1..][k], ms[1..][k])
        {
          assert Enabled(ss[k + 1], ms[k + 1]) && ss[k + 1 + 1] == Next(ss[k + 1], ms[k + 1]);
        }
      }
      ShutdownTerminates(ss[1..], ms[1..], i);
    }
  }

  /** When the sockets are closed in the end, both workers are gone for good. */
  lemma ClosedMeansGone(s: State)
    requires Inv(s) && s.socket.None? && s.started
    ensures !WorkersRunning(s) && forall fd :: !Uses(s, fd)
  {
  }

  lemma InvOf(s: State, i: nat)
    requires Ending(s, i)
    ensures Inv(s)
  {
  }

  lemma {:induction false} PathToClosed(s: State, i: nat) returns (ss: seq<State>, ms: seq<Move>)
    requires Ending(s, i)
    ensures IsPath(ss, ms) && ss[0] == s && ss[|ms|].socket.None? && ss[|ms|].open == {}
    decreases Load(s, i)
  {
    hide Ending, Enabled, Next, Load;
    var m := NeverStuck(s, i);
    var t := Next(s, m);
    LoadFalls(s, m, i);
    if t.socket.None? {
      assert Inv(s) by { InvOf(s, i); }
      StepKeeps(s, m);
      WhatIsOpen(t);
      ss, ms := [s, t], [m];
    } else {
      var ts, ns := PathToClosed(t, i);
      ss, ms := [s] + ts, [m] + ns;
      forall k | 0 <= k < |ms| ensures Enabled(ss[k], ms[k]) && ss[k + 1] == Next(ss[k], ms[k]) {
        if k > 0 {
          assert Enabled(ts[k - 1], ns[k - 1]) && ts[k - 1 + 1] == Next(ts[k - 1], ns[k - 1]);
        }
      }
    }
  }

  // ----- a reset that never ends -----

  /**
   The read or the write thread started the reset, or it waits for a thread that does not exist: either
   way a running flag will never be cleared.
   */
  ghost predicate Hung(s: State) {
    && Inv(s) && s.initiator.Some? && s.socket.Some?
    && (!s.initiator.value.Caller? || !Created(s))
  }

  lemma HungStays(s: State, m: Move)
    requires Hung(s) && Enabled(s, m)
    ensures Hung(Next(s, m)) && Next(s, m).socket == s.socket && Next(s, m).closed == s.closed
    ensures Next(s, m).initiator == s.initiator
  {
    hide Next, Descriptors, NoLostWakeup;
    StepKeeps(s, m);
    FirstCauseStays(s, m);
    StepFrame(s, m);
  }

  lemma {:induction false} HungForGood(ss: seq<State>, ms: seq<Move>)
    requires IsPath(ss, ms) && Hung(ss[0])
    ensures Hung(ss[|ms|]) && ss[|ms|].socket == ss[0].socket && ss[|ms|].closed == ss[0].closed
    ensures ss[|ms|].initiator == ss[0].initiator
    decreases |ms|
  {
    hide Hung, Enabled, Next;
    if ms != [] {
      var n := |ms| - 1;
      assert IsPath(ss[..n + 1], ms[..n]);
      HungForGood(ss[..n + 1], ms[..n]);
      assert ss[n + 1] == Next(ss[n], ms[n]);
      HungStays(ss[n], ms[n]);
    }
  }

  /** Some continuation of the run closes the sockets. */
  ghost predicate CanClose(s: State) {
    exists ss: seq<State>, ms: seq<Move> ::
      IsPath(ss, ms) && ss[0] == s && ss[|ms|].socket.None? && ss[|ms|].open == {}
  }

  /**
   Once a reset has started on an attached device, its sockets can still come to be closed exactly when
   it was an API caller that started it, and both threads whose flags are set were created. A worker that
   starts it waits for its own running flag; a `start` that cannot create a thread, for that thread's.
   */
  lemma ClosableIff(s: State)
    requires Inv(s) && s.initiator.Some? && s.socket.Some?
    ensures CanClose(s) <==> s.initiator.value.Caller? && Created(s)
  {
    hide Inv, Enabled, Next;
    if s.initiator.value.Caller? && Created(s) {
      var ss, ms := PathToClosed(s, s.initiator.value.id);
    } else {
      forall ss: seq<State>, ms | IsPath(ss, ms) && ss[0] == s ensures ss[|ms|].socket.Some? {
        HungForGood(ss, ms);
      }
    }
  }

  /**
   A `start` that cannot create one of its threads never returns, however the run goes on, and its
   socket stays open.
   */
  lemma StartHangs(s: State, m: Move, ss: seq<State>, ms: seq<Move>)
    requires Inv(s) && Enabled(s, m) && m.Start? && (m.outcome.NoReadThread? || m.outcome.NoWriteThread?)
    requires IsPath(ss, ms) && ss[0] == Next(s, m)
    ensures ss[|ms|].socket == Some(m.a) && WaitsInReset(ss[|ms|], Caller(m.i)) && !CanClose(ss[|ms|])
  {
    hide Enabled, Next, Workers, Descriptors, NoLostWakeup, CanClose;
    StartStrands(s, m);
    assert Hung(Next(s, m)) by { StepKeeps(s, m); }
    HungForGood(ss, ms);
    ClosableIff(ss[|ms|]);
  }

  /** Such a run exists, too: a single step. */
  lemma ThreadlessStartHangs() returns (ss: seq<State>, ms: seq<Move>)
    ensures IsRun(ss, ms) && ms == [Start(0, NoWriteThread, 3, 4)] && !CanClose(ss[1])
  {
    hide Next, CanClose, Init;
    ss, ms := [Init(1, 0)], [];
    assert IsRun(ss, ms);
    var m := Start(0, NoWriteThread, 3, 4);
    assert Inv(ss[0]) by { RunInv(ss, ms, 0); }
    assert Enabled(ss[0], m) by { OneCaller(); }
    ss, ms := ExtendRun(ss, ms, m);
    StartHangs(ss[0], m, [ss[1]], []);
  }

  lemma OneCaller()
    ensures Init(1, 0).callers == [Outside] && !Init(1, 0).started && !Init(1, 0).reset
  {
  }

  lemma StartStrands(s: State, m: Move)
    requires Enabled(s, m) && m.Start? && (m.outcome.NoReadThread? || m.outcome.NoWriteThread?)
    ensures var t := Next(s, m); t.initiator == Some(Caller(m.i)) && t.socket == Some(m.a) && !Created(t)
  {
    hide ReaderNext, WriterNext;
  }

  /** Such a run exists: the host closes its end, and the read thread is the first to notice. */
  lemma HostDisconnectHangs() returns (ss: seq<State>, ms: seq<Move>)
    ensures IsRun(ss, ms) && Hung(ss[|ms|]) && ss[|ms|].socket.Some? && !CanClose(ss[|ms|])
  {
    hide Inv, Uses, CanClose;
    ss, ms := HostDisconnects();
    var s := ss[5];
    RunInv(ss, ms, 5);
    ClosableIff(s);
  }

  lemma ExtendRun(ss: seq<State>, ms: seq<Move>, m: Move) returns (ts: seq<State>, ns: seq<Move>)
    requires IsRun(ss, ms) && Enabled(ss[|ms|], m)
    ensures ns == ms + [m] && ts == ss + [Next(ss[|ms|], m)] && IsRun(ts, ns)
  {
    hide Enabled, Next;
    ts, ns := ss + [Next(ss[|ms|], m)], ms + [m];
    var callers, hiccups :| ss[0] == Init(callers, hiccups);
    assert ts[0] == Init(callers, hiccups);
    forall k | 0 <= k < |ns| ensures Enabled(ts[k], ns[k]) && ts[k + 1] == Next(ts[k], ns[k]) {
      if k < |ms| {
        assert Enabled(ss[k], ms[k]) && ss[k + 1] == Next(ss[k], ms[k]);
      }
    }
  }

  /** What matters of the state on the way there. */
  ghost predicate Attaching(s: State, reader: Reader) {
    s.socket == Some(3) && !s.reset && s.unread == 0 && s.reader == reader
  }

  lemma StartStep()
    ensures Enabled(Init(1, 0), Start(0, Attached, 3, 4))
    ensures Attaching(Next(Init(1, 0), Start(0, Attached, 3, 4)), RBegin)
  {
    hide ReaderNext, WriterNext;
  }

  lemma BeginStep(s: State)
    requires Attaching(s, RBegin)
    ensures Enabled(s, ReaderBegins) && Attaching(Next(s, ReaderBegins), RReceiving(3))
  {
    hide OtherNext, WriterNext;
  }

  lemma DisconnectStep(s: State)
    requires Attaching(s, RReceiving(3))
    ensures Enabled(s, PeerCloses)
    ensures Attaching(Next(s, PeerCloses), RReceiving(3)) && Next(s, PeerCloses).peerClosed
  {
    hide ReaderNext, WriterNext;
  }

  lemma EofStep(s: State)
    requires Attaching(s, RReceiving(3)) && s.peerClosed
    ensures Enabled(s, ReaderEof) && Attaching(Next(s, ReaderEof), RCaught)
  {
    hide OtherNext, WriterNext;
  }

  lemma ResetStep(s: State)
    requires Attaching(s, RCaught)
    ensures Enabled(s, ReaderResets)
    ensures var t := Next(s, ReaderResets);
            t.initiator == Some(ReadThread) && t.socket == Some(3)
  {
    hide OtherNext, WriterNext;
  }

  lemma HostDisconnects() returns (ss: seq<State>, ms: seq<Move>)
    ensures |ms| == 5 && IsRun(ss, ms) && ss[5].initiator == Some(ReadThread) && ss[5].socket.Some?
  {
    hide Enabled, Next, Init, Attaching;
    ss, ms := [Init(1, 0)], [];
    assert IsRun(ss, ms);
    StartStep();
    ss, ms := ExtendRun(ss, ms, Start(0, Attached, 3, 4));
    BeginStep(ss[1]);
    ss, ms := ExtendRun(ss, ms, ReaderBegins);
    DisconnectStep(ss[2]);
    ss, ms := ExtendRun(ss, ms, PeerCloses);
    EofStep(ss[3]);
    ss, ms := ExtendRun(ss, ms, ReaderEof);
    ResetStep(ss[4]);
    ss, ms := ExtendRun(ss, ms, ReaderResets);
  }

  /** A call of `read` that was waiting when the reset began is awake, and its next step returns from it. */
  lemma BlockedReadsReturn(ss: seq<State>, ms: seq<Move>, k: nat, i: nat)
    requires IsRun(ss, ms) && k <= |ms| && ss[k].reset
    requires i < |ss[k].callers| && ss[k].callers[i].Reading?
    ensures Enabled(ss[k], CallerWakes(i)) && Next(ss[k], CallerWakes(i)).callers[i] == Outside
  {
    hide ReaderNext, WriterNext;
    RunInv(ss, ms, k);
    assert ss[k].callers[i] != Reading(true);
  }

  // ----- what a call that resets the device promises its caller -----

  /** Nothing is open, and the workers are gone. */
  predicate Closed(s: State) { s.socket.None? && s.usbipSocket.None? && s.open == {} && !WorkersRunning(s) }

  function CallerAt(s: State, i: nat): ApiCaller { if i < |s.callers| then s.callers[i] else Outside }

  /** Caller `i` is still waiting in `_reset`, or has left it with everything closed. */
  predicate WaitsOrClosed(s: State, i: nat) {
    CallerAt(s, i).Resetting? || (CallerAt(s, i) == Outside && Closed(s))
  }

  lemma NotifyCallerAt(s: State, i: nat)
    ensures CallerAt(Notify(s), i) == Wake(CallerAt(s, i))
  {
  }

  lemma ReaderLeavesCaller(s: State, m: Move, i: nat)
    requires Enabled(s, m) && IsReaderMove(m) && s.reset && CallerAt(s, i).Resetting?
    ensures CallerAt(ReaderNext(s, m), i).Resetting?
  {
    hide Notify;
    if m.ReaderPushes? {
      NotifyCallerAt(s.(commands := s.commands + 1, reader := RReceiving(s.reader.fd)), i);
    } else if m.ReaderLeaves? {
      NotifyCallerAt(s.(readRunning := false, reader := RGone), i);
    }
  }

  lemma WriterLeavesCaller(s: State, m: Move, i: nat)
    requires Enabled(s, m) && IsWriterMove(m) && s.reset && CallerAt(s, i).Resetting?
    ensures CallerAt(WriterNext(s, m), i).Resetting?
  {
    hide Notify;
    if m.WriterLeaves? {
      NotifyCallerAt(s.(writeRunning := false, writer := WGone), i);
    }
  }

  lemma RecheckEnds(s: State, j: nat, i: nat)
    requires Inv(s) && Enabled(s, CallerRechecks(j)) && CallerAt(s, i).Resetting?
    ensures WaitsOrClosed(OtherNext(s, CallerRechecks(j)), i)
  {
    RecheckerIsInitiator(s, i);
    RecheckerIsInitiator(s, j);
    NothingLeftOpen(s);
  }

  lemma OthersLeaveCaller(s: State, m: Move, i: nat)
    requires Enabled(s, m) && !IsReaderMove(m) && !IsWriterMove(m) && !m.CallerRechecks?
    requires s.reset && s.err.Some? && CallerAt(s, i).Resetting?
    ensures CallerAt(OtherNext(s, m), i).Resetting?
  {
    hide Notify, CloseSockets, BeginReset;
  }

  lemma ResettingEnds(s: State, m: Move, i: nat)
    requires Inv(s) && Enabled(s, m) && CallerAt(s, i).Resetting?
    ensures WaitsOrClosed(Next(s, m), i)
  {
    RecheckerIsInitiator(s, i);
    hide Enabled, ReaderNext, WriterNext, OtherNext, Workers, Descriptors, NoLostWakeup;
    if IsReaderMove(m) {
      ReaderLeavesCaller(s, m, i);
    } else if IsWriterMove(m) {
      WriterLeavesCaller(s, m, i);
    } else if m.CallerRechecks? {
      RecheckEnds(s, m.i, i);
    } else {
      OthersLeaveCaller(s, m, i);
    }
  }

  lemma FirstResetCloses(s: State, i: nat, cause: Cause)
    requires Enabled(s, CallerResets(i, cause)) && Inv(s) && !s.reset
    ensures WaitsOrClosed(Next(s, CallerResets(i, cause)), i)
  {
    BeginResetKeeps(s, Caller(i), cause);
    hide BeginReset, Descriptors, CloseSockets, ReaderNext, WriterNext;
    BeginResetFrame(s, Caller(i), cause);
    var t := BeginReset(s, Caller(i), cause);
    NothingLeftOpen(t);
    CloseFrame(t);
  }

  lemma {:induction false} WaitsUntilClosed(ss: seq<State>, ms: seq<Move>, j: nat, x: nat, i: nat)
    requires IsRun(ss, ms) && j < x <= |ms| && ms[j].CallerResets? && ms[j].i == i && !ss[j].reset
    requires forall y :: j < y < x ==> CallerAt(ss[y], i) != Outside
    ensures WaitsOrClosed(ss[x], i)
    decreases x
  {
    hide Inv, Enabled, Next, Closed;
    assert ss[x - 1 + 1] == Next(ss[x - 1], ms[x - 1]) && Enabled(ss[x - 1], ms[x - 1]);
    RunInv(ss, ms, x - 1);
    if x - 1 == j {
      FirstResetCloses(ss[j], i, ms[j].cause);
    } else {
      WaitsUntilClosed(ss, ms, j, x - 1, i);
      ResettingEnds(ss[x - 1], ms[x - 1], i);
    }
  }

  lemma LateResetReturns(s: State, i: nat, cause: Cause)
    requires Enabled(s, CallerResets(i, cause)) && Inv(s) && s.reset
    ensures Next(s, CallerResets(i, cause)) == s && CallerAt(s, i) == Outside
    ensures Closed(s) <==> s.socket.None?
  {
    assert s.callers[i := Outside] == s.callers;
    WhatIsOpen(s);
  }

  /**
   `stop`, called at step `j` and returning with step `k`: it returns with both workers gone and the
   sockets closed exactly when no reset had begun at the call, or the sockets were closed already. When
   another thread's reset is still under way, it returns at once.
   */
  lemma StopPromise(ss: seq<State>, ms: seq<Move>, j: nat, k: nat, i: nat)
    requires IsRun(ss, ms) && j < k <= |ms| && ms[j].CallerResets? && ms[j].i == i
    requires forall y :: j < y < k ==> CallerAt(ss[y], i) != Outside
    requires CallerAt(ss[k], i) == Outside
    ensures Closed(ss[k]) <==> !ss[j].reset || ss[j].socket.None?
  {
    hide Inv, Enabled, Next, Closed;
    RunInv(ss, ms, j);
    assert ss[j + 1] == Next(ss[j], ms[j]) && Enabled(ss[j], ms[j]);
    if ss[j].reset {
      LateResetReturns(ss[j], i, ms[j].cause);
      assert CallerAt(ss[j + 1], i) == Outside;
    } else {
      WaitsUntilClosed(ss, ms, j, k, i);
    }
  }

  lemma StopStep(s: State, i: nat)
    requires Enabled(s, CallerResets(i, Stopped)) && WorkersRunning(s) && s.socket.Some?
    ensures var t := Next(s, CallerResets(i, Stopped));
            t.reset && WorkersRunning(t) && t.socket == s.socket && |t.callers| == |s.callers|
            && (s.reset ==> t.callers[i] == Outside)
            && (forall j :: 0 <= j < |s.callers| && j != i && s.callers[j] == Outside ==> t.callers[j] == Outside)
  {
    hide BeginReset, ReaderNext, WriterNext, CloseSockets;
    if !s.reset {
      BeginResetFrame(s, Caller(i), Stopped);
      BeginResetCallers(s, Caller(i), Stopped);
    }
  }

  lemma BeginResetCallers(s: State, who: Who, cause: Cause)
    ensures var t := BeginReset(s, who, cause);
            t.reset && |t.callers| == |s.callers| && forall j :: 0 <= j < |s.callers| ==> t.callers[j] == Wake(s.callers[j])
  {
  }

  /** Two callers stop the device; the second call returns while the workers still run. */
  lemma SecondStopReturnsEarly() returns (ss: seq<State>, ms: seq<Move>)
    ensures IsRun(ss, ms) && |ms| == 3 && ms[1] == CallerResets(0, Stopped) && ms[2] == CallerResets(1, Stopped)
    ensures CallerAt(ss[3], 1) == Outside && !Closed(ss[3])
  {
    hide Enabled, Next, Init;
    ss, ms := [Init(2, 0)], [];
    assert IsRun(ss, ms);
    TwoCallersStart();
    ss, ms := ExtendRun(ss, ms, Start(0, Attached, 3, 4));
    assert Enabled(ss[1], CallerResets(0, Stopped)) by { OutsideCanStop(ss[1], 0); }
    StopStep(ss[1], 0);
    ss, ms := ExtendRun(ss, ms, CallerResets(0, Stopped));
    assert Enabled(ss[2], CallerResets(1, Stopped)) by { OutsideCanStop(ss[2], 1); }
    StopStep(ss[2], 1);
    ss, ms := ExtendRun(ss, ms, CallerResets(1, Stopped));
  }

  lemma TwoCallersStart()
    ensures Enabled(Init(2, 0), Start(0, Attached, 3, 4))
    ensures var t := Next(Init(2, 0), Start(0, Attached, 3, 4));
            WorkersRunning(t) && t.socket.Some? && !t.reset && t.callers == [Outside, Outside]
  {
    hide ReaderNext, WriterNext;
  }

  lemma OutsideCanStop(s: State, i: nat)
    requires i < |s.callers| && s.callers[i] == Outside
    ensures Enabled(s, CallerResets(i, Stopped))
  {
  }

  // ----- no one sleeps while there is work -----

  /** In every state of every run: work that is queued, and a reset, find no one asleep who waits for them. */
  lemma NoOneSleepsThroughWork(ss: seq<State>, ms: seq<Move>, k: nat)
    requires IsRun(ss, ms) && k <= |ms|
    ensures ss[k].writer.WAsleep? ==> ss[k].replies == 0 && !ss[k].reset
    ensures forall i :: 0 <= i < |ss[k].callers| && ss[k].callers[i] == Reading(true) ==>
              ss[k].commands == 0 && !ss[k].reset
  {
    RunInv(ss, ms, k);
  }

  /** Hence, while a reply is queued and no reset has begun, the write thread can take a step. */
  lemma QueuedReplyMoves(ss: seq<State>, ms: seq<Move>, k: nat) returns (m: Move)
    requires IsRun(ss, ms) && k <= |ms| && ss[k].replies > 0
    requires ss[k].writeRunning && Created(ss[k]) && !ss[k].reset
    ensures IsWriterMove(m) && Enabled(ss[k], m)
  {
    RunInv(ss, ms, k);
    var s := ss[k];
    assert !WaitsInReset(s, WriteThread);
    m := match s.writer
      case WBegin => WriterBegins
      case WChecking(_) => WriterChecks(48)
      case WSending(_, left) => if left == 0 then WriterSent else if s.shut then WriterFails else WriterSends(1)
      case WCaught => WriterResets
      case _ => WriterLeaves;
  }
}
