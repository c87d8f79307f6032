/**
 The socket loops of VirtualUSBDevice.cpp: `_Read`, `_Write`, `_ReadCmd`, and the parts of the read
 and write threads that use them.

 A `Socket` holds what its peer will deliver before it closes its end, and what has been sent. Its
 `script` fixes how the next calls behave: how many bytes each moves at most, whether a signal
 interrupts it, whether it fails. Once the script is used up every call moves all it can. Contracts
 hold for every script, hence for every way of splitting the stream and every placement of a
 finite number of interruptions.
 */
module Sockets {
  import opened Endian
  import opened UsbIp

  datatype Outcome =
    | AtMost(extra: nat)  // move at least one and at most `extra + 1` bytes
    | Interrupted         // EINTR
    | Broken              // any other error

  datatype Received = Bytes(data: seq<Byte>) | RecvInterrupted | RecvFailed

  datatype Sent = Count(n: nat) | SendInterrupted | SendFailed

  datatype Result<T> = Ok(value: T) | Err

  class Socket {
    var incoming: seq<Byte>
    var outgoing: seq<Byte>
    var script: seq<Outcome>

    constructor (incoming: seq<Byte>, script: seq<Outcome>)
      ensures this.incoming == incoming && outgoing == [] && this.script == script
    {
      this.incoming := incoming;
      outgoing := [];
      this.script := script;
    }

    ghost predicate Reliable()
      reads this
    {
      Broken !in script
    }

    /** `recv`: no bytes means that the stream has ended. */
    method Recv(max: nat) returns (r: Received)
      requires max > 0
      modifies this
      ensures outgoing == old(outgoing)
      ensures old(Reliable()) ==> Reliable() && !r.RecvFailed?
      ensures r.Bytes? ==> |r.data| <= max && old(incoming) == r.data + incoming && (r.data == [] ==> incoming == [])
      ensures !r.Bytes? ==> incoming == old(incoming)
      ensures |script| <= |old(script)| && (r.RecvInterrupted? ==> |script| < |old(script)|)
    {
      var n := if max <= |incoming| then max else |incoming|;
      if script != [] {
        var step := script[0];
        script := script[1..];
        match step {
          case Interrupted => return RecvInterrupted;
          case Broken => return RecvFailed;
          case AtMost(k) => n := if n <= k + 1 then n else k + 1;
        }
      }
      r := Bytes(incoming[..n]);
      incoming := incoming[n..];
    }

    /** `send`. */
    method Send(data: seq<Byte>) returns (r: Sent)
      requires data != []
      modifies this
      ensures incoming == old(incoming)
      ensures old(Reliable()) ==> Reliable() && !r.SendFailed?
      ensures r.Count? ==> 0 < r.n <= |data| && outgoing == old(outgoing) + data[..r.n]
      ensures !r.Count? ==> outgoing == old(outgoing)
      ensures |script| <= |old(script)| && (r.SendInterrupted? ==> |script| < |old(script)|)
    {
      var n := |data|;
      if script != [] {
        var step := script[0];
        script := script[1..];
        match step {
          case Interrupted => return SendInterrupted;
          case Broken => return SendFailed;
          case AtMost(k) => n := if n <= k + 1 then n else k + 1;
        }
      }
      outgoing := outgoing + data[..n];
      r := Count(n);
    }
  }

  /** Reads exactly `len` bytes, or fails because the stream is too short or the socket broke. */
  method Read(socket: Socket, len: nat) returns (r: Result<seq<Byte>>)
    modifies socket
    ensures socket.outgoing == old(socket.outgoing)
    ensures r.Ok? ==> |r.value| == len && old(socket.incoming) == r.value + socket.incoming
    ensures old(socket.Reliable()) ==> socket.Reliable() && (r.Ok? <==> len <= |old(socket.incoming)|)
  {
    var data: seq<Byte> := [];
    while |data| < len
      invariant |data| <= len
      invariant old(socket.incoming) == data + socket.incoming
      invariant socket.outgoing == old(socket.outgoing)
      invariant old(socket.Reliable()) ==> socket.Reliable()
      decreases len - |data|, |socket.script|
    {
      var sr := socket.Recv(len - |data|);
      match sr {
        case RecvFailed => return Err;
        case RecvInterrupted =>
        case Bytes(chunk) =>
          if chunk == [] {
            return Err;
          }
          assert old(socket.incoming) == data + (chunk + socket.incoming);
          data := data + chunk;
      }
    }
    r := Ok(data);
  }

  /** Sends all of `data`, or a prefix of it when the socket breaks. */
  method Write(socket: Socket, data: seq<Byte>) returns (ok: bool)
    modifies socket
    ensures socket.incoming == old(socket.incoming)
    ensures old(socket.outgoing) <= socket.outgoing <= old(socket.outgoing) + data
    ensures ok ==> socket.outgoing == old(socket.outgoing) + data
    ensures old(socket.Reliable()) ==> socket.Reliable() && ok
  {
    var off := 0;
    while off < |data|
      invariant off <= |data|
      invariant socket.incoming == old(socket.incoming)
      invariant socket.outgoing == old(socket.outgoing) + data[..off]
      invariant old(socket.Reliable()) ==> socket.Reliable()
      decreases |data| - off, |socket.script|
    {
      var sr := socket.Send(data[off..]);
      match sr {
        case SendFailed => return false;
        case SendInterrupted =>
        case Count(n) =>
          assert data[..off] + data[off..][..n] == data[..off + n];
          off := off + n;
      }
    }
    ok := true;
  }

  /** The header's part of a command. */
  function HeaderCmd(ws: seq<bv32>, header: seq<Byte>): Cmd
    requires |ws| == 12 && |header| == 48
  {
    var base := Base(ws[1], ws[2], ws[3], ws[4]);
    if ws[0] == CMD_SUBMIT then
      Submit(base, ws[5], ws[6], ws[7], ws[8], ws[9], header[40..48], [])
    else
      Unlink(base, ws[5], header[24..48])
  }

  function PayloadLen(c: Cmd): nat {
    if c.Submit? && c.base.direction == DIR_OUT then SizeOf32(c.length) else 0
  }

  function WithPayload(c: Cmd, payload: seq<Byte>): Cmd {
    if c.Submit? then c.(payload := payload) else c
  }

  lemma ShortStream(little: bool, s: seq<Byte>)
    requires |s| < 48
    ensures ParseCmd(little, s).Stop?
  {
  }

  /** Header first and payload second is how a command lies in the stream. */
  lemma DecodeInParts(little: bool, s: seq<Byte>)
    requires |s| >= 48
    ensures var ws := HostWords(little, s[..48]);
            if ws[0] != CMD_SUBMIT && ws[0] != CMD_UNLINK then ParseCmd(little, s).Stop?
            else
              var c := HeaderCmd(ws, s[..48]);
              var n := PayloadLen(c);
              if n >= TWO64 - TWO31 || |s| < 48 + n then ParseCmd(little, s).Stop?
              else ParseCmd(little, s) == Parsed(WithPayload(c, s[48..48 + n]), s[48 + n..])
  {
    hide HostWords, SizeOf32;
    assert s[..48][40..48] == s[40..48] && s[..48][24..48] == s[24..48];
    assert s[48..48 + 0] == [];
  }

  lemma Sections(a: seq<Byte>, b: seq<Byte>, c: seq<Byte>)
    ensures var s := a + (b + c);
            |s| >= |a| + |b| && s[..|a|] == a && s[|a|..|a| + |b|] == b && s[|a| + |b|..] == c
  {
  }

  /** Decodes the next command of the stream, however `recv` splits its bytes. */
  method ReadCmd(socket: Socket, little: bool) returns (r: Result<Cmd>)
    modifies socket
    ensures socket.outgoing == old(socket.outgoing)
    ensures r.Ok? ==> ParseCmd(little, old(socket.incoming)) == Parsed(r.value, socket.incoming)
    ensures old(socket.Reliable()) ==>
              socket.Reliable() && (r.Ok? <==> ParseCmd(little, old(socket.incoming)).Parsed?)
  {
    hide *;
    ghost var stream := socket.incoming;
    var header := Read(socket, 48);
    if header.Err? {
      if |stream| < 48 {
        ShortStream(little, stream);
      }
      return Err;
    }
    Sections(header.value, [], socket.incoming);
    assert stream == header.value + ([] + socket.incoming);
    DecodeInParts(little, stream);
    var ws := HostWords(little, header.value);
    if ws[0] != CMD_SUBMIT && ws[0] != CMD_UNLINK {
      return Err;
    }
    var cmd := HeaderCmd(ws, header.value);
    var payloadLen := PayloadLen(cmd);
    if payloadLen >= TWO64 - TWO31 {
      return Err;  // no allocation of this size succeeds
    }
    if payloadLen == 0 {
      return Ok(WithPayload(cmd, []));
    }
    var payload := Read(socket, payloadLen);
    if payload.Err? {
      return Err;
    }
    Sections(header.value, payload.value, socket.incoming);
    r := Ok(WithPayload(cmd, payload.value));
  }

  /** A stream that carries the commands `cs` and then ends, or goes wrong. */
  ghost predicate Carries(little: bool, s: seq<Byte>, cs: seq<Cmd>) {
    && (forall c :: c in cs ==> ValidCmd(c))
    && EncodeCmds(cs) <= s
    && ParseCmd(little, s[|EncodeCmds(cs)|..]).Stop?
  }

  /** The read thread's loop: what it queues is what the host sent, in order and without gaps. */
  method ReadLoop(socket: Socket, little: bool) returns (cmds: seq<Cmd>)
    modifies socket
    ensures socket.outgoing == old(socket.outgoing)
    ensures forall cs {:trigger Carries(little, old(socket.incoming), cs)} ::
              Carries(little, old(socket.incoming), cs) ==> cmds <= cs
    ensures forall cs {:trigger Carries(little, old(socket.incoming), cs)} ::
              Carries(little, old(socket.incoming), cs) && old(socket.Reliable()) ==> cmds == cs
  {
    hide ParseCmd, EncodeCmds, ValidCmd;
    ghost var stream := socket.incoming;
    cmds := [];
    while true
      invariant socket.outgoing == old(socket.outgoing)
      invariant cmds + ParseCmds(little, socket.incoming) == ParseCmds(little, stream)
      invariant old(socket.Reliable()) ==> socket.Reliable()
      decreases |socket.incoming|
    {
      ghost var left := socket.incoming;
      var cmd := ReadCmd(socket, little);
      if cmd.Err? {
        assert old(socket.Reliable()) ==> ParseCmds(little, left) == [];
        break;
      }
      assert ParseCmds(little, left) == [cmd.value] + ParseCmds(little, socket.incoming);
      cmds := cmds + [cmd.value];
    }
    forall cs | Carries(little, stream, cs) ensures ParseCmds(little, stream) == cs {
      var junk := stream[|EncodeCmds(cs)|..];
      assert stream == EncodeCmds(cs) + junk;
      CommandStream(little, cs, junk);
    }
  }

  /** The write thread's loop over the replies queued for it: it sends them all, or until the socket breaks. */
  method SendLoop(socket: Socket, little: bool, replies: seq<Rep>)
    modifies socket
    ensures socket.incoming == old(socket.incoming)
    ensures old(socket.outgoing) <= socket.outgoing <= old(socket.outgoing) + Serialise(little, replies)
    ensures old(socket.Reliable()) ==> socket.outgoing == old(socket.outgoing) + Serialise(little, replies)
  {
    hide HeaderImage, Payload;
    var reps := replies;
    ghost var goal := socket.outgoing + Serialise(little, replies);
    while reps != []
      invariant socket.incoming == old(socket.incoming)
      invariant old(socket.outgoing) <= socket.outgoing
      invariant socket.outgoing + Serialise(little, reps) == goal
      invariant old(socket.Reliable()) ==> socket.Reliable()
      decreases |reps|
    {
      var rep := reps[0];
      reps := reps[1..];
      var ok := SendReply(socket, little, rep, Serialise(little, reps));
      if !ok {
        return;
      }
    }
  }

  /** Sends one reply: its header, then its payload. */
  method SendReply(socket: Socket, little: bool, rep: Rep, ghost more: seq<Byte>) returns (ok: bool)
    modifies socket
    ensures socket.incoming == old(socket.incoming)
    ensures old(socket.outgoing) <= socket.outgoing
    ensures socket.outgoing <= old(socket.outgoing) + (HeaderImage(little, rep) + Payload(rep) + more)
    ensures ok ==> socket.outgoing + more == old(socket.outgoing) + (HeaderImage(little, rep) + Payload(rep) + more)
    ensures old(socket.Reliable()) ==> socket.Reliable() && ok
  {
    hide HeaderImage, Payload;
    ghost var before := socket.outgoing;
    var header, payload := HeaderImage(little, rep), Payload(rep);
    assert before + (header + payload + more) == before + header + payload + more;
    ok := Write(socket, header);
    if ok {
      ok := Write(socket, payload);
    }
  }

  /** What the peer has read at any moment is a prefix of the framed replies; all of them if nothing broke. */
  method SendToPeer(socket: Socket, little: bool, replies: seq<Rep>)
    requires socket.outgoing == []
    requires forall r :: r in replies ==> Framed(r)
    modifies socket
    ensures ParseReplies(socket.outgoing) <= replies
    ensures old(socket.Reliable()) ==> ParseReplies(socket.outgoing) == replies
  {
    hide Framed, ParseReplies;
    SendLoop(socket, little, replies);
    assert [] + Serialise(little, replies) == Serialise(little, replies);
    PartialReplyStream(little, replies, socket.outgoing);
    ReplyStream(little, replies);
  }
}
