/**
 The USB/IP messages that a virtual device exchanges with the kernel (USBIP.h), how
 `VirtualUSBDevice::_ReadCmd` decodes a command from memory, and how a reply lies in memory when
 the write thread sends it. `EncodeCmd`, `EncodeReply` and `ParseReply` are the protocol's own
 layout: 48-byte headers of big-endian words, followed by a payload where the message has one.
 */
module UsbIp {
  import opened Endian

  const CMD_SUBMIT: bv32 := 1
  const CMD_UNLINK: bv32 := 2
  const RET_SUBMIT: bv32 := 3
  const RET_UNLINK: bv32 := 4

  const DIR_OUT: bv32 := 0
  const DIR_IN: bv32 := 1

  type Setup = s: seq<Byte> | |s| == 8 witness [0, 0, 0, 0, 0, 0, 0, 0]
  /** The part of the header's union that an unlink command does not use. */
  type Tail = s: seq<Byte> | |s| == 24
    witness [0, 0, 0, 0, 0, 0, 0, 0, 0, 0, 0, 0, 0, 0, 0, 0, 0, 0, 0, 0, 0, 0, 0, 0]

  datatype Base = Base(seqnum: bv32, devid: bv32, direction: bv32, ep: bv32)

  /** A received command, its integers in host order (signed ones as bit patterns). */
  datatype Cmd =
    | Submit(base: Base, flags: bv32, length: bv32, startFrame: bv32, packets: bv32, interval: bv32,
             setup: Setup, payload: seq<Byte>)
    | Unlink(base: Base, target: bv32, tail: Tail)

  /** A reply; the fields that the device always sends as zero are left out. */
  datatype Rep =
    | RetSubmit(base: Base, actualLength: bv32, payload: seq<Byte>)
    | RetUnlink(base: Base, status: bv32)

  datatype Fault = Truncated | UnknownCommand | BadLength

  datatype Parse<T> = Parsed(value: T, rest: seq<Byte>) | Stop(fault: Fault)

  /** Only an OUT submit carries a payload, and its header says how long it is. */
  ghost predicate ValidCmd(c: Cmd) {
    c.Submit? ==> if c.base.direction == DIR_OUT then Signed32(c.length) == |c.payload| else c.payload == []
  }

  /** A reply is framed when the peer can tell from its header how many payload bytes follow. */
  ghost predicate Framed(r: Rep) {
    r.RetSubmit? ==> if r.base.direction == DIR_IN then Signed32(r.actualLength) == |r.payload| else r.payload == []
  }

  // ----- sequences of words -----

  function Words(ws: seq<bv32>): (m: seq<Byte>)
    ensures |m| == 4 * |ws|
  {
    if ws == [] then [] else Big32(ws[0]) + Words(ws[1..])
  }

  /** The words of a struct in memory, each converted from big-endian to host order. */
  function HostWords(little: bool, m: seq<Byte>): (ws: seq<bv32>)
    ensures |ws| == |m| / 4
  {
    if |m| < 4 then [] else [HFB32(little, Load32(little, m[..4]))] + HostWords(little, m[4..])
  }

  lemma {:induction false} HostWordsOfWords(little: bool, ws: seq<bv32>, tail: seq<Byte>)
    ensures forall k :: 0 <= k < |ws| ==> HostWords(little, Words(ws) + tail)[k] == ws[k]
  {
    if ws != [] {
      var m := Words(ws) + tail;
      assert m[..4] == Big32(ws[0]) && m[4..] == Words(ws[1..]) + tail;
      LoadBig(little, ws[0], m[..4]);
      HostWordsOfWords(little, ws[1..], tail);
    }
  }

  lemma {:induction false} WordsOfHostWords(little: bool, m: seq<Byte>, n: nat)
    requires 4 * n <= |m|
    ensures Words(HostWords(little, m)[..n]) == m[..4 * n]
  {
    if n > 0 {
      var ws := HostWords(little, m);
      LoadBig(little, 0, m[..4]);
      WordsOfHostWords(little, m[4..], n - 1);
      assert ws[..n][1..] == HostWords(little, m[4..])[..n - 1];
      assert m[..4 * n] == m[..4] + m[4..][..4 * (n - 1)];
    }
  }

  // ----- commands -----

  function CmdWords(c: Cmd): (ws: seq<bv32>) {
    match c
    case Submit(b, flags, length, start, packets, interval, _, _) =>
      [CMD_SUBMIT, b.seqnum, b.devid, b.direction, b.ep, flags, length, start, packets, interval]
    case Unlink(b, target, _) =>
      [CMD_UNLINK, b.seqnum, b.devid, b.direction, b.ep, target]
  }

  /** The protocol's layout of a command. */
  function EncodeCmd(c: Cmd): (m: seq<Byte>)
    ensures |m| >= 48
  {
    Words(CmdWords(c)) + CmdTail(c)
  }

  /** What `_ReadCmd` makes of a byte stream on a host of either byte order. */
  function ParseCmd(little: bool, s: seq<Byte>): (p: Parse<Cmd>)
    ensures p.Parsed? ==> |p.rest| < |s|
  {
    if |s| < 48 then Stop(Truncated) else DecodeCmd(HostWords(little, s[..48]), s)
  }

  /** The header's fields, given its words in host order; `setup` and unused bytes stay as received. */
  function DecodeCmd(ws: seq<bv32>, s: seq<Byte>): (p: Parse<Cmd>)
    requires |s| >= 48 && |ws| == 12
    ensures p.Parsed? ==> |p.rest| < |s|
  {
    var base := Base(ws[1], ws[2], ws[3], ws[4]);
    if ws[0] == CMD_SUBMIT then
      var c := Submit(base, ws[5], ws[6], ws[7], ws[8], ws[9], s[40..48], []);
      if base.direction != DIR_OUT then Parsed(c, s[48..])
      else
        var n := SizeOf32(c.length);
        if n >= TWO64 - TWO31 then Stop(BadLength)
        else if |s| < 48 + n then Stop(Truncated)
        else Parsed(c.(payload := s[48..48 + n]), s[48 + n..])
    else if ws[0] == CMD_UNLINK then
      Parsed(Unlink(base, ws[5], s[24..48]), s[48..])
    else Stop(UnknownCommand)
  }

  /** The bytes of a command after its words. */
  function CmdTail(c: Cmd): seq<Byte> {
    if c.Submit? then c.setup + c.payload else c.tail
  }

  lemma DecodeOfSubmit(ws: seq<bv32>, c: Cmd, s: seq<Byte>, rest: seq<Byte>)
    requires c.Submit? && ValidCmd(c) && |ws| == 12 && |s| >= 48
    requires forall k :: 0 <= k < |CmdWords(c)| ==> ws[k] == CmdWords(c)[k]
    requires s[40..] == c.setup + c.payload + rest
    ensures DecodeCmd(ws, s) == Parsed(c, rest)
  {
    hide Signed32, SizeOf32;
    assert s[40..48] == s[40..][..8] == c.setup;
    assert s[48..] == s[40..][8..] == c.payload + rest;
    assert s[48..48 + |c.payload|] == c.payload;
    assert s[48 + |c.payload|..] == rest;
  }

  lemma DecodeOfUnlink(ws: seq<bv32>, c: Cmd, s: seq<Byte>, rest: seq<Byte>)
    requires c.Unlink? && |ws| == 12 && |s| >= 48
    requires forall k :: 0 <= k < |CmdWords(c)| ==> ws[k] == CmdWords(c)[k]
    requires s[24..] == c.tail + rest
    ensures DecodeCmd(ws, s) == Parsed(c, rest)
  {
    hide Signed32, SizeOf32;
    assert s[24..48] == s[24..][..24] == c.tail;
    assert s[48..] == s[24..][24..] == rest;
  }

  /** The header of a message that starts with the words `ws`, as the host reads it. */
  lemma HeaderWords(little: bool, ws: seq<bv32>, tail: seq<Byte>)
    requires |ws| <= 12 && 4 * |ws| + |tail| >= 48
    ensures var s := Words(ws) + tail;
            forall k :: 0 <= k < |ws| ==> HostWords(little, s[..48])[k] == ws[k]
  {
    var s := Words(ws) + tail;
    var cut := tail[..48 - 4 * |ws|];
    assert s[..48] == Words(ws) + cut;
    HostWordsOfWords(little, ws, cut);
  }

  lemma ParseOfEncode(little: bool, c: Cmd, rest: seq<Byte>)
    requires ValidCmd(c)
    ensures ParseCmd(little, EncodeCmd(c) + rest) == Parsed(c, rest)
  {
    hide Words, HostWords, DecodeCmd, ValidCmd;
    var tail := CmdTail(c) + rest;
    var s := Words(CmdWords(c)) + tail;
    assert EncodeCmd(c) + rest == s;
    HeaderWords(little, CmdWords(c), tail);
    assert s[4 * |CmdWords(c)|..] == tail;
    if c.Submit? {
      DecodeOfSubmit(HostWords(little, s[..48]), c, s, rest);
    } else {
      DecodeOfUnlink(HostWords(little, s[..48]), c, s, rest);
    }
  }

  lemma EncodeOfDecode(ws: seq<bv32>, s: seq<Byte>)
    requires |s| >= 48 && |ws| == 12
    requires DecodeCmd(ws, s).Parsed?
    ensures var p := DecodeCmd(ws, s);
            ValidCmd(p.value) && CmdTail(p.value) + p.rest == s[if p.value.Submit? then 40 else 24..]
  {
    hide Signed32, SizeOf32;
    var p := DecodeCmd(ws, s);
    if p.value.Submit? {
      assert p.value.payload + p.rest == s[48..];
      assert s[40..] == s[40..48] + s[48..];
    } else {
      assert s[24..] == s[24..48] + s[48..];
    }
  }

  lemma WordsOfDecode(ws: seq<bv32>, s: seq<Byte>)
    requires |s| >= 48 && |ws| == 12
    requires DecodeCmd(ws, s).Parsed?
    ensures var p := DecodeCmd(ws, s);
            CmdWords(p.value) == ws[..if p.value.Submit? then 10 else 6]
  {
    hide Signed32, SizeOf32;
  }

  lemma EncodeOfParse(little: bool, s: seq<Byte>)
    requires ParseCmd(little, s).Parsed?
    ensures var p := ParseCmd(little, s);
            ValidCmd(p.value) && EncodeCmd(p.value) + p.rest == s
  {
    hide HostWords, Words, Signed32, SizeOf32, DecodeCmd;
    var ws := HostWords(little, s[..48]);
    EncodeOfDecode(ws, s);
    WordsOfDecode(ws, s);
    var p := ParseCmd(little, s);
    var n := |CmdWords(p.value)|;
    WordsOfHostWords(little, s[..48], n);
    assert Words(CmdWords(p.value)) == s[..4 * n];
  }

  /** A stream starts with a command exactly when it starts with that valid command's layout. */
  lemma CommandFraming(little: bool, s: seq<Byte>, c: Cmd, rest: seq<Byte>)
    ensures ParseCmd(little, s) == Parsed(c, rest) <==> ValidCmd(c) && s == EncodeCmd(c) + rest
  {
    if ParseCmd(little, s) == Parsed(c, rest) {
      EncodeOfParse(little, s);
    }
    if ValidCmd(c) {
      ParseOfEncode(little, c, rest);
    }
  }

  function EncodeCmds(cs: seq<Cmd>): seq<Byte> {
    if cs == [] then [] else EncodeCmd(cs[0]) + EncodeCmds(cs[1..])
  }

  /** The commands that repeated decoding yields before it has to stop. */
  function ParseCmds(little: bool, s: seq<Byte>): seq<Cmd>
    decreases |s|
  {
    match ParseCmd(little, s)
    case Stop(_) => []
    case Parsed(c, rest) => [c] + ParseCmds(little, rest)
  }

  /** Decoding a stream of commands gives back exactly those commands, on either kind of host. */
  lemma {:induction false} CommandStream(little: bool, cs: seq<Cmd>, junk: seq<Byte>)
    requires forall c :: c in cs ==> ValidCmd(c)
    requires ParseCmd(little, junk).Stop?
    ensures ParseCmds(little, EncodeCmds(cs) + junk) == cs
  {
    hide ValidCmd, ParseCmd, EncodeCmd;
    if cs == [] {
      assert EncodeCmds(cs) + junk == junk;
    } else {
      var more := EncodeCmds(cs[1..]) + junk;
      assert EncodeCmds(cs) + junk == EncodeCmd(cs[0]) + more;
      ParseOfEncode(little, cs[0], more);
      CommandStream(little, cs[1..], junk);
    }
  }

  /** Two lists of commands with the same layout are the same list. */
  lemma CommandStreamUnique(cs: seq<Cmd>, ds: seq<Cmd>)
    requires forall c :: c in cs || c in ds ==> ValidCmd(c)
    requires EncodeCmds(cs) == EncodeCmds(ds)
    ensures cs == ds
  {
    CommandStream(true, cs, []);
    CommandStream(true, ds, []);
    assert EncodeCmds(cs) + [] == EncodeCmds(ds) + [];
  }

  // ----- replies -----

  function Zeros(n: nat): (m: seq<Byte>)
    ensures |m| == n
  {
    seq(n, _ => 0)
  }

  function RepWords(r: Rep): (ws: seq<bv32>) {
    match r
    case RetSubmit(b, length, _) => [RET_SUBMIT, b.seqnum, b.devid, b.direction, b.ep, 0, length, 0, 0, 0]
    case RetUnlink(b, status) => [RET_UNLINK, b.seqnum, b.devid, b.direction, b.ep, status]
  }

  /** The protocol's layout of a reply. */
  function EncodeReply(r: Rep): (m: seq<Byte>)
    ensures |m| >= 48
  {
    Words(RepWords(r)) + if r.RetSubmit? then Zeros(8) + r.payload else Zeros(24)
  }

  /** The words that `_reply` stores through BFH_U32 and BFH_S32, as they lie in host memory. */
  function StoredWords(little: bool, ws: seq<bv32>): (m: seq<Byte>) {
    if ws == [] then [] else Store32(little, BFH32(little, ws[0])) + StoredWords(little, ws[1..])
  }

  /** The bytes the write thread sends for a reply: its 48-byte header, then its payload. */
  function HeaderImage(little: bool, r: Rep): (m: seq<Byte>) {
    StoredWords(little, RepWords(r)) + if r.RetSubmit? then Zeros(8) else Zeros(24)
  }

  function Payload(r: Rep): seq<Byte> {
    if r.RetSubmit? then r.payload else []
  }

  lemma {:induction false} StoredWordsAreBig(little: bool, ws: seq<bv32>)
    ensures StoredWords(little, ws) == Words(ws)
  {
    if ws != [] {
      StoreBig(little, ws[0]);
      StoredWordsAreBig(little, ws[1..]);
    }
  }

  /** What is sent is the protocol's layout, whatever the host's byte order. */
  lemma SentLayout(little: bool, r: Rep)
    ensures |HeaderImage(little, r)| == 48
    ensures HeaderImage(little, r) + Payload(r) == EncodeReply(r)
  {
    StoredWordsAreBig(little, RepWords(r));
    var z := if r.RetSubmit? then Zeros(8) else Zeros(24);
    assert Words(RepWords(r)) + z + Payload(r) == Words(RepWords(r)) + (z + Payload(r));
  }

  function Serialise(little: bool, rs: seq<Rep>): seq<Byte> {
    if rs == [] then [] else HeaderImage(little, rs[0]) + Payload(rs[0]) + Serialise(little, rs[1..])
  }

  lemma {:induction false} SerialiseAppend(little: bool, rs: seq<Rep>, more: seq<Rep>)
    ensures Serialise(little, rs + more) == Serialise(little, rs) + Serialise(little, more)
  {
    if rs == [] {
      assert rs + more == more;
    } else {
      assert (rs + more)[1..] == rs[1..] + more;
      SerialiseAppend(little, rs[1..], more);
    }
  }

  /** How the peer reads a reply: the payload of an IN transfer is as long as `actual_length` says. */
  function ParseReply(s: seq<Byte>): (p: Parse<Rep>)
    ensures p.Parsed? ==> |p.rest| < |s|
  {
    if |s| < 48 then Stop(Truncated) else DecodeReply(HostWords(false, s[..48]), s)
  }

  function DecodeReply(ws: seq<bv32>, s: seq<Byte>): (p: Parse<Rep>)
    requires |s| >= 48 && |ws| == 12
    ensures p.Parsed? ==> |p.rest| < |s|
  {
    var base := Base(ws[1], ws[2], ws[3], ws[4]);
    if ws[0] == RET_SUBMIT then
      var r := RetSubmit(base, ws[6], []);
      if base.direction != DIR_IN then Parsed(r, s[48..])
      else
        var n := Signed32(r.actualLength);
        if n < 0 then Stop(BadLength)
        else if |s| < 48 + n then Stop(Truncated)
        else Parsed(r.(payload := s[48..48 + n]), s[48 + n..])
    else if ws[0] == RET_UNLINK then
      Parsed(RetUnlink(base, ws[5]), s[48..])
    else Stop(UnknownCommand)
  }

  function ParseReplies(s: seq<Byte>): seq<Rep>
    decreases |s|
  {
    match ParseReply(s)
    case Stop(_) => []
    case Parsed(r, rest) => [r] + ParseReplies(rest)
  }

  lemma DecodeOfEncodedReply(ws: seq<bv32>, r: Rep, rest: seq<Byte>)
    requires Framed(r) && |ws| == 12
    requires forall k :: 0 <= k < |RepWords(r)| ==> ws[k] == RepWords(r)[k]
    ensures DecodeReply(ws, EncodeReply(r) + rest) == Parsed(r, rest)
  {
    hide Words, Signed32;
    var s := EncodeReply(r) + rest;
    assert s[48..] == Payload(r) + rest;
    assert s[48..48 + |Payload(r)|] == Payload(r);
    assert s[48 + |Payload(r)|..] == rest;
  }

  lemma ParseOfEncodedReply(r: Rep, rest: seq<Byte>)
    requires Framed(r)
    ensures ParseReply(EncodeReply(r) + rest) == Parsed(r, rest)
  {
    hide Words, HostWords, DecodeReply, Framed;
    var tail := (if r.RetSubmit? then Zeros(8) + r.payload else Zeros(24)) + rest;
    var s := Words(RepWords(r)) + tail;
    assert EncodeReply(r) + rest == s;
    HeaderWords(false, RepWords(r), tail);
    DecodeOfEncodedReply(HostWords(false, s[..48]), r, rest);
  }

  /** What is sent for a list of framed replies parses back into exactly that list. */
  lemma {:induction false} ReplyStream(little: bool, rs: seq<Rep>)
    requires forall r :: r in rs ==> Framed(r)
    ensures ParseReplies(Serialise(little, rs)) == rs
  {
    hide Framed, ParseReply, EncodeReply, HeaderImage;
    if rs != [] {
      SentLayout(little, rs[0]);
      ParseOfEncodedReply(rs[0], Serialise(little, rs[1..]));
      ReplyStream(little, rs[1..]);
    }
  }

  lemma DecodeOfTruncated(ws: seq<bv32>, r: Rep, w: seq<Byte>)
    requires Framed(r) && |ws| == 12
    requires forall k :: 0 <= k < |RepWords(r)| ==> ws[k] == RepWords(r)[k]
    requires 48 <= |w| < 48 + |Payload(r)|
    ensures DecodeReply(ws, w) == Stop(Truncated)
  {
    hide Words, Signed32;
  }

  lemma TruncatedReply(r: Rep, w: seq<Byte>)
    requires Framed(r)
    requires w <= EncodeReply(r) && |w| < |EncodeReply(r)|
    ensures ParseReply(w) == Stop(Truncated)
  {
    hide Words, Signed32, HostWords, DecodeReply;
    if |w| >= 48 {
      var cut := w[..48][4 * |RepWords(r)|..];
      assert w[..48] == EncodeReply(r)[..48] == Words(RepWords(r)) + cut;
      HostWordsOfWords(false, RepWords(r), cut);
      DecodeOfTruncated(HostWords(false, w[..48]), r, w);
    }
  }

  /** A stream cut off anywhere still parses into a prefix of the replies that were being sent. */
  lemma {:induction false} PartialReplyStream(little: bool, rs: seq<Rep>, w: seq<Byte>)
    requires forall r :: r in rs ==> Framed(r)
    requires w <= Serialise(little, rs)
    ensures ParseReplies(w) <= rs
  {
    hide Framed, ParseReply, EncodeReply, HeaderImage;
    if rs != [] {
      SentLayout(little, rs[0]);
      var first := EncodeReply(rs[0]);
      var all := first + Serialise(little, rs[1..]);
      assert all == Serialise(little, rs);
      if |w| < |first| {
        assert w == all[..|w|] == first[..|w|];
        TruncatedReply(rs[0], w);
      } else {
        var more := w[|first|..];
        assert w == first + more;
        assert more == all[..|w|][|first|..] == Serialise(little, rs[1..])[..|more|];
        ParseOfEncodedReply(rs[0], more);
        PartialReplyStream(little, rs[1..], more);
      }
    }
  }

  // ----- the layouts, byte by byte -----

  lemma TwoWords(a: bv32, b: bv32)
    ensures Words([a, b]) == Big32(a) + Big32(b)
  {
    hide Big32;
    assert [a, b][1..] == [b];
    assert Words([b]) == Big32(b) + [];
  }

  lemma MoreWords(ws: seq<bv32>, a: bv32, b: bv32)
    ensures Words(ws + [a, b]) == Words(ws) + Big32(a) + Big32(b)
  {
    hide Words, Big32;
    WordsAppend(ws, [a, b]);
    TwoWords(a, b);
    assert Words(ws) + (Big32(a) + Big32(b)) == Words(ws) + Big32(a) + Big32(b);
  }

  lemma SixWords(a: bv32, b: bv32, c: bv32, d: bv32, e: bv32, f: bv32)
    ensures Words([a, b, c, d, e, f]) == Big32(a) + Big32(b) + Big32(c) + Big32(d) + Big32(e) + Big32(f)
  {
    hide Words, Big32;
    TwoWords(a, b);
    MoreWords([a, b], c, d);
    MoreWords([a, b, c, d], e, f);
    assert [a, b] + [c, d] == [a, b, c, d];
    assert [a, b, c, d] + [e, f] == [a, b, c, d, e, f];
  }

  lemma TenWords(a: bv32, b: bv32, c: bv32, d: bv32, e: bv32, f: bv32, g: bv32, h: bv32, i: bv32, j: bv32)
    ensures Words([a, b, c, d, e, f, g, h, i, j])
            == Big32(a) + Big32(b) + Big32(c) + Big32(d) + Big32(e) + Big32(f)
               + Big32(g) + Big32(h) + Big32(i) + Big32(j)
  {
    hide Words, Big32;
    SixWords(a, b, c, d, e, f);
    MoreWords([a, b, c, d, e, f], g, h);
    MoreWords([a, b, c, d, e, f, g, h], i, j);
    assert [a, b, c, d, e, f] + [g, h] == [a, b, c, d, e, f, g, h];
    assert [a, b, c, d, e, f, g, h] + [i, j] == [a, b, c, d, e, f, g, h, i, j];
  }

  lemma {:induction false} WordsAppend(a: seq<bv32>, b: seq<bv32>)
    ensures Words(a + b) == Words(a) + Words(b)
  {
    if a == [] {
      assert a + b == b;
    } else {
      assert (a + b)[1..] == a[1..] + b;
      WordsAppend(a[1..], b);
    }
  }

  /** The 48 bytes that are sent for a reply, on either host, with every constant as a number. */
  lemma ReplyBytes(little: bool, r: Rep)
    ensures HeaderImage(little, r) ==
            match r
            case RetSubmit(b, n, _) =>
              Big32(3) + Big32(b.seqnum) + Big32(b.devid) + Big32(b.direction) + Big32(b.ep) + Big32(0) + Big32(n)
              + Big32(0) + Big32(0) + Big32(0) + [0, 0, 0, 0, 0, 0, 0, 0]
            case RetUnlink(b, status) =>
              Big32(4) + Big32(b.seqnum) + Big32(b.devid) + Big32(b.direction) + Big32(b.ep) + Big32(status)
              + [0, 0, 0, 0, 0, 0, 0, 0, 0, 0, 0, 0, 0, 0, 0, 0, 0, 0, 0, 0, 0, 0, 0, 0]
  {
    hide Words, StoredWords, Big32;
    StoredWordsAreBig(little, RepWords(r));
    var b := r.base;
    if r.RetSubmit? {
      TenWords(3, b.seqnum, b.devid, b.direction, b.ep, 0, r.actualLength, 0, 0, 0);
    } else {
      SixWords(4, b.seqnum, b.devid, b.direction, b.ep, r.status);
    }
  }

  /** The bytes of a command, and when they are valid, with every constant as a number. */
  lemma CommandBytes(c: Cmd)
    ensures EncodeCmd(c) ==
            match c
            case Submit(b, flags, length, start, packets, interval, setup, payload) =>
              Big32(1) + Big32(b.seqnum) + Big32(b.devid) + Big32(b.direction) + Big32(b.ep) + Big32(flags)
              + Big32(length) + Big32(start) + Big32(packets) + Big32(interval) + setup + payload
            case Unlink(b, target, tail) =>
              Big32(2) + Big32(b.seqnum) + Big32(b.devid) + Big32(b.direction) + Big32(b.ep) + Big32(target) + tail
    ensures ValidCmd(c) <==>
            (c.Submit? ==> if c.base.direction == 0 then Signed32(c.length) == |c.payload| else c.payload == [])
  {
    hide Words, Big32, Signed32;
    var b := c.base;
    if c.Submit? {
      TenWords(1, b.seqnum, b.devid, b.direction, b.ep, c.flags, c.length, c.startFrame, c.packets, c.interval);
    } else {
      SixWords(2, b.seqnum, b.devid, b.direction, b.ep, c.target);
    }
  }
}
