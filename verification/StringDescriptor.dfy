/**
 String descriptors (LIB/Toastbox/USB.h): written by the device, served through GetDescriptor, read back
 by a client (LIB/Toastbox/USBDevice.cpp). Characters are bytes; where `char` is signed, those from 0x80
 on are widened with ones. The packed struct is kept as its bytes in memory.
 */
module StringDescriptor {
  import opened Endian
  import opened UsbIp
  import opened Options
  import opened Usb

  function Widen(signed: bool, c: Byte): bv16 {
    if signed && c & 0x80 != 0 then 0xFF00 | (c as bv16) else c as bv16
  }

  /** Conversion of a 16-bit unit to `char`. */
  function Narrow(u: bv16): Byte { (u & 0xFF) as Byte }

  lemma NarrowWiden(signed: bool, c: Byte)
    ensures Narrow(Widen(signed, c)) == c
  {
  }

  /** `(bLength - 2) / 2` converted to `size_t`: the division truncates, and -1 becomes the largest value. */
  function CharsIn(bLength: nat): nat {
    if bLength == 0 then 0xFFFF_FFFF_FFFF_FFFF else if bLength == 1 then 0 else (bLength - 2) / 2
  }

  /** The descriptor of a string as section 9.6.7 of the USB 2.0 specification has it, on any host. */
  function EncodedByte(signed: bool, s: seq<Byte>, k: nat): Byte
    requires k < 2 + 2 * |s|
  {
    if k == 0 then Digit(2 + 2 * |s|)
    else if k == 1 then DESC_STRING
    else Little16(Widen(signed, s[(k - 2) / 2]))[k % 2]
  }

  function Encoded(signed: bool, s: seq<Byte>): (d: seq<Byte>)
    ensures |d| == 2 + 2 * |s|
  {
    seq(2 + 2 * |s|, k requires 0 <= k < 2 + 2 * |s| => EncodedByte(signed, s, k))
  }

  /** A buffer of `n` units after `reply` has been received into it and its length noted. */
  function Received(buffer: seq<Byte>, reply: seq<Byte>): (d: seq<Byte>)
    requires 0 < |buffer|
    ensures |d| == |buffer|
  {
    seq(|buffer|, k requires 0 <= k < |buffer| =>
      if k == 0 then Digit(|reply|) else if k < |reply| then reply[k] else buffer[k])
  }

  /** The characters of a descriptor: the low byte of each unit that its length covers, as far as it goes. */
  function Text(d: seq<Byte>): (s: seq<Byte>)
    requires 2 <= |d|
  {
    var n := CharsIn(Value(d[0]));
    seq(if 2 + 2 * n <= |d| then n else (|d| - 2) / 2, i requires 0 <= i < (|d| - 2) / 2 => d[2 + 2 * i])
  }

  lemma LowByteOfUnit(little: bool, m: seq<Byte>)
    requires |m| == 2
    ensures Narrow(HFL16(little, Load16(little, m))) == m[0]
  {
    LoadLittle(little, 0, m);
    hide HFL16, Load16;
  }

  class StringDescriptorN {
    const little: bool
    const data: array<Byte>

    ghost predicate Valid() { 2 <= data.Length <= 254 && data.Length % 2 == 0 }

    /** Template argument `N`. */
    ghost function Units(): nat
      requires Valid()
    {
      (data.Length - 2) / 2
    }

    constructor Blank(little: bool, n: nat)
      requires n <= 126
      ensures Valid() && fresh(data) && this.little == little && Units() == n
      ensures data[0] == Digit(2 + 2 * n) && data[1] == DESC_STRING
      ensures forall k :: 2 <= k < data.Length ==> data[k] == 0
    {
      this.little := little;
      data := new Byte[2 + 2 * n](_ => 0);
      new;
      data[0], data[1] := Digit(2 + 2 * n), DESC_STRING;
    }

    constructor (little: bool, signed: bool, s: seq<Byte>)
      requires |s| <= 126
      ensures Valid() && fresh(data) && this.little == little
      ensures data[..] == Encoded(signed, s)
    {
      hide Digit, Little16, Store16, LFH16, Widen;
      this.little := little;
      data := new Byte[2 + 2 * |s|](_ => 0);
      new;
      data[0], data[1] := Digit(2 + 2 * |s|), DESC_STRING;
      for i := 0 to |s|
        invariant forall k: nat :: k < 2 + 2 * i ==> data[k] == EncodedByte(signed, s, k)
      {
        var unit := Store16(little, LFH16(little, Widen(signed, s[i])));
        StoreLittle(little, Widen(signed, s[i]));
        data[2 + 2 * i], data[3 + 2 * i] := unit[0], unit[1];
      }
    }

    /** `stringDescriptor`: the bytes of the reply land in the object, and their number in `bLength`. */
    method Receive(reply: seq<Byte>)
      requires Valid()
      requires |reply| <= data.Length
      modifies data
      ensures data[..] == Received(old(data[..]), reply)
    {
      for k := 0 to |reply|
        invariant forall j :: 0 <= j < data.Length ==> data[j] == if j < k then reply[j] else old(data[j])
      {
        data[k] := reply[k];
      }
      data[0] := Digit(|reply|);
    }

    method AsciiString() returns (r: seq<Byte>)
      requires Valid()
      requires CharsIn(Value(data[0])) <= Units()
      ensures r == Text(data[..])
    {
      hide Value, Narrow, HFL16, Load16, Digit;
      var len := CharsIn(Value(data[0]));
      r := [];
      for i := 0 to len
        invariant |r| == i
        invariant forall k :: 0 <= k < i ==> r[k] == data[2 + 2 * k]
      {
        var unit := data[2 + 2 * i..4 + 2 * i];
        LowByteOfUnit(little, unit);
        r := r + [Narrow(HFL16(little, Load16(little, unit)))];
      }
    }
  }

  /** A descriptor says its own size, which a byte can hold. */
  lemma EncodedLength(signed: bool, s: seq<Byte>)
    requires |s| <= 126
    ensures Value(Encoded(signed, s)[0]) == |Encoded(signed, s)| <= 254
  {
    hide Value, Digit;
    DigitValue(2 + 2 * |s|);
  }

  lemma EncodedUnit(signed: bool, s: seq<Byte>, i: nat)
    requires i < |s|
    ensures Encoded(signed, s)[2 + 2 * i] == s[i]
  {
    hide Value, Digit, Widen;
    NarrowWiden(signed, s[i]);
  }

  /** Received up to `n` bytes, a descriptor still has the characters that fit into them. */
  lemma PrefixText(signed: bool, s: seq<Byte>, buffer: seq<Byte>, n: nat)
    requires |s| <= 126 && |buffer| == 254
    requires 0 < n <= 2 + 2 * |s|
    ensures var d := Received(buffer, Encoded(signed, s)[..n]);
            && Value(d[0]) == n
            && CharsIn(n) <= 126
            && Text(d) == s[..CharsIn(n)]
  {
    hide Value, Digit, Encoded;
    DigitValue(n);
    var d := Received(buffer, Encoded(signed, s)[..n]);
    assert Value(d[0]) == n;
    forall i | 0 <= i < CharsIn(n)
      ensures d[2 + 2 * i] == s[i]
    {
      EncodedUnit(signed, s, i);
    }
  }

  /**
   The bytes of a descriptor: its size, the type 3, and a little-endian unit for each character, whose high
   byte is 0, or all ones for characters from 0x80 on where `char` is signed.
   */
  lemma EncodedBytes(signed: bool, s: seq<Byte>)
    requires |s| <= 126
    ensures var d := Encoded(signed, s);
            && |d| == 2 + 2 * |s| && Int(d[0]) == |d| && d[1] == 3
            && forall i :: 0 <= i < |s| ==>
                 d[2 + 2 * i] == s[i] && d[3 + 2 * i] == if signed && s[i] >= 0x80 then 0xFF else 0
  {
    hide Digit, Value, Int, Encoded, Widen;
    EncodedLength(signed, s);
    var d := Encoded(signed, s);
    ValueOf(d[0]);
    assert d[1] == EncodedByte(signed, s, 1) by { EncodedAt(signed, s, 1); }
    forall i | 0 <= i < |s|
      ensures d[2 + 2 * i] == s[i] && d[3 + 2 * i] == if signed && s[i] >= 0x80 then 0xFF else 0
    {
      EncodedUnit(signed, s, i);
      EncodedAt(signed, s, 3 + 2 * i);
      HighByte(signed, s[i]);
    }
  }

  lemma EncodedAt(signed: bool, s: seq<Byte>, k: nat)
    requires k < 2 + 2 * |s|
    ensures Encoded(signed, s)[k] == EncodedByte(signed, s, k)
  {
  }

  lemma HighByte(signed: bool, c: Byte)
    ensures Little16(Widen(signed, c))[1] == if signed && c >= 0x80 then 0xFF else 0
  {
  }

  /**
   A string of up to 126 characters, written by a device of either endianness, served for any positive
   `wLength` and received by a client: its text is the characters that fit into `wLength` bytes. Bytes 2, 3,
   6 and 7 of the setup data are the index, the kind and the length asked for.
   */
  lemma StringRoundTrip(info: Info, setup: Setup, config: Option<nat>, signed: bool, s: seq<Byte>, buffer: seq<Byte>)
    returns (reply: seq<Byte>, d: seq<Byte>)
    requires |s| <= 126 && |buffer| == 254
    requires setup[3] == 3 && Number(setup[6], setup[7]) > 0
    requires info.strings.Some? && Int(setup[2]) < |info.strings.value|
    requires info.strings.value[Int(setup[2])] == Encoded(signed, s)
    ensures GetDescriptor(info, GetSetup(info.little, setup), config) == Accepted(Some(reply), config)
    ensures |reply| == Least(2 + 2 * |s|, Number(setup[6], setup[7])) <= 254
    ensures d == Received(buffer, reply) && Value(d[0]) == |reply| && CharsIn(|reply|) <= 126
    ensures var w := Number(setup[6], setup[7]); Text(d) == s[..if w == 1 then 0 else Least((w - 2) / 2, |s|)]
  {
    hide Value, Int, Number, Unsigned16, Kind, LowValue, GetSetup, Encoded, Received, Text;
    RequestFields(info.little, setup);
    ValueOf(setup[2]);
    EncodedLength(signed, s);
    var n := Least(2 + 2 * |s|, Number(setup[6], setup[7]));
    reply := Encoded(signed, s)[..n];
    d := Received(buffer, reply);
    PrefixText(signed, s, buffer, n);
  }

  function Least(a: int, b: int): int { if a <= b then a else b }
}
