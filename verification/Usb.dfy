/**
 Standard requests to the default endpoint, as `_handleCmdSubmitEP0StandardRequest` answers them, and
 the USB descriptors (LIB/Toastbox/USB.h) that it serves. Descriptors are their bytes in memory; all
 multi-byte fields of a descriptor are little-endian (section 8.1 of the USB 2.0 specification).
 */
module Usb {
  import opened Endian
  import opened UsbIp
  import opened Options

  // Descriptor types and requests (sections 9.4 and 9.5 of the USB 2.0 specification)
  const DESC_DEVICE: Byte := 1
  const DESC_CONFIGURATION: Byte := 2
  const DESC_STRING: Byte := 3
  const DESC_DEVICE_QUALIFIER: Byte := 6

  const GET_STATUS: Byte := 0
  const GET_DESCRIPTOR: Byte := 6
  const SET_CONFIGURATION: Byte := 9

  datatype SetupRequest = SetupRequest(requestType: Byte, request: Byte, value: bv16, index: bv16, length: bv16)

  const NO_SETUP := SetupRequest(0, 0, 0, 0, 0)

  /** The setup bytes of a submit command, read as a packed struct of little-endian fields. */
  function GetSetup(little: bool, s: Setup): SetupRequest {
    SetupRequest(s[0], s[1],
                 HFL16(little, Load16(little, s[2..4])),
                 HFL16(little, Load16(little, s[4..6])),
                 HFL16(little, Load16(little, s[6..8])))
  }

  predicate StandardType(r: SetupRequest) {
    r.requestType & 0x60 == 0
  }

  type Descriptor = d: seq<Byte> | |d| >= 9 witness [0, 0, 0, 0, 0, 0, 0, 0, 0]
  type ShortDescriptor = d: seq<Byte> | |d| >= 2 witness [2, 3]

  /** The tables that the device is built from. */
  datatype Info = Info(little: bool, device: seq<Byte>, qualifier: Option<ShortDescriptor>,
                       configs: seq<Descriptor>, strings: Option<seq<ShortDescriptor>>,
                       throwOnErr: bool)

  /** `bLength` of a descriptor. */
  function ShortLen(d: ShortDescriptor): nat { Value(d[0]) }

  /** `wTotalLength` of a configuration descriptor. */
  function TotalLen(little: bool, d: Descriptor): nat { Unsigned16(HFL16(little, Load16(little, d[2..4]))) }

  function ConfigValue(d: Descriptor): Byte { d[5] }

  predicate SelfPowered(d: Descriptor) { d[7] & 0x40 != 0 }

  /** Two bytes of a descriptor or request, the low one first, as a number. */
  function Number(lo: Byte, hi: Byte): nat { Int(lo) + 256 * Int(hi) }

  /** Every descriptor's memory is at least as long as its length field says. */
  ghost predicate ValidInfo(info: Info) {
    && (forall d <- info.configs :: Number(d[2], d[3]) <= |d|)
    && (info.strings.Some? ==> forall d <- info.strings.value :: Int(d[0]) <= |d|)
    && (info.qualifier.Some? ==> Int(info.qualifier.value[0]) <= |info.qualifier.value|)
  }

  lemma SetupFields(little: bool, s: Setup)
    ensures GetSetup(little, s) == SetupRequest(s[0], s[1], (s[3] as bv16 << 8) | (s[2] as bv16),
                                                (s[5] as bv16 << 8) | (s[4] as bv16),
                                                (s[7] as bv16 << 8) | (s[6] as bv16))
  {
    hide HFL16, Load16;
    LittleEndianUnit(little, s[2], s[3]);
    LittleEndianUnit(little, s[4], s[5]);
    LittleEndianUnit(little, s[6], s[7]);
    assert s[2..4] == [s[2], s[3]] && s[4..6] == [s[4], s[5]] && s[6..8] == [s[6], s[7]];
  }

  lemma RequestFields(little: bool, s: Setup)
    ensures var r := GetSetup(little, s);
            && r.requestType == s[0] && r.request == s[1]
            && LowValue(r) == s[2] && Kind(r) == s[3] && Unsigned16(r.length) == Number(s[6], s[7])
  {
    hide Unsigned16, GetSetup, Int;
    SetupFields(little, s);
    LowAndHigh(s[2], s[3]);
    UnsignedUnit(s[6], s[7]);
  }

  lemma LowAndHigh(lo: Byte, hi: Byte)
    ensures ((((hi as bv16 << 8) | (lo as bv16)) & 0xFF00) >> 8) as Byte == hi
    ensures (((hi as bv16 << 8) | (lo as bv16)) & 0x00FF) as Byte == lo
  {
  }

  lemma DescriptorFields(little: bool, d: Descriptor)
    ensures TotalLen(little, d) == Number(d[2], d[3])
    ensures ConfigValue(d) == d[5] && (SelfPowered(d) <==> d[7] & 0x40 != 0)
  {
    hide HFL16, Load16, Unsigned16, Int;
    LittleEndianUnit(little, d[2], d[3]);
    assert d[2..4] == [d[2], d[3]];
    UnsignedUnit(d[2], d[3]);
  }

  /** A reply's data (none for a null pointer) and the configuration selected afterwards, or an exception. */
  datatype Standard = Rejected | Accepted(data: Option<seq<Byte>>, config: Option<nat>)

  function Min(a: nat, b: nat): nat { if a <= b then a else b }

  function FindConfig(configs: seq<Descriptor>, value: Byte, i: nat): (r: Option<nat>)
    requires i <= |configs|
    ensures r.Some? ==> i <= r.value < |configs| && configs[r.value][5] == value
    ensures r.Some? ==> forall k :: i <= k < r.value ==> configs[k][5] != value
    ensures r.None? ==> forall k :: i <= k < |configs| ==> configs[k][5] != value
    decreases |configs| - i
  {
    if i == |configs| then None
    else if ConfigValue(configs[i]) == value then Some(i)
    else FindConfig(configs, value, i + 1)
  }

  /** The descriptor memory and length that GetDescriptor picks; `Stray` is a read outside the tables. */
  datatype Pick = Missing | BadIndex | Stray | Found(memory: seq<Byte>, len: nat)

  function PickDescriptor(info: Info, kind: Byte, idx: nat): Pick {
    if kind == DESC_DEVICE then
      // The length comes from a configuration descriptor, and the index is not checked
      if idx >= |info.configs| then Stray else Found(info.device, TotalLen(info.little, info.configs[idx]))
    else if kind == DESC_CONFIGURATION then
      if idx >= |info.configs| then BadIndex else Found(info.configs[idx], TotalLen(info.little, info.configs[idx]))
    else if kind == DESC_STRING then
      if info.strings.None? then Missing
      else if idx >= |info.strings.value| then BadIndex
      else Found(info.strings.value[idx], ShortLen(info.strings.value[idx]))
    else if kind == DESC_DEVICE_QUALIFIER then
      if info.qualifier.None? then Missing else Found(info.qualifier.value, ShortLen(info.qualifier.value))
    else Missing
  }

  function Kind(r: SetupRequest): Byte { ((r.value & 0xFF00) >> 8) as Byte }

  function LowValue(r: SetupRequest): Byte { (r.value & 0x00FF) as Byte }

  /** GetDescriptor: the reply is capped to `wLength`. Reading past the memory modelled is an exception. */
  function GetDescriptor(info: Info, r: SetupRequest, config: Option<nat>): Standard {
    match PickDescriptor(info, Kind(r), Value(LowValue(r)))
    case Missing => Accepted(None, config)
    case BadIndex => Rejected
    case Stray => Rejected
    case Found(memory, len) =>
      var n := Min(len, Unsigned16(r.length));
      if n > |memory| then Rejected else Accepted(Some(memory[..n]), config)
  }

  function SetConfiguration(info: Info, r: SetupRequest): Standard {
    var found := FindConfig(info.configs, LowValue(r), 0);
    if found.None? then Rejected else Accepted(None, found)
  }

  function HandleStandard(info: Info, config: Option<nat>, c: Cmd): (s: Standard)
    requires c.Submit?
    requires config.Some? ==> config.value < |info.configs|
    ensures s.Accepted? ==> c.base.direction == DIR_IN || (c.base.direction == DIR_OUT && s.data.None?)
    ensures s.Accepted? && s.config.Some? ==> s.config.value < |info.configs|
  {
    var r := GetSetup(info.little, c.setup);
    if r.requestType & 0x1F != 0 then Rejected  // only the device itself is supported as recipient
    else if c.base.direction == DIR_IN then
      if r.request == GET_STATUS then
        if config.None? then Rejected
        else
          var status: bv16 := if SelfPowered(info.configs[config.value]) then 1 else 0;
          Accepted(Some(Store16(info.little, LFH16(info.little, status))), config)
      else if r.request == GET_DESCRIPTOR then GetDescriptor(info, r, config)
      else if r.request == SET_CONFIGURATION then SetConfiguration(info, r)
      else Rejected
    else if c.base.direction == DIR_OUT then
      if SizeOf32(c.length) != 0 then Rejected
      else if r.request == SET_CONFIGURATION then SetConfiguration(info, r)
      else Rejected
    else Rejected
  }

  /** The first bytes of a descriptor that is `len` long, `wLength` at most. */
  function Capped(d: seq<Byte>, len: nat, wLength: nat): seq<Byte>
    requires len <= |d|
  {
    d[..if len <= wLength then len else wLength]
  }

  /**
   Configuration, string and qualifier descriptors are served as the specification asks, byte 3 of the
   setup data being the kind, byte 2 the index, bytes 6 and 7 the length asked for. An index out of range
   is an exception, and what the device does not have is answered without data.
   */
  lemma DescriptorServed(info: Info, s: Setup, config: Option<nat>)
    requires ValidInfo(info) && s[3] != 1
    ensures var kind, idx, w := s[3], Int(s[2]), Number(s[6], s[7]);
            GetDescriptor(info, GetSetup(info.little, s), config) ==
            if kind == 2 && idx < |info.configs| then
              var d := info.configs[idx];
              Accepted(Some(Capped(d, Number(d[2], d[3]), w)), config)
            else if kind == 3 && info.strings.Some? && idx < |info.strings.value| then
              var d := info.strings.value[idx];
              Accepted(Some(Capped(d, Int(d[0]), w)), config)
            else if kind == 6 && info.qualifier.Some? then
              var d := info.qualifier.value;
              Accepted(Some(Capped(d, Int(d[0]), w)), config)
            else if kind == 2 || (kind == 3 && info.strings.Some?) then
              Rejected
            else
              Accepted(None, config)
  {
    hide GetSetup, Kind, LowValue, Unsigned16, TotalLen, Value, Int, Number;
    RequestFields(info.little, s);
    var idx := Int(s[2]);
    ValueOf(s[2]);
    if idx < |info.configs| {
      DescriptorFields(info.little, info.configs[idx]);
    }
    if info.strings.Some? && idx < |info.strings.value| {
      ValueOf(info.strings.value[idx][0]);
    }
    if info.qualifier.Some? {
      ValueOf(info.qualifier.value[0]);
    }
  }

  /**
   The device descriptor's own length plays no part when it is served: whatever is to be sent is counted
   from a configuration descriptor. It comes out as the specification asks exactly when that count
   agrees, after capping, with the descriptor's own.
   */
  lemma DeviceDescriptorServed(info: Info, s: Setup, config: Option<nat>)
    requires |info.device| >= 18 && info.device[0] == 18 && s[3] == 1
    ensures var idx, w := Int(s[2]), Number(s[6], s[7]);
            GetDescriptor(info, GetSetup(info.little, s), config) == Accepted(Some(Capped(info.device, 18, w)), config)
            <==> idx < |info.configs| &&
                 var total := Number(info.configs[idx][2], info.configs[idx][3]);
                 total == 18 || (total >= w && w <= 18)
  {
    hide GetSetup, Kind, LowValue, Unsigned16, TotalLen, Value, Int, Number;
    RequestFields(info.little, s);
    ValueOf(s[2]);
    var idx, w := Int(s[2]), Number(s[6], s[7]);
    assert |Capped(info.device, 18, w)| == Min(18, w);
    if idx < |info.configs| {
      DescriptorFields(info.little, info.configs[idx]);
      var n := Min(TotalLen(info.little, info.configs[idx]), w);
      assert n <= |info.device| ==> |info.device[..n]| == n;
    }
  }

  /** Asking for 64 bytes, as a host first does, with a 67-byte configuration: too much is sent, or read. */
  lemma DeviceDescriptorTooLong(info: Info, config: Option<nat>)
    requires |info.device| >= 18 && info.device[0] == 18
    requires |info.configs| == 1 && info.configs[0][2] == 67 && info.configs[0][3] == 0
    ensures GetDescriptor(info, GetSetup(info.little, [0x80, 6, 0, 1, 0, 0, 64, 0]), config)
            != Accepted(Some(info.device[..18]), config)
  {
    DeviceDescriptorServed(info, [0x80, 6, 0, 1, 0, 0, 64, 0], config);
  }
}
