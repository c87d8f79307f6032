/**
 What the host gets for a standard request: the status of the device, a descriptor, or the selection of
 a configuration; and which configuration is active in the course of a run.
 */
module Requests {
  import opened Endian
  import opened UsbIp
  import opened Options
  import opened Usb
  import opened Engine
  import opened CommandKinds

  /** A standard request with the device as recipient: bits 0 to 4 of the request type are zero. */
  predicate Asks(c: Cmd, request: Byte) {
    StandardRequest(c) && c.setup[0] & 0x1F == 0 && c.setup[1] == request
  }

  /** GetStatus (0) is answered with a little-endian word whose bit 0 says that the device is self-powered. */
  lemma StatusServed(info: Info, config: Option<nat>, c: Cmd)
    requires Asks(c, 0) && c.base.direction == 1
    requires config.Some? ==> config.value < |info.configs|
    ensures HandleStandard(info, config, c) ==
            if config.None? then Rejected
            else Accepted(Some([if info.configs[config.value][7] & 0x40 != 0 then 1 else 0, 0]), config)
  {
    RequestFields(info.little, c.setup);
    if config.Some? {
      DescriptorFields(info.little, info.configs[config.value]);
      var status: bv16 := if SelfPowered(info.configs[config.value]) then 1 else 0;
      StoreLittle(info.little, status);
      assert Little16(status) == [if SelfPowered(info.configs[config.value]) then 1 else 0, 0];
      hide Store16, LFH16, Little16;
    }
    hide GetSetup, SelfPowered;
  }

  /** Byte 5 of a configuration descriptor is its value. */
  ghost predicate HasConfig(info: Info, value: Byte) {
    exists i :: 0 <= i < |info.configs| && info.configs[i][5] == value
  }

  lemma SizeZero(x: bv32)
    ensures SizeOf32(x) == 0 <==> x == 0
  {
    var m := Big32(x);
    BytesZero(x);
    ZeroByte(m[0]);
    ZeroByte(m[1]);
    ZeroByte(m[2]);
    ZeroByte(m[3]);
    hide Value, Big32;
  }

  lemma BytesZero(x: bv32)
    ensures x == 0 <==> Big32(x) == [0, 0, 0, 0]
  {
    BigEndianBytes(x);
  }

  lemma ZeroByte(b: Byte)
    ensures Value(b) == 0 <==> b == 0
  {
  }

  lemma ConfigurationFound(info: Info, value: Byte)
    ensures FindConfig(info.configs, value, 0).Some? <==> HasConfig(info, value)
  {
    hide ConfigValue, FindConfig;
  }

  /**
   SetConfiguration (9) is accepted, in either direction, if and only if some configuration has the value
   in byte 2 of the setup data, and an OUT request carries no data; it selects the first such configuration.
   */
  lemma ConfigurationSelected(info: Info, config: Option<nat>, c: Cmd)
    requires Asks(c, 9) && c.base.direction in {0, 1}
    requires config.Some? ==> config.value < |info.configs|
    ensures var s, v := HandleStandard(info, config, c), c.setup[2];
            && (s.Accepted? <==> HasConfig(info, v) && (c.base.direction == 0 ==> c.length == 0))
            && (s.Accepted? ==>
                  && s.data == None && s.config.Some?
                  && info.configs[s.config.value][5] == v
                  && forall j :: 0 <= j < s.config.value ==> info.configs[j][5] != v)
  {
    RequestFields(info.little, c.setup);
    SizeZero(c.length);
    ConfigurationFound(info, c.setup[2]);
    hide GetSetup, SizeOf32, Signed32, LowValue, ConfigValue, FindConfig, HasConfig;
  }

  /** Nothing to serve: the index is out of range, or for a device descriptor too much is to be read. */
  ghost predicate NoDescriptor(info: Info, s: Setup) {
    var kind, idx, w := s[3], Int(s[2]), Number(s[6], s[7]);
    || (kind in {1, 2} && idx >= |info.configs|)
    || (kind == 1 && var total := Number(info.configs[idx][2], info.configs[idx][3]);
                     total > |info.device| && w > |info.device|)
    || (kind == 3 && info.strings.Some? && idx >= |info.strings.value|)
  }

  lemma DeviceKindRejected(info: Info, r: SetupRequest, config: Option<nat>)
    requires Kind(r) == 1
    ensures var idx := Value(LowValue(r));
            GetDescriptor(info, r, config).Rejected? <==>
            idx >= |info.configs|
            || (TotalLen(info.little, info.configs[idx]) > |info.device| && Unsigned16(r.length) > |info.device|)
  {
    hide Kind, LowValue, Unsigned16, TotalLen, Value;
  }

  lemma DeviceDescriptorRejected(info: Info, s: Setup, config: Option<nat>)
    requires s[3] == 1
    ensures GetDescriptor(info, GetSetup(info.little, s), config).Rejected? <==> NoDescriptor(info, s)
  {
    RequestFields(info.little, s);
    ValueOf(s[2]);
    var idx := Int(s[2]);
    if idx < |info.configs| {
      DescriptorFields(info.little, info.configs[idx]);
    }
    hide GetDescriptor, GetSetup, Kind, LowValue, Unsigned16, TotalLen, Value, Int, Number;
    DeviceKindRejected(info, GetSetup(info.little, s), config);
  }

  lemma DescriptorRejected(info: Info, s: Setup, config: Option<nat>)
    requires ValidInfo(info)
    ensures GetDescriptor(info, GetSetup(info.little, s), config).Rejected? <==> NoDescriptor(info, s)
  {
    if s[3] == 1 {
      DeviceDescriptorRejected(info, s, config);
    } else {
      DescriptorServed(info, s, config);
    }
    hide GetDescriptor, GetSetup, Int, Number, Capped, ValidInfo;
  }

  /**
   When a standard request is rejected: another recipient, a direction that is neither IN nor OUT, another
   request than GetStatus, GetDescriptor and SetConfiguration for IN or than SetConfiguration for OUT, data
   with an OUT request, no active configuration to tell the status of, an unknown configuration, or no
   descriptor to serve; and only then.
   */
  lemma RejectedIff(info: Info, config: Option<nat>, c: Cmd)
    requires StandardRequest(c) && ValidInfo(info)
    requires config.Some? ==> config.value < |info.configs|
    ensures HandleStandard(info, config, c).Rejected? <==>
            || c.setup[0] & 0x1F != 0
            || c.base.direction !in {0, 1}
            || (c.base.direction == 1 && c.setup[1] !in {0, 6, 9})
            || (c.base.direction == 0 && (c.setup[1] != 9 || c.length != 0))
            || (c.setup[1] == 0 && config.None?)
            || (c.setup[1] == 6 && NoDescriptor(info, c.setup))
            || (c.setup[1] == 9 && !HasConfig(info, c.setup[2]))
  {
    RequestFields(info.little, c.setup);
    SizeZero(c.length);
    ConfigurationFound(info, c.setup[2]);
    DescriptorRejected(info, c.setup, config);
    hide GetSetup, SizeOf32, Signed32, LowValue, FindConfig, HasConfig, NoDescriptor, GetDescriptor, SelfPowered,
      Store16, LFH16;
  }

  /** The one reply to an accepted standard request; a rejected one gets none and fails the device. */
  lemma StandardReply(info: Info, s: Engine)
    requires Ready(info, s) && !s.failed && s.cmds != [] && StandardRequest(s.cmds[0])
    ensures var c, t, a := s.cmds[0], Process(info, s).state, HandleStandard(info, s.config, s.cmds[0]);
            && t.pipes == s.pipes && t.cmds == s.cmds[1..] && Process(info, s).xfer == None
            && if a.Rejected? then t.failed && t.config == s.config && t.hist.log == s.hist.log
               else
                 var payload := if a.data.Some? then a.data.value else [];
                 && !t.failed && t.config == a.config
                 && t.hist.log == s.hist.log + [Entry(c, RetSubmit(c.base, Word32(|payload|), payload))]
  {
    StandardIs(info, s.cmds[0]);
    hide HandleStandard, IsStandard, Word32, StandardRequest;
  }

  lemma DescriptorAsked(info: Info, config: Option<nat>, c: Cmd)
    requires Asks(c, 6) && c.base.direction == 1
    requires config.Some? ==> config.value < |info.configs|
    ensures HandleStandard(info, config, c) == GetDescriptor(info, GetSetup(info.little, c.setup), config)
  {
    RequestFields(info.little, c.setup);
    hide GetSetup, GetDescriptor, SelfPowered, Store16, LFH16, FindConfig;
  }

  /**
   The host that asks (6) for a configuration (2), string (3) or qualifier (6) descriptor that the device
   has gets its first bytes, up to the length in bytes 6 and 7 of the setup data, and their number. The
   length of a configuration is in its bytes 2 and 3, that of the others in byte 0.
   */
  lemma DescriptorReply(info: Info, s: Engine, d: seq<Byte>, len: nat)
    requires Ready(info, s) && ValidInfo(info) && !s.failed && s.cmds != []
    requires Asks(s.cmds[0], 6) && s.cmds[0].base.direction == 1
    requires var setup := s.cmds[0].setup;
             var kind, idx := setup[3], Int(setup[2]);
             || (kind == 2 && idx < |info.configs| && d == info.configs[idx] && len == Number(d[2], d[3]))
             || (kind == 3 && info.strings.Some? && idx < |info.strings.value|
                 && d == info.strings.value[idx] && len == Int(d[0]))
             || (kind == 6 && info.qualifier.Some? && d == info.qualifier.value && len == Int(d[0]))
    ensures len <= |d|
    ensures var c, t := s.cmds[0], Process(info, s).state;
            var payload := Capped(d, len, Number(c.setup[6], c.setup[7]));
            && !t.failed
            && t.hist.log == s.hist.log + [Entry(c, RetSubmit(c.base, Word32(|payload|), payload))]
  {
    var c := s.cmds[0];
    DescriptorAsked(info, s.config, c);
    DescriptorServed(info, c.setup, s.config);
    StandardReply(info, s);
    hide HandleStandard, GetSetup, Word32, Process, GetDescriptor, Int, Number;
  }

  // ----- the active configuration -----

  predicate SetsConfig(c: Cmd) { StandardRequest(c) && c.setup[1] == 9 }

  /** The configuration that the last of the handled SetConfiguration requests asked for. */
  function LastSelected(info: Info, cs: seq<Cmd>): Option<nat> {
    if cs == [] then None
    else
      var c := cs[|cs| - 1];
      if SetsConfig(c) then FindConfig(info.configs, c.setup[2], 0) else LastSelected(info, cs[..|cs| - 1])
  }

  /** Only an accepted SetConfiguration changes the active configuration. */
  lemma StandardConfig(info: Info, config: Option<nat>, c: Cmd)
    requires c.Submit? && (config.Some? ==> config.value < |info.configs|)
    requires HandleStandard(info, config, c).Accepted?
    ensures HandleStandard(info, config, c).config ==
            if c.setup[1] == 9 then FindConfig(info.configs, c.setup[2], 0) else config
  {
    RequestFields(info.little, c.setup);
    hide GetSetup, SizeOf32, LowValue, FindConfig, Kind, Value, PickDescriptor, SelfPowered, Store16, LFH16;
  }

  lemma HandleConfig(info: Info, s: Engine, c: Cmd)
    requires Ready(info, s)
    ensures var t := Handle(info, s, c).state;
            || (t.config == s.config && t.hist.handled == s.hist.handled)
            || (t.hist.handled == s.hist.handled + [c]
                && t.config == if SetsConfig(c) then FindConfig(info.configs, c.setup[2], 0) else s.config)
  {
    StandardIs(info, c);
    hide HandleStandard, IsStandard, StandardRequest, EpIndex, MakeReply, XferOf, Drain, FirstPipeWith, FirstWith,
      FindConfig;
    if StandardRequest(c) {
      SubmitOnly(c);
      if HandleStandard(info, s.config, c).Accepted? {
        StandardConfig(info, s.config, c);
      }
    }
  }

  lemma SubmitOnly(c: Cmd)
    requires StandardRequest(c)
    ensures c.Submit?
  {
  }

  lemma StepConfig(info: Info, s: Engine, e: Event)
    requires Ready(info, s) && s.config == LastSelected(info, s.hist.handled)
    ensures Step(info, s, e).config == LastSelected(info, Step(info, s, e).hist.handled)
  {
    hide Handle, Drain, WriteIndex, StandardRequest, FindConfig;
    if e.Processing? && !s.failed && s.cmds != [] {
      var c := s.cmds[0];
      HandleConfig(info, s.(cmds := s.cmds[1..]), c);
      assert (s.hist.handled + [c])[..|s.hist.handled|] == s.hist.handled;
    }
  }

  /** In every reachable state the active configuration is the one last selected. */
  lemma {:induction false} ActiveConfiguration(info: Info, es: seq<Event>)
    ensures Run(info, es).config == LastSelected(info, Run(info, es).hist.handled)
  {
    hide Step, LastSelected;
    if es == [] {
      assert LastSelected(info, []) == None by { NothingSelected(info); }
    } else {
      var before := es[..|es| - 1];
      ActiveConfiguration(info, before);
      StepConfig(info, Run(info, before), es[|es| - 1]);
    }
  }

  lemma NothingSelected(info: Info)
    ensures LastSelected(info, []) == None
  {
  }
}
