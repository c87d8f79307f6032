/**
 What kind a command is and where it belongs, told from its fields and bytes with every constant written
 out. The theorems speak of commands in these terms; the lemmas here tie them to the code's own tests.
 */
module CommandKinds {
  import opened Endian
  import opened UsbIp
  import opened Usb
  import opened Engine

  /** A standard request to the default endpoint: bits 5 and 6 of the request type are zero. */
  predicate StandardRequest(c: Cmd) { c.Submit? && c.base.ep == 0 && c.setup[0] & 0x60 == 0 }

  /** Carries data for the device's user. */
  predicate OutData(c: Cmd) { c.Submit? && c.base.direction == 0 && !StandardRequest(c) }

  /** Asks for data from the device's user. */
  predicate InRequest(c: Cmd) { c.Submit? && c.base.direction == 1 && !StandardRequest(c) }

  /** The low byte of the endpoint number, which is all that the code looks at. */
  function Endpoint(c: Cmd): nat { Int((c.base.ep & 0xFF) as Byte) }

  /** The transfer handed out for an OUT submit. */
  ghost predicate Carries(x: Xfer, c: Cmd) {
    && c.Submit?
    && x.data == c.payload
    && x.ep == (c.base.ep & 0xFF) as Byte
    && x.setup == if c.base.ep == 0 then RequestOf(c.setup) else SetupRequest(0, 0, 0, 0, 0)
  }

  /** Section 9.3 of the USB 2.0 specification: two bytes, then three little-endian words. */
  function RequestOf(s: Setup): SetupRequest {
    SetupRequest(s[0], s[1], (s[3] as bv16 << 8) | (s[2] as bv16), (s[5] as bv16 << 8) | (s[4] as bv16),
                 (s[7] as bv16 << 8) | (s[6] as bv16))
  }

  lemma RequestIs(little: bool, s: Setup)
    ensures GetSetup(little, s) == RequestOf(s)
  {
    SetupFields(little, s);
  }

  lemma StandardIs(info: Info, c: Cmd)
    ensures IsStandard(info, c) <==> StandardRequest(c)
  {
    if c.Submit? {
      RequestIs(info.little, c.setup);
      hide GetSetup;
    }
  }

  lemma KindIs(info: Info, c: Cmd)
    ensures Parks(info, c) <==> InRequest(c)
    ensures Delivers(info, c) <==> OutData(c)
  {
    StandardIs(info, c);
    hide IsStandard;
  }

  lemma EndpointIs(c: Cmd)
    ensures EpIndex(c) == Endpoint(c)
  {
    ValueOf((c.base.ep & 0xFF) as Byte);
    hide Value, Int;
  }

  lemma EndpointOfNumber(c: Cmd, k: Byte)
    requires c.base.ep == k as bv32
    ensures Endpoint(c) == Int(k)
  {
    LowByteOf(k);
    hide Int;
  }

  lemma LowByteOf(k: Byte)
    ensures ((k as bv32) & 0xFF) as Byte == k
  {
  }

  /** The address of IN endpoint `k`. */
  function InAddress(k: Byte): Byte { 0x80 | k }

  lemma WriteIndexIs(ep: Byte)
    ensures WriteIndex(ep) == Int(ep & 0x0F) < 16
  {
    ValueOf(ep & 0x0F);
    LowNibble(ep);
    hide Value, Int;
  }

  lemma LowNibble(ep: Byte)
    ensures Int(ep & 0x0F) < 16
  {
  }

  lemma WriteIndexOfAddress(k: Byte)
    requires k < 16
    ensures InAddress(k) == 0x80 + k && WriteIndex(InAddress(k)) == Int(k) < 16
  {
    WriteIndexIs(InAddress(k));
    assert InAddress(k) & 0x0F == k;
    hide Int, WriteIndex;
  }

  lemma AddressIs(c: Cmd)
    requires c.base.direction == 0
    ensures Address(c) == (c.base.ep & 0xFF) as Byte
  {
  }

  lemma XferCarries(info: Info, c: Cmd)
    requires c.Submit? && c.base.direction == 0
    ensures Carries(XferOf(info, c), c)
  {
    RequestIs(info.little, c.setup);
    AddressIs(c);
    hide GetSetup, RequestOf, Address;
  }
}
