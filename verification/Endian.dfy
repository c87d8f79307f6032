/**
 Byte order, as in LIB/Toastbox/Endian.h.

 The host's byte order is the parameter `little`, so that everything proved here holds for both
 kinds of host. `Swap*`, `BFH*`, `HFB*`, `LFH*` and `HFL*` are the header's bit expressions; signed
 integers are represented by their two's complement bit patterns, on which the signed overloads of
 the header compute the same result. `Store*`/`Load*` say how the host lays an integer out in memory,
 and `Big32`/`Little16` are the layouts that the protocols ask for.
 */
module Endian {
  type Byte = bv8

  function Swap16(x: bv16): bv16 {
    ((x & 0xFF00) >> 8) | ((x & 0x00FF) << 8)
  }

  function Swap32(x: bv32): bv32 {
    ((x & 0xFF000000) >> 24) |
    ((x & 0x00FF0000) >> 8) |
    ((x & 0x0000FF00) << 8) |
    ((x & 0x000000FF) << 24)
  }

  function LFH16(little: bool, x: bv16): bv16 { if little then x else Swap16(x) }

  function HFL16(little: bool, x: bv16): bv16 { if little then x else Swap16(x) }

  function BFH32(little: bool, x: bv32): bv32 { if !little then x else Swap32(x) }

  function HFB32(little: bool, x: bv32): bv32 { if !little then x else Swap32(x) }

  // ----- memory -----

  function Big32(x: bv32): (m: seq<Byte>)
    ensures |m| == 4
  {
    [((x >> 24) & 0xFF) as Byte, ((x >> 16) & 0xFF) as Byte, ((x >> 8) & 0xFF) as Byte, (x & 0xFF) as Byte]
  }

  function Little16(x: bv16): (m: seq<Byte>)
    ensures |m| == 2
  {
    [(x & 0xFF) as Byte, ((x >> 8) & 0xFF) as Byte]
  }

  /** The bytes of `x` in the memory of a host. */
  function Store32(little: bool, x: bv32): (m: seq<Byte>)
    ensures |m| == 4
  {
    var b := Big32(x);
    if little then [b[3], b[2], b[1], b[0]] else b
  }

  function Store16(little: bool, x: bv16): (m: seq<Byte>)
    ensures |m| == 2
  {
    var l := Little16(x);
    if little then l else [l[1], l[0]]
  }

  /** The integer a host reads from four bytes of its memory. */
  function Load32(little: bool, m: seq<Byte>): bv32
    requires |m| == 4
  {
    if little
    then (m[3] as bv32 << 24) | (m[2] as bv32 << 16) | (m[1] as bv32 << 8) | (m[0] as bv32)
    else (m[0] as bv32 << 24) | (m[1] as bv32 << 16) | (m[2] as bv32 << 8) | (m[3] as bv32)
  }

  function Load16(little: bool, m: seq<Byte>): bv16
    requires |m| == 2
  {
    if little
    then (m[1] as bv16 << 8) | (m[0] as bv16)
    else (m[0] as bv16 << 8) | (m[1] as bv16)
  }

  /** Storing a value converted by BFH gives the big-endian layout, whatever the host. */
  lemma StoreBig(little: bool, x: bv32)
    ensures Store32(little, BFH32(little, x)) == Big32(x)
  {
    assert Big32(Swap32(x)) == [Big32(x)[3], Big32(x)[2], Big32(x)[1], Big32(x)[0]] by {
      SwapReversesBytes(x);
    }
  }

  lemma SwapReversesBytes(x: bv32)
    ensures (Swap32(x) >> 24) & 0xFF == x & 0xFF
    ensures (Swap32(x) >> 16) & 0xFF == (x >> 8) & 0xFF
    ensures (Swap32(x) >> 8) & 0xFF == (x >> 16) & 0xFF
    ensures Swap32(x) & 0xFF == (x >> 24) & 0xFF
  {
  }

  /** The value whose big-endian layout is the four bytes given. */
  function Pack32(a: Byte, b: Byte, c: Byte, d: Byte): bv32 {
    (a as bv32 << 24) | (b as bv32 << 16) | (c as bv32 << 8) | (d as bv32)
  }

  lemma PackBytes(a: Byte, b: Byte, c: Byte, d: Byte)
    ensures ((Pack32(a, b, c, d) >> 24) & 0xFF) as Byte == a
    ensures ((Pack32(a, b, c, d) >> 16) & 0xFF) as Byte == b
    ensures ((Pack32(a, b, c, d) >> 8) & 0xFF) as Byte == c
    ensures (Pack32(a, b, c, d) & 0xFF) as Byte == d
  {
  }

  lemma PackOfBytes(x: bv32)
    ensures Pack32(((x >> 24) & 0xFF) as Byte, ((x >> 16) & 0xFF) as Byte,
                   ((x >> 8) & 0xFF) as Byte, (x & 0xFF) as Byte) == x
  {
  }

  lemma SwapPack(a: Byte, b: Byte, c: Byte, d: Byte)
    ensures Swap32(Pack32(a, b, c, d)) == Pack32(d, c, b, a)
  {
  }

  /** HFB of a loaded big-endian field is the field's value, and loses none of its bytes. */
  lemma LoadBig(little: bool, x: bv32, m: seq<Byte>)
    requires |m| == 4
    ensures HFB32(little, Load32(little, Big32(x))) == x
    ensures Big32(HFB32(little, Load32(little, m))) == m
  {
    hide HFB32, Load32;
    LoadIsPack(little, Big32(x));
    PackOfBytes(x);
    LoadIsPack(little, m);
    PackBytes(m[0], m[1], m[2], m[3]);
  }

  lemma LoadIsPack(little: bool, m: seq<Byte>)
    requires |m| == 4
    ensures HFB32(little, Load32(little, m)) == Pack32(m[0], m[1], m[2], m[3])
  {
    var a, b, c, d := m[0], m[1], m[2], m[3];
    if little {
      assert Load32(little, m) == Pack32(d, c, b, a);
      SwapPack(d, c, b, a);
    } else {
      assert Load32(little, m) == Pack32(a, b, c, d);
    }
  }

  lemma SwapBytes16(x: bv16)
    ensures ((Swap16(x) >> 8) & 0xFF) as Byte == (x & 0xFF) as Byte
    ensures (Swap16(x) & 0xFF) as Byte == ((x >> 8) & 0xFF) as Byte
  {
  }

  lemma StoreLittle(little: bool, x: bv16)
    ensures Store16(little, LFH16(little, x)) == Little16(x)
  {
    SwapBytes16(x);
  }

  function Pack16(hi: Byte, lo: Byte): bv16 { (hi as bv16 << 8) | (lo as bv16) }

  lemma Pack16Bytes(hi: Byte, lo: Byte, x: bv16)
    ensures (Pack16(hi, lo) & 0xFF) as Byte == lo
    ensures ((Pack16(hi, lo) >> 8) & 0xFF) as Byte == hi
    ensures Swap16(Pack16(hi, lo)) == Pack16(lo, hi)
    ensures Pack16(((x >> 8) & 0xFF) as Byte, (x & 0xFF) as Byte) == x
  {
  }

  lemma LoadIsPack16(little: bool, m: seq<Byte>)
    requires |m| == 2
    ensures HFL16(little, Load16(little, m)) == Pack16(m[1], m[0])
  {
    var lo, hi := m[0], m[1];
    if little {
      assert Load16(little, m) == Pack16(hi, lo);
    } else {
      assert Load16(little, m) == Pack16(lo, hi);
      Pack16Bytes(lo, hi, 0);
    }
  }

  /** HFL of a loaded little-endian field is the field's value, and loses none of its bytes. */
  lemma LoadLittle(little: bool, x: bv16, m: seq<Byte>)
    requires |m| == 2
    ensures HFL16(little, Load16(little, Little16(x))) == x
    ensures Little16(HFL16(little, Load16(little, m))) == m
  {
    hide HFL16, Load16, Swap16;
    LoadIsPack16(little, Little16(x));
    Pack16Bytes(0, 0, x);
    LoadIsPack16(little, m);
    Pack16Bytes(m[1], m[0], 0);
  }

  /** The first byte of a word in big-endian order is its most significant one. */
  lemma BigEndianBytes(x: bv32)
    ensures var m := Big32(x);
            x == (m[0] as bv32 << 24) | (m[1] as bv32 << 16) | (m[2] as bv32 << 8) | (m[3] as bv32)
  {
    PackOfBytes(x);
  }

  /** The value of a 16-bit unit loaded from two bytes in little-endian order. */
  lemma LittleEndianUnit(little: bool, lo: Byte, hi: Byte)
    ensures HFL16(little, Load16(little, [lo, hi])) == (hi as bv16 << 8) | (lo as bv16)
  {
    hide HFL16, Load16;
    LoadIsPack16(little, [lo, hi]);
  }

  // ----- integers -----

  const TWO31 := 0x8000_0000
  const TWO64 := 0x1_0000_0000_0000_0000

  /** The value of a byte, bit by bit. */
  function Value(b: Byte): (n: nat)
    ensures n < 0x100
  {
    (if b & 0x80 != 0 then 128 else 0) + (if b & 0x40 != 0 then 64 else 0) +
    (if b & 0x20 != 0 then 32 else 0) + (if b & 0x10 != 0 then 16 else 0) +
    (if b & 0x08 != 0 then 8 else 0) + (if b & 0x04 != 0 then 4 else 0) +
    (if b & 0x02 != 0 then 2 else 0) + (if b & 0x01 != 0 then 1 else 0)
  }

  /** Converted to an integer, a byte has the same value. */
  function Int(b: Byte): (n: nat)
    ensures n < 0x100
  {
    b as int
  }

  lemma ValueOf(b: Byte)
    ensures Value(b) == Int(b)
  {
  }

  function BitsToByte(b7: bool, b6: bool, b5: bool, b4: bool, b3: bool, b2: bool, b1: bool, b0: bool): Byte {
    (if b7 then 0x80 else 0) | (if b6 then 0x40 else 0) | (if b5 then 0x20 else 0) | (if b4 then 0x10 else 0) |
    (if b3 then 0x08 else 0) | (if b2 then 0x04 else 0) | (if b1 then 0x02 else 0) | (if b0 then 0x01 else 0)
  }

  function Bit(n: int, weight: int): (b: int)
    requires weight > 0
    ensures b == 0 || b == 1
  {
    n / weight % 2
  }

  /** The low eight bits of an integer. */
  function Digit(n: int): Byte {
    BitsToByte(Bit(n, 128) == 1, Bit(n, 64) == 1, Bit(n, 32) == 1, Bit(n, 16) == 1,
               Bit(n, 8) == 1, Bit(n, 4) == 1, Bit(n, 2) == 1, Bit(n, 1) == 1)
  }

  /** The 32-bit pattern of an integer: what a conversion to `int32_t` or `uint32_t` keeps of it. */
  function Word32(n: int): bv32 {
    Pack32(Digit(n / 0x100_0000), Digit(n / 0x1_0000), Digit(n / 0x100), Digit(n))
  }

  /** The value of a bit pattern read as `uint32_t`. */
  function Unsigned32(x: bv32): (n: int)
    ensures 0 <= n < 0x1_0000_0000
  {
    BigValue(Big32(x))
  }

  function BigValue(b: seq<Byte>): (n: int)
    requires |b| == 4
    ensures 0 <= n < 0x1_0000_0000
  {
    Value(b[0]) * 0x100_0000 + Value(b[1]) * 0x1_0000 + Value(b[2]) * 0x100 + Value(b[3])
  }

  /** The value of a bit pattern read as `int32_t`. */
  function Signed32(x: bv32): (n: int)
    ensures -0x8000_0000 <= n < 0x8000_0000
  {
    var n := Unsigned32(x);
    if n < 0x8000_0000 then n else n - 0x1_0000_0000
  }

  /** An `int32_t` converted to a 64-bit `size_t`: negative values become huge. */
  function SizeOf32(x: bv32): (n: nat)
    ensures n < TWO64
    ensures Signed32(x) >= 0 ==> n == Signed32(x) < TWO31
    ensures Signed32(x) < 0 ==> n >= TWO64 - TWO31
  {
    var n := Signed32(x);
    if n >= 0 then n else 0x1_0000_0000_0000_0000 + n
  }

  function Unsigned16(x: bv16): (n: int)
    ensures 0 <= n < 0x1_0000
  {
    var b := Little16(x);
    Value(b[1]) * 0x100 + Value(b[0])
  }

  lemma UnsignedUnit(lo: Byte, hi: Byte)
    ensures Unsigned16((hi as bv16 << 8) | (lo as bv16)) == Int(lo) + 256 * Int(hi)
  {
    Pack16Bytes(hi, lo, 0);
    ValueOf(lo);
    ValueOf(hi);
    hide Value, Int;
  }

  lemma BitsValue(b7: bool, b6: bool, b5: bool, b4: bool, b3: bool, b2: bool, b1: bool, b0: bool)
    ensures Value(BitsToByte(b7, b6, b5, b4, b3, b2, b1, b0))
            == (if b7 then 128 else 0) + (if b6 then 64 else 0) + (if b5 then 32 else 0) + (if b4 then 16 else 0)
               + (if b3 then 8 else 0) + (if b2 then 4 else 0) + (if b1 then 2 else 0) + (if b0 then 1 else 0)
  {
    var b := BitsToByte(b7, b6, b5, b4, b3, b2, b1, b0);
    assert (b & 0x80 != 0 <==> b7) && (b & 0x40 != 0 <==> b6) && (b & 0x20 != 0 <==> b5) && (b & 0x10 != 0 <==> b4);
    assert (b & 0x08 != 0 <==> b3) && (b & 0x04 != 0 <==> b2) && (b & 0x02 != 0 <==> b1) && (b & 0x01 != 0 <==> b0);
  }

  lemma BitSum(n: nat)
    ensures n % 0x100 == Bit(n, 128) * 128 + Bit(n, 64) * 64 + Bit(n, 32) * 32 + Bit(n, 16) * 16
                         + Bit(n, 8) * 8 + Bit(n, 4) * 4 + Bit(n, 2) * 2 + Bit(n, 1)
  {
    var h1, h2, h3, h4 := n / 2, n / 4, n / 8, n / 16;
    var h5, h6, h7 := n / 32, n / 64, n / 128;
    assert h1 / 2 == h2 && h2 / 2 == h3 && h3 / 2 == h4 && h4 / 2 == h5 && h5 / 2 == h6 && h6 / 2 == h7;
    assert n / 256 == h7 / 2;
  }

  lemma DigitValue(n: nat)
    ensures Value(Digit(n)) == n % 0x100
  {
    hide Value, BitsToByte, Bit;
    BitsValue(Bit(n, 128) == 1, Bit(n, 64) == 1, Bit(n, 32) == 1, Bit(n, 16) == 1,
              Bit(n, 8) == 1, Bit(n, 4) == 1, Bit(n, 2) == 1, Bit(n, 1) == 1);
    BitSum(n);
  }

  lemma UnsignedWord(n: nat)
    ensures Unsigned32(Word32(n)) == n % 0x1_0000_0000
  {
    hide Digit, Pack32, Value, Unsigned32;
    UnsignedPack(Digit(n / 0x100_0000), Digit(n / 0x1_0000), Digit(n / 0x100), Digit(n));
    DigitValue(n / 0x100_0000);
    DigitValue(n / 0x1_0000);
    DigitValue(n / 0x100);
    DigitValue(n);
    DigitsOf(n);
  }

  /** A size survives the conversion to `int32_t` exactly when it is below 2^31. */
  lemma SignedWord(n: nat)
    ensures Signed32(Word32(n)) == n <==> n < 0x8000_0000
  {
    hide Unsigned32, Word32;
    UnsignedWord(n);
  }

  lemma UnsignedPack(a: Byte, b: Byte, c: Byte, d: Byte)
    ensures Unsigned32(Pack32(a, b, c, d))
            == Value(a) * 0x100_0000 + Value(b) * 0x1_0000 + Value(c) * 0x100 + Value(d)
  {
    PackBytes(a, b, c, d);
  }

  lemma DigitsOf(n: nat)
    ensures (n / 0x100_0000) % 0x100 * 0x100_0000 + (n / 0x1_0000) % 0x100 * 0x1_0000
            + (n / 0x100) % 0x100 * 0x100 + n % 0x100 == n % 0x1_0000_0000
  {
    var b, c, d, e := n / 0x100, n / 0x1_0000, n / 0x100_0000, n / 0x1_0000_0000;
    assert n == 0x100 * b + n % 0x100;
    assert b == 0x100 * c + b % 0x100 by { assert b / 0x100 == c; }
    assert c == 0x100 * d + c % 0x100 by { assert c / 0x100 == d; }
    assert d == 0x100 * e + d % 0x100 by { assert d / 0x100 == e; }
  }
}
