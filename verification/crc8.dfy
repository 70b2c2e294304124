/**
 The CRC8-CCITT of the allocation table entries: the nibble-table loop of the
 two settings back ends against the bit-by-bit division by x^8 + x^2 + x + 1.
 */
module Crc8 {
  import opened Bytes

  const CRC8_CCITT_TABLE: seq<bv8> := [
    0x00, 0x07, 0x0e, 0x09, 0x1c, 0x1b, 0x12, 0x15,
    0x38, 0x3f, 0x36, 0x31, 0x24, 0x23, 0x2a, 0x2d]

  /** One step of the polynomial division. */
  function BitStep(c: bv8): bv8 {
    if c & 0x80 != 0 then (c << 1) ^ 0x07 else c << 1
  }

  function FourBits(c: bv8): bv8 {
    BitStep(BitStep(BitStep(BitStep(c))))
  }

  function Absorb(crc: bv8, bits: bv8): bv8 {
    FourBits(FourBits(crc ^ bits))
  }

  function AbsorbByte(crc: bv8, b: byte): bv8 {
    Absorb(crc, b as bv8)
  }

  function ToByte(bits: bv8): byte {
    bits as int
  }

  function CrcFrom(crc: bv8, buf: seq<byte>): bv8
    decreases buf
  {
    if buf == [] then crc else CrcFrom(AbsorbByte(crc, buf[0]), buf[1..])
  }

  /** The reference definition: bit by bit, initial value 0xff. */
  function Crc8(buf: seq<byte>): byte {
    ToByte(CrcFrom(0xff, buf))
  }

  /** One table lookup does the work of four bit steps. */
  lemma NibbleIsFourBits(c: bv8)
    ensures 0 <= (c >> 4) as int < 16
    ensures (c << 4) ^ CRC8_CCITT_TABLE[(c >> 4) as int] == FourBits(c)
  {
    var n := c >> 4;
    if n == 0 || n == 1 || n == 2 || n == 3 {
      if n == 0 {} else if n == 1 {} else if n == 2 {} else {}
    } else if n == 4 || n == 5 || n == 6 || n == 7 {
      if n == 4 {} else if n == 5 {} else if n == 6 {} else {}
    } else if n == 8 || n == 9 || n == 10 || n == 11 {
      if n == 8 {} else if n == 9 {} else if n == 10 {} else {}
    } else {
      if n == 12 {} else if n == 13 {} else if n == 14 {} else if n == 15 {}
    }
  }

  /** The loop of the source computes the reference CRC for buffers of any length. */
  method Crc8CcittFromBytes(buf: seq<byte>) returns (result: byte)
    ensures result == Crc8(buf)
  {
    var crc: bv8 := 0xff;
    for i := 0 to |buf|
      invariant CrcFrom(crc, buf[i..]) == CrcFrom(0xff, buf)
    {
      assert buf[i..][0] == buf[i] && buf[i..][1..] == buf[i + 1..];
      crc := crc ^ (buf[i] as bv8);
      NibbleIsFourBits(crc);
      crc := (crc << 4) ^ CRC8_CCITT_TABLE[(crc >> 4) as int];
      NibbleIsFourBits(crc);
      crc := (crc << 4) ^ CRC8_CCITT_TABLE[(crc >> 4) as int];
    }
    result := ToByte(crc);
  }

  lemma BitStepInjective(a: bv8, b: bv8)
    requires a != b
    ensures BitStep(a) != BitStep(b)
  {
  }

  lemma FourBitsInjective(a: bv8, b: bv8)
    requires a != b
    ensures FourBits(a) != FourBits(b)
  {
    BitStepInjective(a, b);
    BitStepInjective(BitStep(a), BitStep(b));
    BitStepInjective(BitStep(BitStep(a)), BitStep(BitStep(b)));
    BitStepInjective(BitStep(BitStep(BitStep(a))), BitStep(BitStep(BitStep(b))));
  }

  lemma AbsorbInjective(c: bv8, d: bv8, x: bv8, y: bv8)
    requires (c != d && x == y) || (c == d && x != y)
    ensures Absorb(c, x) != Absorb(d, y)
  {
    assert c ^ x != d ^ y;
    FourBitsInjective(c ^ x, d ^ y);
    FourBitsInjective(FourBits(c ^ x), FourBits(d ^ y));
  }

  lemma ByteToBitsToByte(b: byte)
    ensures ToByte(b as bv8) == b
  {
  }

  lemma BitsToByteToBits(x: bv8)
    ensures ToByte(x) as bv8 == x
  {
  }

  lemma ByteBitsInjective(a: byte, b: byte)
    requires a != b
    ensures a as bv8 != b as bv8
  {
    ByteToBitsToByte(a);
    ByteToBitsToByte(b);
  }

  lemma AbsorbByteInjective(c: bv8, d: bv8, a: byte, b: byte)
    requires (c != d && a == b) || (c == d && a != b)
    ensures AbsorbByte(c, a) != AbsorbByte(d, b)
  {
    if a != b {
      ByteBitsInjective(a, b);
    }
    AbsorbInjective(c, d, a as bv8, b as bv8);
  }

  /** Different CRC states stay different however the buffers go on. */
  lemma {:induction false} CrcFromInjective(c: bv8, d: bv8, buf: seq<byte>)
    requires c != d
    ensures CrcFrom(c, buf) != CrcFrom(d, buf)
    decreases buf
  {
    if buf != [] {
      AbsorbByteInjective(c, d, buf[0], buf[0]);
      CrcFromInjective(AbsorbByte(c, buf[0]), AbsorbByte(d, buf[0]), buf[1..]);
    }
  }

  lemma {:induction false} CrcFromOneByte(crc: bv8, a: seq<byte>, b: seq<byte>, i: nat)
    requires |a| == |b| && i < |a|
    requires a[i] != b[i]
    requires forall j :: 0 <= j < |a| && j != i ==> a[j] == b[j]
    ensures CrcFrom(crc, a) != CrcFrom(crc, b)
    decreases a
  {
    if i == 0 {
      AbsorbByteInjective(crc, crc, a[0], b[0]);
      assert a[1..] == b[1..];
      CrcFromInjective(AbsorbByte(crc, a[0]), AbsorbByte(crc, b[0]), a[1..]);
    } else {
      CrcFromOneByte(AbsorbByte(crc, a[0]), a[1..], b[1..], i - 1);
    }
  }

  /** Equal-length buffers that differ in exactly one byte have different CRCs. */
  lemma SingleByteErrorDetected(a: seq<byte>, b: seq<byte>, i: nat)
    requires |a| == |b| && i < |a|
    requires a[i] != b[i]
    requires forall j :: 0 <= j < |a| && j != i ==> a[j] == b[j]
    ensures Crc8(a) != Crc8(b)
  {
    CrcFromOneByte(0xff, a, b, i);
    var c, d := CrcFrom(0xff, a), CrcFrom(0xff, b);
    BitsToByteToBits(c);
    BitsToByteToBits(d);
  }
}
