/**
 The SuperBinary as the controller holds it: its headers, its regions and the
 TLVs of its metadata. Offsets are 32-bit and wrap around.
 */
module UarpImage {
  import opened Bytes

  const SB_FORMAT_VERSION: nat := 2
  const SB_HEADER_LEN: nat := 44
  const PAYLOAD_HEADER_LEN: nat := 40
  const TLV_HEADER_LEN: nat := 8

  const TLV_TYPE_SHA2: nat := 0xF4CE36FE
  const TLV_TYPE_APPLY_FLAGS: nat := 0xF4CE36FC
  const HASH_LEN: nat := 32

  /** The hash before any metadata is read: all zeros. */
  function NoHash(): seq<byte> {
    seq(HASH_LEN, _ => 0)
  }

  /** 32-bit addition. */
  function Sum32(a: u32, b: u32): u32 {
    if a + b < TWO_32 then a + b else a + b - TWO_32
  }

  /** 32-bit subtraction. */
  function Diff32(a: u32, b: u32): u32 {
    if a >= b then a - b else a - b + TWO_32
  }

  function Be32(s: seq<byte>): u32
    requires |s| == 4
  {
    var b0: int, b1: int, b2: int, b3: int := s[0], s[1], s[2], s[3];
    ((b0 * 256 + b1) * 256 + b2) * 256 + b3
  }

  datatype SbHeader = SbHeader(
    formatVersion: u32, headerLength: u32, length: u32, version: seq<byte>,
    metadataOffset: u32, metadataLength: u32, payloadHeadersOffset: u32, payloadHeadersLength: u32)

  function ParseSbHeader(s: seq<byte>): SbHeader
    requires |s| == SB_HEADER_LEN
  {
    SbHeader(Be32(s[0..4]), Be32(s[4..8]), Be32(s[8..12]), s[12..28],
             Be32(s[28..32]), Be32(s[32..36]), Be32(s[36..40]), Be32(s[40..44]))
  }

  datatype PayloadHeader = PayloadHeader(
    headerLength: u32, tag: seq<byte>, version: seq<byte>,
    metadataOffset: u32, metadataLength: u32, offset: u32, length: u32)

  function ParsePayloadHeader(s: seq<byte>): PayloadHeader
    requires |s| == PAYLOAD_HEADER_LEN
  {
    PayloadHeader(Be32(s[0..4]), s[4..8], s[8..24],
                  Be32(s[24..28]), Be32(s[28..32]), Be32(s[32..36]), Be32(s[36..40]))
  }

  // ----- Parts of the image ----------------------------------------------------

  /** The byte at offset `x` modulo 2^32; 0 outside of the image. */
  function ByteAt(image: seq<byte>, x: nat): byte {
    if x < |image| then image[x]
    else if 0 <= x - TWO_32 < |image| then image[x - TWO_32]
    else 0
  }

  /** `n` bytes from offset `start` on. */
  function Slice(image: seq<byte>, start: nat, n: nat): (s: seq<byte>)
    ensures |s| == n
    ensures forall i :: 0 <= i < n ==> s[i] == ByteAt(image, start + i)
  {
    seq<byte>(n, i requires 0 <= i < n => ByteAt(image, start + i))
  }

  lemma SliceInside(image: seq<byte>, start: nat, n: nat)
    requires start + n <= |image|
    ensures Slice(image, start, n) == image[start..start + n]
  {
  }

  lemma SliceAppend(image: seq<byte>, start: nat, n: nat, next: nat, m: nat)
    requires next == start + n
    ensures Slice(image, start, n) + Slice(image, next, m) == Slice(image, start, n + m)
  {
    hide ByteAt;
    var s := Slice(image, start, n) + Slice(image, next, m);
    forall i | 0 <= i < n + m ensures s[i] == Slice(image, start, n + m)[i] {
    }
  }

  /** Image bytes at a wrapped offset are the bytes at the unwrapped one. */
  lemma SliceWrapped(image: seq<byte>, offset: u32, start: u32, at: u32, n: nat)
    requires offset == Sum32(start, at) && offset + n <= |image| < TWO_32
    ensures image[offset..offset + n] == Slice(image, start + at, n)
  {
  }

  function SbHeaderOf(image: seq<byte>): SbHeader {
    ParseSbHeader(Slice(image, 0, SB_HEADER_LEN))
  }

  function PayloadHeaderOf(image: seq<byte>, index: nat): PayloadHeader {
    ParsePayloadHeader(Slice(image, SbHeaderOf(image).payloadHeadersOffset + index * PAYLOAD_HEADER_LEN,
                             PAYLOAD_HEADER_LEN))
  }

  /** The bytes of payload `index`. */
  function PayloadOf(image: seq<byte>, index: nat): seq<byte> {
    Slice(image, PayloadHeaderOf(image, index).offset, PayloadHeaderOf(image, index).length)
  }

  function MetadataOf(image: seq<byte>, index: nat): seq<byte> {
    Slice(image, PayloadHeaderOf(image, index).metadataOffset, PayloadHeaderOf(image, index).metadataLength)
  }

  /** The hash that the metadata of payload `index` names; without metadata, zeros. */
  function HashOf(image: seq<byte>, index: nat): seq<byte> {
    HashFrom(ParseTlvs(MetadataOf(image, index)).tlvs, NoHash())
  }

  // ----- Metadata --------------------------------------------------------------

  datatype Tlv = Tlv(kind: u32, value: seq<byte>)

  datatype Metadata = Metadata(tlvs: seq<Tlv>, corrupt: bool)

  /** The TLVs of the metadata, up to one that is longer than what is left. */
  function ParseTlvs(m: seq<byte>): Metadata
    decreases |m|
  {
    if |m| < TLV_HEADER_LEN then Metadata([], false)
    else
      var n := Be32(m[4..8]);
      if |m| - TLV_HEADER_LEN < n then Metadata([], true)
      else
        var rest := ParseTlvs(m[TLV_HEADER_LEN + n..]);
        Metadata([Tlv(Be32(m[0..4]), m[TLV_HEADER_LEN..TLV_HEADER_LEN + n])] + rest.tlvs, rest.corrupt)
  }

  /** The effect of one TLV on the expected hash. */
  function HashTlv(t: Tlv, hash: seq<byte>): seq<byte> {
    if t.kind == TLV_TYPE_SHA2 && |t.value| == HASH_LEN then t.value else hash
  }

  function HashFrom(tlvs: seq<Tlv>, hash: seq<byte>): seq<byte> {
    if tlvs == [] then hash else HashFrom(tlvs[1..], HashTlv(tlvs[0], hash))
  }

  /** The effect of one TLV on the apply flags. */
  function FlagsTlv(t: Tlv, flags: nat): nat {
    if t.kind == TLV_TYPE_APPLY_FLAGS && |t.value| == 1 then t.value[0] else flags
  }

  function FlagsFrom(tlvs: seq<Tlv>, flags: nat): nat {
    if tlvs == [] then flags else FlagsFrom(tlvs[1..], FlagsTlv(tlvs[0], flags))
  }

  /** A hash or apply flags of the wrong length. */
  predicate IsBad(t: Tlv) {
    || (t.kind == TLV_TYPE_SHA2 && |t.value| != HASH_LEN)
    || (t.kind == TLV_TYPE_APPLY_FLAGS && |t.value| != 1)
  }

  predicate AnyBad(tlvs: seq<Tlv>) {
    exists i :: 0 <= i < |tlvs| && IsBad(tlvs[i])
  }
}
