/** The layout of a SuperBinary's headers and metadata: what a packer writes, the accessory reads. */
module UarpFormat {
  import opened Bytes
  import opened UarpImage

  /** `n` in network byte order. */
  function Be32Bytes(n: u32): (s: seq<byte>)
    ensures |s| == 4
  {
    [n / 0x100_0000, n / 0x1_0000 % 256, n / 0x100 % 256, n % 256]
  }

  lemma Be32RoundTrip(n: u32)
    ensures Be32(Be32Bytes(n)) == n
  {
  }

  /** `struct UARPSuperBinaryHeader`. */
  function SbHeaderBytes(h: SbHeader): (s: seq<byte>)
    requires |h.version| == 16
    ensures |s| == SB_HEADER_LEN
  {
    Be32Bytes(h.formatVersion) + Be32Bytes(h.headerLength) + Be32Bytes(h.length) + h.version
    + Be32Bytes(h.metadataOffset) + Be32Bytes(h.metadataLength)
    + Be32Bytes(h.payloadHeadersOffset) + Be32Bytes(h.payloadHeadersLength)
  }

  lemma SbHeaderRoundTrip(h: SbHeader)
    requires |h.version| == 16
    ensures ParseSbHeader(SbHeaderBytes(h)) == h
  {
    var s := SbHeaderBytes(h);
    assert s[0..4] == Be32Bytes(h.formatVersion) && s[4..8] == Be32Bytes(h.headerLength);
    assert s[8..12] == Be32Bytes(h.length) && s[12..28] == h.version;
    assert s[28..32] == Be32Bytes(h.metadataOffset) && s[32..36] == Be32Bytes(h.metadataLength);
    assert s[36..40] == Be32Bytes(h.payloadHeadersOffset);
    assert s[40..] == Be32Bytes(h.payloadHeadersLength);
    assert s[40..44] == s[40..];
    hide Be32, Be32Bytes, SbHeaderBytes;
    Be32RoundTrip(h.formatVersion);
    Be32RoundTrip(h.headerLength);
    Be32RoundTrip(h.length);
    Be32RoundTrip(h.metadataOffset);
    Be32RoundTrip(h.metadataLength);
    Be32RoundTrip(h.payloadHeadersOffset);
    Be32RoundTrip(h.payloadHeadersLength);
  }

  /** `struct UARPPayloadHeader`. */
  function PayloadHeaderBytes(h: PayloadHeader): (s: seq<byte>)
    requires |h.tag| == 4 && |h.version| == 16
    ensures |s| == PAYLOAD_HEADER_LEN
  {
    Be32Bytes(h.headerLength) + h.tag + h.version + Be32Bytes(h.metadataOffset) + Be32Bytes(h.metadataLength)
    + Be32Bytes(h.offset) + Be32Bytes(h.length)
  }

  lemma PayloadHeaderRoundTrip(h: PayloadHeader)
    requires |h.tag| == 4 && |h.version| == 16
    ensures ParsePayloadHeader(PayloadHeaderBytes(h)) == h
  {
    var s := PayloadHeaderBytes(h);
    assert s[0..4] == Be32Bytes(h.headerLength) && s[4..8] == h.tag && s[8..24] == h.version;
    assert s[24..28] == Be32Bytes(h.metadataOffset) && s[28..32] == Be32Bytes(h.metadataLength);
    assert s[32..36] == Be32Bytes(h.offset);
    assert s[36..] == Be32Bytes(h.length);
    assert s[36..40] == s[36..];
    hide Be32, Be32Bytes, PayloadHeaderBytes;
    Be32RoundTrip(h.headerLength);
    Be32RoundTrip(h.metadataOffset);
    Be32RoundTrip(h.metadataLength);
    Be32RoundTrip(h.offset);
    Be32RoundTrip(h.length);
  }

  // ----- Metadata ------------------------------------------------------------------------

  /** Type and length, then the value. */
  function TlvBytes(t: Tlv): (s: seq<byte>)
    requires |t.value| < TWO_32
    ensures |s| == TLV_HEADER_LEN + |t.value|
  {
    Be32Bytes(t.kind) + Be32Bytes(|t.value|) + t.value
  }

  predicate Writable(tlvs: seq<Tlv>) {
    forall i :: 0 <= i < |tlvs| ==> |tlvs[i].value| < TWO_32
  }

  function MetadataBytes(tlvs: seq<Tlv>): seq<byte>
    requires Writable(tlvs)
  {
    if tlvs == [] then [] else TlvBytes(tlvs[0]) + MetadataBytes(tlvs[1..])
  }

  lemma ConsAppend<T>(s: seq<T>, t: seq<T>)
    requires s != []
    ensures s + t == [s[0]] + (s[1..] + t)
  {
  }

  lemma MetadataNext(tlvs: seq<Tlv>, rest: seq<byte>)
    requires Writable(tlvs) && tlvs != []
    ensures MetadataBytes(tlvs) + rest == TlvBytes(tlvs[0]) + (MetadataBytes(tlvs[1..]) + rest)
  {
    hide TlvBytes;
  }

  /** Metadata is read as the TLVs that were written, and then as what follows them. */
  lemma {:induction false} MetadataRoundTrip(tlvs: seq<Tlv>, rest: seq<byte>)
    requires Writable(tlvs)
    ensures ParseTlvs(MetadataBytes(tlvs) + rest) == Metadata(tlvs + ParseTlvs(rest).tlvs, ParseTlvs(rest).corrupt)
    decreases |tlvs|
  {
    if tlvs == [] {
      assert MetadataBytes(tlvs) + rest == rest && tlvs + ParseTlvs(rest).tlvs == ParseTlvs(rest).tlvs;
    } else {
      hide *;
      assert Writable(tlvs[1..]) by { WritableTail(tlvs); }
      MetadataRoundTrip(tlvs[1..], rest);
      MetadataNext(tlvs, rest);
      OneTlv(tlvs[0], MetadataBytes(tlvs[1..]) + rest) by { WritableTail(tlvs); }
      ConsAppend(tlvs, ParseTlvs(rest).tlvs);
    }
  }

  lemma WritableTail(tlvs: seq<Tlv>)
    requires Writable(tlvs) && tlvs != []
    ensures Writable(tlvs[1..]) && |tlvs[0].value| < TWO_32
  {
  }

  /** Fewer bytes behind the TLVs than a header has are ignored. */
  lemma PaddedMetadataRead(tlvs: seq<Tlv>, rest: seq<byte>)
    requires Writable(tlvs) && |rest| < TLV_HEADER_LEN
    ensures ParseTlvs(MetadataBytes(tlvs) + rest) == Metadata(tlvs, false)
  {
    MetadataRoundTrip(tlvs, rest);
    ShortRest(rest);
    assert tlvs + [] == tlvs;
    hide ParseTlvs, MetadataBytes;
  }

  lemma OneTlv(t: Tlv, rest: seq<byte>)
    requires |t.value| < TWO_32
    ensures ParseTlvs(TlvBytes(t) + rest) == Metadata([t] + ParseTlvs(rest).tlvs, ParseTlvs(rest).corrupt)
  {
    var m := TlvBytes(t) + rest;
    assert m[0..4] == Be32Bytes(t.kind) && m[4..8] == Be32Bytes(|t.value|);
    assert m[TLV_HEADER_LEN..TLV_HEADER_LEN + |t.value|] == t.value && m[TLV_HEADER_LEN + |t.value|..] == rest;
    hide Be32, Be32Bytes, TlvBytes;
    Be32RoundTrip(t.kind);
    Be32RoundTrip(|t.value|);
  }

  lemma ShortRest(rest: seq<byte>)
    requires |rest| < TLV_HEADER_LEN
    ensures ParseTlvs(rest) == Metadata([], false)
  {
  }

  /** A value that is longer than what is left makes the metadata corrupt. */
  lemma CutOffIsCorrupt(t: Tlv, n: nat)
    requires n < |t.value| < TWO_32
    ensures ParseTlvs(TlvBytes(t)[..TLV_HEADER_LEN + n]) == Metadata([], true)
  {
    var m := TlvBytes(t)[..TLV_HEADER_LEN + n];
    assert TlvBytes(t)[4..8] == Be32Bytes(|t.value|);
    assert m[4..8] == TlvBytes(t)[4..8];
    Be32RoundTrip(|t.value|);
    hide Be32, Be32Bytes, TlvBytes;
  }

  // ----- What the metadata of a payload says ---------------------------------------------------

  /** No later TLV of its kind and length. */
  predicate LastOfKind(tlvs: seq<Tlv>, i: nat, kind: nat, length: nat) {
    && i < |tlvs| && tlvs[i].kind == kind && |tlvs[i].value| == length
    && forall j :: i < j < |tlvs| ==> !(tlvs[j].kind == kind && |tlvs[j].value| == length)
  }

  /** The hash is the value of the last hash TLV of the right length. */
  lemma {:induction false} LastHashCounts(tlvs: seq<Tlv>, i: nat, hash: seq<byte>)
    requires LastOfKind(tlvs, i, 0xF4CE36FE, 32)
    ensures HashFrom(tlvs, hash) == tlvs[i].value
    decreases |tlvs|
  {
    if i > 0 {
      LastHashCounts(tlvs[1..], i - 1, HashTlv(tlvs[0], hash));
    } else {
      NoHashTlv(tlvs[1..], tlvs[0].value);
    }
  }

  lemma {:induction false} NoHashTlv(tlvs: seq<Tlv>, hash: seq<byte>)
    requires forall j :: 0 <= j < |tlvs| ==> !(tlvs[j].kind == 0xF4CE36FE && |tlvs[j].value| == 32)
    ensures HashFrom(tlvs, hash) == hash
  {
    if tlvs != [] {
      NoHashTlv(tlvs[1..], hash);
    }
  }

  /** The apply flags are the value of the last such TLV of one byte. */
  lemma {:induction false} LastFlagsCount(tlvs: seq<Tlv>, i: nat, flags: nat)
    requires LastOfKind(tlvs, i, 0xF4CE36FC, 1)
    ensures FlagsFrom(tlvs, flags) == tlvs[i].value[0]
    decreases |tlvs|
  {
    if i > 0 {
      LastFlagsCount(tlvs[1..], i - 1, FlagsTlv(tlvs[0], flags));
    } else {
      NoFlagsTlv(tlvs[1..], tlvs[0].value[0]);
    }
  }

  lemma {:induction false} NoFlagsTlv(tlvs: seq<Tlv>, flags: nat)
    requires forall j :: 0 <= j < |tlvs| ==> !(tlvs[j].kind == 0xF4CE36FC && |tlvs[j].value| == 1)
    ensures FlagsFrom(tlvs, flags) == flags
  {
    if tlvs != [] {
      NoFlagsTlv(tlvs[1..], flags);
    }
  }
}
