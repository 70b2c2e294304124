/** The allocation table entry of the NVS settings back end. */
module NvsAte {
  import opened Bytes
  import opened HexImage
  import Crc8

  const ATE_LEN_MIN: nat := 8

  /** The length of an entry, rounded up to the write block size. */
  function AteSize(writeBlockSize: nat): (size: nat)
    requires writeBlockSize > 0
    ensures ATE_LEN_MIN <= size < ATE_LEN_MIN + writeBlockSize
  {
    AlignedLen(ATE_LEN_MIN, writeBlockSize)
  }

  datatype Ate = Ate(bytes: seq<byte>, recordId: nat, dataOffset: nat, dataLen: nat, crc: byte) {

    predicate IsValid()
      requires |bytes| >= ATE_LEN_MIN
    {
      Crc8.Crc8(bytes[..7]) == crc && dataOffset < SETTINGS_SECTOR_SIZE - |bytes|
    }

    predicate IsPopulated() {
      bytes != Erased(|bytes|)
    }
  }

  function Deserialize(bytes: seq<byte>): (ate: Ate)
    requires |bytes| >= ATE_LEN_MIN
    ensures ate.bytes == bytes
  {
    Ate(bytes, FromLe16(bytes[..2]), FromLe16(bytes[2..4]), FromLe16(bytes[4..6]), bytes[7])
  }

  /** The seven bytes that the CRC protects. */
  function Protected(recordId: nat, dataOffset: nat, dataLen: nat): (s: seq<byte>)
    requires recordId < TWO_16 && dataOffset < TWO_16 && dataLen < TWO_16
    ensures |s| == 7
  {
    Le16(recordId) + Le16(dataOffset) + Le16(dataLen) + [ERASED_BYTE]
  }

  function Serialize(recordId: nat, dataOffset: nat, dataLen: nat, ateSize: nat): (s: seq<byte>)
    requires recordId < TWO_16 && dataOffset < TWO_16 && dataLen < TWO_16
    requires ateSize >= ATE_LEN_MIN
    ensures |s| == ateSize
  {
    var head := Protected(recordId, dataOffset, dataLen);
    head + [Crc8.Crc8(head)] + Erased(ateSize - ATE_LEN_MIN)
  }

  /** Reading a written entry gives its fields, and the entry passes the CRC check. */
  lemma AteRoundTrip(recordId: nat, dataOffset: nat, dataLen: nat, ateSize: nat)
    requires recordId < TWO_16 && dataOffset < TWO_16 && dataLen < TWO_16
    requires ateSize >= ATE_LEN_MIN
    ensures var ate := Deserialize(Serialize(recordId, dataOffset, dataLen, ateSize));
            && ate.recordId == recordId && ate.dataOffset == dataOffset && ate.dataLen == dataLen
            && (ate.IsValid() <==> dataOffset < SETTINGS_SECTOR_SIZE - ateSize)
  {
    var head := Protected(recordId, dataOffset, dataLen);
    var s := Serialize(recordId, dataOffset, dataLen, ateSize);
    assert s[..7] == head;
    assert s[..2] == Le16(recordId) && s[2..4] == Le16(dataOffset) && s[4..6] == Le16(dataLen);
  }

  /**
   The bytes of an entry: ID, offset and length, low byte first, an unused byte, the CRC
   of the seven before it, and erased flash.
   */
  lemma AteLayout(recordId: nat, dataOffset: nat, dataLen: nat, ateSize: nat)
    requires recordId < TWO_16 && dataOffset < TWO_16 && dataLen < TWO_16
    requires ateSize >= ATE_LEN_MIN
    ensures var s := Serialize(recordId, dataOffset, dataLen, ateSize);
            && FromLe(s[0..2]) == recordId && FromLe(s[2..4]) == dataOffset && FromLe(s[4..6]) == dataLen
            && s[6] == 0xff && s[7] == Crc8.Crc8(s[..7])
            && forall i :: 8 <= i < ateSize ==> s[i] == 0xff
  {
    var head := Protected(recordId, dataOffset, dataLen);
    hide Crc8.Crc8;
    var s := Serialize(recordId, dataOffset, dataLen, ateSize);
    assert s[..7] == head;
    assert s[0..2] == Le16(recordId) && s[2..4] == Le16(dataOffset) && s[4..6] == Le16(dataLen);
    Le16Value(recordId);
    Le16Value(dataOffset);
    Le16Value(dataLen);
  }

  /** An entry whose ID does not end in 0xff differs from erased flash. */
  lemma SerializePopulated(recordId: nat, dataOffset: nat, dataLen: nat, ateSize: nat)
    requires recordId < 0xff00 && dataOffset < TWO_16 && dataLen < TWO_16
    requires ateSize >= ATE_LEN_MIN
    ensures Deserialize(Serialize(recordId, dataOffset, dataLen, ateSize)).IsPopulated()
  {
    hide Crc8.Crc8;
    var s := Serialize(recordId, dataOffset, dataLen, ateSize);
    assert s[1] == Le16(recordId)[1] == recordId / 256;
    assert Erased(ateSize)[1] == ERASED_BYTE;
  }

  /** No single-byte corruption of the protected bytes or of the CRC byte goes unnoticed. */
  lemma CorruptAteRejected(good: seq<byte>, bad: seq<byte>, i: nat)
    requires |good| == |bad| && |good| >= ATE_LEN_MIN && i < ATE_LEN_MIN
    requires Deserialize(good).IsValid()
    requires good[i] != bad[i]
    requires forall j :: 0 <= j < |good| && j != i ==> good[j] == bad[j]
    ensures !Deserialize(bad).IsValid()
  {
    if i < 7 {
      Crc8.SingleByteErrorDetected(good[..7], bad[..7], i);
    } else {
      assert good[..7] == bad[..7];
    }
  }

  /** The CRC loop of the source, used by the serializer. */
  method SerializeAte(recordId: nat, dataOffset: nat, dataLen: nat, ateSize: nat) returns (s: seq<byte>)
    requires recordId < TWO_16 && dataOffset < TWO_16 && dataLen < TWO_16
    requires ateSize >= ATE_LEN_MIN
    ensures s == Serialize(recordId, dataOffset, dataLen, ateSize)
  {
    var ate := Erased(ateSize);
    var head := Le16(recordId) + Le16(dataOffset) + Le16(dataLen);
    ate := head + ate[6..];
    var crc := Crc8.Crc8CcittFromBytes(ate[..7]);
    assert ate[..7] == Protected(recordId, dataOffset, dataLen);
    s := ate[7 := crc];
  }
}
