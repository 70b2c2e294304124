/** The allocation table entry of the ZMS settings back end. */
module ZmsAte {
  import opened Bytes
  import opened HexImage
  import Crc8

  /** The checksum of big records; `zlib.crc32` in the tool. */
  type Checksum = seq<byte> -> u32

  const ATE_SIZE: nat := 16
  const MAX_SMALL: nat := 8
  const HEAD_ID: nat := 0xffff_ffff

  /** The last eight bytes: inline data, or an offset with a checksum or metadata. */
  datatype Content =
    | SmallData(data: seq<byte>)
    | DataInfo(offset: nat, dataCrc: nat)
    | SpecialInfo(offset: nat, metadata: nat)
  {
    predicate InRange() {
      match this
      case SmallData(data) => |data| == MAX_SMALL
      case DataInfo(offset, crc) => offset < TWO_32 && crc < TWO_32
      case SpecialInfo(offset, metadata) => offset < TWO_32 && metadata < TWO_32
    }

    function Serialize(): (s: seq<byte>)
      requires InRange()
      ensures |s| == 8
    {
      match this
      case SmallData(data) => data
      case DataInfo(offset, crc) => Le32(offset) + Le32(crc)
      case SpecialInfo(offset, metadata) => Le32(offset) + Le32(metadata)
    }
  }

  datatype AteZms = AteZms(cycleCnt: byte, len: nat, id: nat, content: Content, crc8: byte) {

    predicate InRange() {
      len < TWO_16 && id < TWO_32 && content.InRange()
    }

    /** The bytes behind the CRC byte. */
    function Body(): (s: seq<byte>)
      requires InRange()
      ensures |s| == ATE_SIZE - 1
    {
      [cycleCnt] + Le16(len) + Le32(id) + content.Serialize()
    }

    predicate IsValidCrc8()
      requires InRange()
    {
      crc8 == Crc8.Crc8(Body())
    }

    predicate IsValid(cycle: byte)
      requires InRange()
    {
      IsValidCrc8() && cycleCnt == cycle
    }

    function Serialize(): (s: seq<byte>)
      requires InRange()
      ensures |s| == ATE_SIZE
    {
      [crc8] + Body()
    }
  }

  /** An entry whose CRC is computed when it is made. */
  function MakeAte(cycleCnt: byte, len: nat, id: nat, content: Content): (ate: AteZms)
    requires AteZms(cycleCnt, len, id, content, 0).InRange()
    ensures ate.InRange() && ate.IsValid(cycleCnt)
    ensures ate.len == len && ate.id == id && ate.content == content
  {
    var draft := AteZms(cycleCnt, len, id, content, ERASED_BYTE);
    draft.(crc8 := Crc8.Crc8(draft.Body()))
  }

  function EmptyAte(cycleCnt: byte): (ate: AteZms)
    ensures ate.InRange()
  {
    MakeAte(cycleCnt, 0xffff, HEAD_ID, SpecialInfo(0, 0x0000_4201))
  }

  function CloseAte(cycleCnt: byte, offset: nat): (ate: AteZms)
    requires offset < TWO_32
    ensures ate.InRange()
  {
    MakeAte(cycleCnt, 0, HEAD_ID, SpecialInfo(offset, 0xffff_ffff))
  }

  /** The kind of content that the reader expects for an ID and a length. */
  predicate WellTyped(ate: AteZms) {
    match ate.content
    case SmallData(_) => ate.id != HEAD_ID && ate.len <= MAX_SMALL
    case DataInfo(_, _) => ate.id != HEAD_ID && ate.len > MAX_SMALL
    case SpecialInfo(_, _) => ate.id == HEAD_ID
  }

  function DeserializeContent(s: seq<byte>, small: bool, special: bool): (c: Content)
    requires |s| == 8
    ensures c.InRange()
  {
    if small then SmallData(s)
    else if special then SpecialInfo(FromLe32(s[..4]), FromLe32(s[4..]))
    else DataInfo(FromLe32(s[..4]), FromLe32(s[4..]))
  }

  function Deserialize(bytes: seq<byte>): (ate: AteZms)
    requires |bytes| >= ATE_SIZE
    ensures ate.InRange() && WellTyped(ate)
  {
    var len, id := FromLe16(bytes[2..4]), FromLe32(bytes[4..8]);
    var special := id == HEAD_ID;
    AteZms(bytes[1], len, id, DeserializeContent(bytes[8..16], len <= MAX_SMALL && !special, special), bytes[0])
  }

  /** The entry size, rounded up to the write block size. */
  function ZmsAteSize(w: nat): (size: nat)
    requires w > 0
    ensures ATE_SIZE <= size < ATE_SIZE + w
  {
    AlignedLen(ATE_SIZE, w)
  }

  lemma ContentRoundTrip(c: Content)
    requires c.InRange()
    ensures DeserializeContent(c.Serialize(), c.SmallData?, c.SpecialInfo?) == c
  {
    if !c.SmallData? {
      var hi := Le32(if c.DataInfo? then c.dataCrc else c.metadata);
      assert c.Serialize()[..4] == Le32(c.offset) && c.Serialize()[4..] == hi;
    }
  }

  /** Reading a written entry, padded or not, gives the entry back. */
  lemma ZmsAteRoundTrip(ate: AteZms, padding: seq<byte>)
    requires ate.InRange() && WellTyped(ate)
    ensures Deserialize(ate.Serialize() + padding) == ate
  {
    hide Crc8.Crc8, Le16, Le32, FromLe16, FromLe32, DeserializeContent, Content.Serialize;
    var s := ate.Serialize() + padding;
    ContentRoundTrip(ate.content);
    assert s[2..4] == Le16(ate.len) && s[4..8] == Le32(ate.id) && s[8..16] == ate.content.Serialize();
  }

  /** The bytes of an entry: CRC, cycle count, length, ID and content, low bytes first. */
  lemma ZmsAteLayout(ate: AteZms)
    requires ate.InRange()
    ensures var s := ate.Serialize();
            && s[0] == ate.crc8 && s[1] == ate.cycleCnt && FromLe(s[2..4]) == ate.len && FromLe(s[4..8]) == ate.id
            && match ate.content
               case SmallData(data) => s[8..16] == data
               case DataInfo(offset, crc) => FromLe(s[8..12]) == offset && FromLe(s[12..16]) == crc
               case SpecialInfo(offset, metadata) => FromLe(s[8..12]) == offset && FromLe(s[12..16]) == metadata
  {
    var s := ate.Serialize();
    Le16Value(ate.len);
    Le32Value(ate.id);
    assert s[2..4] == Le16(ate.len) && s[4..8] == Le32(ate.id) && s[8..16] == ate.content.Serialize();
    if !ate.content.SmallData? {
      var word := if ate.content.DataInfo? then ate.content.dataCrc else ate.content.metadata;
      Le32Value(ate.content.offset);
      Le32Value(word);
      assert s[8..12] == Le32(ate.content.offset) && s[12..16] == Le32(word);
    }
    hide Le16, Le32, FromLe;
  }

  /** The empty entry of the first cycle, and a close entry, byte by byte behind their CRC. */
  lemma SpecialLayout(offset: u32)
    requires offset < TWO_16
    ensures EmptyAte(1).Serialize()[1..] ==
            [1, 0xff, 0xff, 0xff, 0xff, 0xff, 0xff, 0, 0, 0, 0, 0x01, 0x42, 0, 0]
    ensures CloseAte(1, offset).Serialize()[1..] ==
            [1, 0, 0, 0xff, 0xff, 0xff, 0xff, offset % 256, offset / 256, 0, 0, 0xff, 0xff, 0xff, 0xff]
  {
    hide Crc8.Crc8;
  }

  lemma ContentBytes(s: seq<byte>, small: bool, special: bool)
    requires |s| == 8
    ensures DeserializeContent(s, small, special).Serialize() == s
  {
    Le32Inverse(s[..4]);
    Le32Inverse(s[4..]);
    assert s == s[..4] + s[4..];
  }

  /** Deserializing loses none of the protected bytes. */
  lemma DeserializeBody(bytes: seq<byte>)
    requires |bytes| >= ATE_SIZE
    ensures Deserialize(bytes).Body() == bytes[1..16]
  {
    hide Le16, Le32, FromLe16, FromLe32, DeserializeContent, Content.Serialize;
    Le16Inverse(bytes[2..4]);
    Le32Inverse(bytes[4..8]);
    var ate := Deserialize(bytes);
    ContentBytes(bytes[8..16], ate.len <= MAX_SMALL && ate.id != HEAD_ID, ate.id == HEAD_ID);
    assert bytes[1..16] == [bytes[1]] + bytes[2..4] + bytes[4..8] + bytes[8..16];
  }

  /** No single-byte corruption of an entry goes unnoticed. */
  lemma CorruptZmsAteRejected(good: seq<byte>, bad: seq<byte>, i: nat, cycle: byte)
    requires |good| == |bad| && |good| >= ATE_SIZE && i < ATE_SIZE
    requires Deserialize(good).IsValid(cycle)
    requires good[i] != bad[i]
    requires forall j :: 0 <= j < |good| && j != i ==> good[j] == bad[j]
    ensures !Deserialize(bad).IsValid(cycle)
  {
    hide Crc8.Crc8;
    DeserializeBody(good);
    DeserializeBody(bad);
    if i == 0 {
      assert good[1..16] == bad[1..16];
    } else {
      Crc8.SingleByteErrorDetected(good[1..16], bad[1..16], i - 1);
    }
  }

  /** Erased flash is no entry of the first cycle, and no close entry. */
  lemma ErasedZmsAte(size: nat)
    requires size >= ATE_SIZE
    ensures var ate := Deserialize(Erased(size));
            ate.cycleCnt == 0xff && ate.id == HEAD_ID && ate.len == 0xffff && ate.content.SpecialInfo?
  {
    var s := Erased(size);
    assert FromLe16(s[2..4]) == 0xffff;
    assert FromLe16(s[4..8][..2]) == 0xffff && FromLe16(s[4..8][2..]) == 0xffff;
    assert FromLe32(s[4..8]) == HEAD_ID;
  }

  /** The serializer of the source: the CRC loop over the body. */
  method SerializeAteZms(ate: AteZms) returns (s: seq<byte>)
    requires ate.InRange()
    ensures s == ate.(crc8 := Crc8.Crc8(ate.Body())).Serialize()
  {
    hide Crc8.Crc8;
    var body := ate.Body();
    var crc := Crc8.Crc8CcittFromBytes(body);
    s := [crc] + body;
  }
}
