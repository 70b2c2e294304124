/**
 Why the ZMS round trip needs its hypothesis: a settings value that looks like
 an entry renames the setting when the image is read back.
 */
module ZmsFakeEntry {
  import opened Wrappers
  import opened Bytes
  import opened OrderedDict
  import opened HexImage
  import opened SectorLayout
  import opened SettingsCore
  import opened SettingsTheorems
  import opened ZmsAte
  import opened ZmsSettings

  const BLOCK: nat := 16
  const NAME_ID: int := 0x8000_0001
  const VALUE_ID: int := 0xc000_0001
  const NAME: seq<byte> := [0x41]
  const OTHER_NAME: seq<byte> := [0x42]

  /** An entry of the first cycle that gives the first setting another name. */
  function FakeEntry(): (ate: AteZms)
    ensures ate.InRange() && WellTyped(ate) && ate.IsValid(FIRST_CYCLE)
  {
    MakeAte(FIRST_CYCLE, 1, NAME_ID, SmallData(SmallForm(OTHER_NAME)))
  }

  function FakeValue(): (value: seq<byte>)
    ensures |value| == BLOCK
  {
    FakeEntry().Serialize()
  }

  function FakeSettings(): (kv: Settings) {
    [(NAME, FakeValue())]
  }

  function FakeLog(): (log: seq<Record>)
    ensures |log| == 3
  {
    [(VALUE_ID, FakeValue()), (NAME_ID, NAME), (0x8000_0000, Le32(NAME_ID))]
  }

  lemma FakeLogIs()
    ensures KvLog(IDS, FakeSettings()) == FakeLog()
    ensures DistinctKeys(FakeSettings())
  {
    hide Le32, FakeValue;
    var kv := FakeSettings();
    assert kv[..0] == [] && KvLog(IDS, kv[..0]) == [];
    assert KvLog(IDS, kv) == [] + KvRecords(IDS, 0, NAME, FakeValue());
  }

  lemma FakeLayout()
    ensures ZmsAteSize(BLOCK) == BLOCK
    ensures DataEnd(Zms, FakeLog(), BLOCK) == BLOCK && DataEnd(Zms, [], BLOCK) == 0
    ensures Fits(Zms, FakeLog(), BLOCK)
  {
    hide Le32, FakeValue;
    var log := FakeLog();
    assert log[..2] == [log[0], log[1]] && log[..2][..1] == [log[0]] && log[..2][..1][..0] == log[..0];
    assert log[..0] == [] && [log[0]][..0] == log[..0];
    assert DataEnd(Zms, [log[0]], BLOCK) == DataEnd(Zms, [], BLOCK) + BLOCK;
    assert DataEnd(Zms, log[..2], BLOCK) == BLOCK;
    AtePosClosed(3);
  }

  lemma {:induction false} AtePosClosed(k: nat)
    ensures AtePos(Zms, k, BLOCK) == SETTINGS_SECTOR_SIZE - 4 * BLOCK - k * BLOCK
  {
    if k > 0 {
      AtePosClosed(k - 1);
    }
  }

  /** The walk skips the erased gap and arrives at the first block of the sector. */
  lemma {:induction false} WalkGap(ih: Hex, base: int, k: nat, crc32: Checksum, records: Records)
    requires Holds(ih, base, FakeLog(), BLOCK, crc32)
    requires 3 <= k <= 252
    ensures AtePos(Zms, k, BLOCK) + 2 * BLOCK <= SETTINGS_SECTOR_SIZE
    ensures var sector := ReadBytes(ih, base, SETTINGS_SECTOR_SIZE);
            ParseAtes(sector, BLOCK, AtePos(Zms, k, BLOCK) + BLOCK, FIRST_CYCLE, crc32, records) ==
            ParseAtes(sector, BLOCK, BLOCK, FIRST_CYCLE, crc32, records)
    decreases 252 - k
  {
    hide Holds, Framed, AtePos, BlockAt, FakeLog, ReadBytes, DataEnd, Put, Fits, ZmsAteSize;
    AtePosClosed(k);
    FakeLayout();
    if k < 252 {
      AtePosClosed(k + 1);
      HoldsFrame(ih, base, FakeLog(), BLOCK, crc32);
      GapEffect(ih, base, FakeLog(), k, BLOCK, crc32);
      WalkGap(ih, base, k + 1, crc32, records);
    }
  }

  lemma FakeEffect(sector: seq<byte>, crc32: Checksum)
    requires |sector| >= BLOCK && sector[0..BLOCK] == FakeValue()
    ensures BlockAt(sector, 0, BLOCK, FIRST_CYCLE, crc32) == Add((NAME_ID, OTHER_NAME))
  {
    hide AteZms.Serialize, Deserialize, AteZms.IsValid;
    BlockIs(sector, 0, BLOCK, FakeEntry());
  }

  lemma DataRead(ih: Hex, base: int, log: seq<Record>, w: nat, crc32: Checksum)
    requires w > 0 && log != [] && RecordAt(ih, base, log, 0, w, crc32) && !IsSmall(log[0].1)
    ensures ReadBytes(ih, base, |log[0].1|) == log[0].1
  {
    assert log[..0] == [] && DataEnd(Zms, [], w) == 0;
    hide ReadBytes, EntryFor, AtePos, ZmsAteSize, AteZms.Serialize;
  }

  /** The first block of the data area holds the value. */
  lemma ValueInPlace(ih: Hex, base: int, crc32: Checksum)
    requires Holds(ih, base, FakeLog(), BLOCK, crc32)
    ensures ReadBytes(ih, base, SETTINGS_SECTOR_SIZE)[0..BLOCK] == FakeValue()
  {
    hide ReadBytes, RecordAt, FakeValue, RestErased, Fits, Le32, EmptyAte, AteZms.Serialize, ZmsAteSize;
    DataRead(ih, base, FakeLog(), BLOCK, crc32);
    SliceOfSector(ih, base, 0, BLOCK);
  }

  /** At the first block the walk adds the fake record and stops. */
  lemma WalkEnd(sector: seq<byte>, crc32: Checksum, records: Records)
    requires |sector| >= 2 * BLOCK && sector[0..BLOCK] == FakeValue()
    ensures ParseAtes(sector, BLOCK, BLOCK, FIRST_CYCLE, crc32, records) == Some(Put(records, NAME_ID, OTHER_NAME))
  {
    hide BlockAt, Put, FakeValue;
    FakeEffect(sector, crc32);
    assert BLOCK - BLOCK == 0;
  }

  lemma FakeWalk(ih: Hex, base: int, crc32: Checksum)
    requires Holds(ih, base, FakeLog(), BLOCK, crc32)
    ensures WalkImage(ih, base, FakeLog(), BLOCK, crc32) == Some(Put(PutAll([], FakeLog()), NAME_ID, OTHER_NAME))
  {
    hide AtePos, FakeLog, ReadBytes, Put, PutAll, ZmsAteSize, DataAreaWalk, Holds, ParseAtes, WalkFrom, FakeValue,
      Fits, DataEnd;
    var sector := ReadBytes(ih, base, SETTINGS_SECTOR_SIZE);
    var records := PutAll([], FakeLog());
    FakeLayout();
    ValueInPlace(ih, base, crc32);
    WalkFromTop(sector, FakeLog(), BLOCK, crc32);
    WalkGap(ih, base, 3, crc32, records);
    WalkEnd(sector, crc32, records);
  }

  lemma FakeResult()
    ensures SettingsOf(IDS, PutAll([], Put(PutAll([], FakeLog()), NAME_ID, OTHER_NAME))) == [(OTHER_NAME, FakeValue())]
  {
    hide Le32, FakeValue;
    var log := FakeLog();
    var a: Record, b: Record, c: Record, b': Record := log[0], log[1], log[2], (NAME_ID, OTHER_NAME);
    assert log[1..] == [b, c] && [b, c][1..] == [c] && [c][1..] == [];
    assert Put([], a.0, a.1) == [a];
    assert [a][1..] == [];
    assert Put([a], b.0, b.1) == [a, b];
    assert [a, b][1..] == [b] && [b][1..] == [];
    PutNew([a, b], c.0, c.1);
    assert [a, b] + [c] == [a, b, c];
    assert PutAll([], log) == [a, b, c];
    assert [a, b, c][1..] == [b, c];
    var d: Records := [a, b', c];
    assert Put([b, c], NAME_ID, OTHER_NAME) == [b', c];
    assert Put([a, b, c], NAME_ID, OTHER_NAME) == [a] + [b', c] == d;
    CopyDict(d);
    FakeSettingsOf(d);
  }

  lemma FakeSettingsOf(d: Records)
    requires d == [(VALUE_ID, FakeValue()), (NAME_ID, OTHER_NAME), (0x8000_0000, Le32(NAME_ID))]
    ensures SettingsOf(IDS, d) == [(OTHER_NAME, FakeValue())]
  {
    hide Le32, FakeValue;
    var rest, last := d[1..], d[2..];
    assert rest[1..] == last && last[1..] == [];
    assert Get(d, VALUE_ID) == Some(FakeValue());
    assert AddSetting(IDS, d, [], d[0]) == [];
    assert FakeValue() != [];
    assert AddSetting(IDS, d, [], rest[0]) == [(OTHER_NAME, FakeValue())];
    assert AddSettings(IDS, d, [(OTHER_NAME, FakeValue())], last) == [(OTHER_NAME, FakeValue())];
    assert AddSettings(IDS, d, [], rest) == AddSettings(IDS, d, [(OTHER_NAME, FakeValue())], last);
  }

  /**
   The settings fit and are distinct and non-empty, yet the image that holds them
   is read back with another name.
   */
  lemma FakeEntryChangesSettings(ih: Hex, base: int, crc32: Checksum, extra: nat)
    requires Holds(ih, base, KvLog(IDS, FakeSettings()), BLOCK, crc32)
    ensures KvFits(FakeSettings(), BLOCK) && DistinctKeys(FakeSettings())
    ensures Readable(FakeSettings()) == FakeSettings() == [(NAME, FakeValue())]
    ensures 2 * ZmsAteSize(BLOCK) <= SETTINGS_SECTOR_SIZE
    ensures ReadImage(ih, base, BLOCK, crc32, extra) == Returns(Some([(OTHER_NAME, FakeValue())]))
  {
    FakeLogIs();
    FakeLayout();
    ReadableIsAll(FakeSettings());
    hide FakeLog, Holds, ReadImage, WalkImage, PutAll, Put, SettingsOf, FakeValue, KvLog, Readable;
    FakeWalk(ih, base, crc32);
    ZmsReadExactly(ih, base, FakeLog(), BLOCK, crc32, extra);
    FakeResult();
    PutNonEmpty(PutAll([], FakeLog()), NAME_ID, OTHER_NAME);
  }

  lemma PutNonEmpty(d: Records, id: int, v: seq<byte>)
    ensures Put(d, id, v) != []
  {
  }
}
