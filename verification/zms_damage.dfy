/**
 Damaged data: what the reader makes of a ZMS image in which the data of one record
 was replaced by other bytes of the same length.
 */
module ZmsDamage {
  import opened Wrappers
  import opened Bytes
  import opened OrderedDict
  import opened HexImage
  import opened SectorLayout
  import opened SettingsCore
  import opened SettingsTheorems
  import opened SettingsReading
  import opened SettingsDamage
  import opened ZmsAte
  import opened ZmsSettings
  import opened ZmsExact

  /** The image with `bad` in the place of the data of record `k`. */
  function Damaged(ih: Hex, base: int, log: seq<Record>, k: nat, bad: seq<byte>, w: nat): Hex
    requires w > 0 && k < |log|
  {
    FromBytes(ih, bad, base + DataEnd(Zms, log[..k], w))
  }

  /** Big data is replaced, and its checksum is there and tells. */
  predicate Detectable(log: seq<Record>, k: nat, bad: seq<byte>, crc32: Checksum) {
    && k < |log| && !IsSmall(log[k].1) && |bad| == |log[k].1|
    && crc32(log[k].1) != 0 && crc32(bad) != crc32(log[k].1)
  }

  // ----- The blocks of a damaged image ------------------------------------------------

  /** The data of a record lies behind that of the records before it, and below all entries. */
  lemma DataPlace(log: seq<Record>, k: nat, j: nat, w: nat)
    requires w > 0 && Fits(Zms, log, w) && k < |log| && j <= |log|
    requires j > k || (j < k && !IsSmall(log[j].1))
    ensures j > k && !IsSmall(log[k].1) ==> DataEnd(Zms, log[..k], w) + |log[k].1| <= DataEnd(Zms, log[..j], w)
    ensures j < k ==> DataEnd(Zms, log[..j], w) + |log[j].1| <= DataEnd(Zms, log[..k], w)
  {
    if j > k {
      assert log[..j][..k] == log[..k] && log[..j][..k + 1] == log[..k + 1];
      DataEndBounds(Zms, log[..j], k, w);
    } else {
      assert log[..k][..j] == log[..j] && log[..k][..j + 1] == log[..j + 1];
      DataEndBounds(Zms, log[..k], j, w);
    }
  }

  /** The other records stay as they were. */
  lemma OtherRecordAt(ih: Hex, base: int, log: seq<Record>, k: nat, bad: seq<byte>, j: nat, w: nat, crc32: Checksum)
    requires w > 0 && Fits(Zms, log, w) && k < |log| && !IsSmall(log[k].1) && |bad| == |log[k].1|
    requires j < |log| && j != k && RecordAt(ih, base, log, j, w, crc32)
    ensures RecordAt(Damaged(ih, base, log, k, bad, w), base, log, j, w, crc32)
  {
    hide ReadBytes, FromBytes, AtePos, DataEnd, AteZms.Serialize, EntryFor, ZmsAteSize, Fits;
    var size := ZmsAteSize(w);
    AboveData(log, k, j, w);
    ReadElsewhere(ih, bad, base + DataEnd(Zms, log[..k], w), base + AtePos(Zms, j, size), ATE_SIZE);
    if !IsSmall(log[j].1) {
      DataPlace(log, k, j, w);
      ReadElsewhere(ih, bad, base + DataEnd(Zms, log[..k], w), base + DataEnd(Zms, log[..j], w), |log[j].1|);
    }
  }

  /** All entries lie above the data. */
  lemma AboveData(log: seq<Record>, k: nat, j: nat, w: nat)
    requires w > 0 && Fits(Zms, log, w) && k < |log| && !IsSmall(log[k].1) && j < |log|
    ensures DataEnd(Zms, log[..k], w) + |log[k].1| <= DataEnd(Zms, log, w)
    ensures DataEnd(Zms, log, w) <= AtePos(Zms, j, ZmsAteSize(w)) - ZmsAteSize(w)
    ensures DataEnd(Zms, log, w) <= SETTINGS_SECTOR_SIZE - 4 * ZmsAteSize(w)
  {
    hide ZmsAteSize;
    DataEndBounds(Zms, log, k, w);
    AtePosBounds(Zms, j, |log|, ZmsAteSize(w));
  }

  lemma DamagedEntryAt(ih: Hex, base: int, log: seq<Record>, k: nat, bad: seq<byte>, w: nat, crc32: Checksum)
    requires w > 0 && Fits(Zms, log, w) && k < |log| && !IsSmall(log[k].1) && |bad| == |log[k].1|
    requires RecordAt(ih, base, log, k, w, crc32)
    ensures EntryAt(Damaged(ih, base, log, k, bad, w), base, log, k, w, crc32, bad)
  {
    hide ReadBytes, FromBytes, AtePos, DataEnd, AteZms.Serialize, EntryFor, ZmsAteSize, Fits;
    AboveData(log, k, k, w);
    ReadElsewhere(ih, bad, base + DataEnd(Zms, log[..k], w), base + AtePos(Zms, k, ZmsAteSize(w)), ATE_SIZE);
    ReadWritten(ih, bad, base + DataEnd(Zms, log[..k], w));
  }

  lemma DamagedFramed(ih: Hex, base: int, log: seq<Record>, k: nat, bad: seq<byte>, w: nat)
    requires w > 0 && Framed(ih, base, log, w) && k < |log| && !IsSmall(log[k].1) && |bad| == |log[k].1|
    ensures Framed(Damaged(ih, base, log, k, bad, w), base, log, w)
  {
    hide ReadBytes, AtePos, DataEnd, AteZms.Serialize, EmptyAte, ZmsAteSize, Fits;
    AboveData(log, k, k, w);
    ReadElsewhere(ih, bad, base + DataEnd(Zms, log[..k], w), base + SETTINGS_SECTOR_SIZE - ZmsAteSize(w), ATE_SIZE);
  }

  /**
   The block of the damaged record is skipped exactly if its data has a checksum that
   differs from that of what is found there; else the damaged data is taken.
   */
  lemma DamageSkippedIff(ih: Hex, base: int, log: seq<Record>, k: nat, bad: seq<byte>, w: nat, crc32: Checksum)
    requires w > 0 && Holds(ih, base, log, w, crc32)
    requires k < |log| && !IsSmall(log[k].1) && |bad| == |log[k].1|
    ensures var size := ZmsAteSize(w);
            && 0 <= AtePos(Zms, k, size) && AtePos(Zms, k, size) + size <= SETTINGS_SECTOR_SIZE
            && BlockAt(ReadBytes(Damaged(ih, base, log, k, bad, w), base, SETTINGS_SECTOR_SIZE),
                       AtePos(Zms, k, size), size, FIRST_CYCLE, crc32) ==
               if Detectable(log, k, bad, crc32) then Skip else Add((log[k].0, bad))
  {
    hide Holds, RecordAt, EntryAt, Damaged, BlockAt, ReadBytes, AtePos, ZmsAteSize, Fits;
    HoldsRecord(ih, base, log, k, w, crc32);
    DamagedEntryAt(ih, base, log, k, bad, w, crc32);
    EntryEffectFor(Damaged(ih, base, log, k, bad, w), base, log, k, w, crc32, bad);
  }

  lemma OthersAdded(ih: Hex, base: int, log: seq<Record>, k: nat, bad: seq<byte>, j: nat, w: nat, crc32: Checksum)
    requires w > 0 && Holds(ih, base, log, w, crc32)
    requires k < |log| && !IsSmall(log[k].1) && |bad| == |log[k].1| && j < |log| && j != k
    ensures var size := ZmsAteSize(w);
            && 0 <= AtePos(Zms, j, size) && AtePos(Zms, j, size) + size <= SETTINGS_SECTOR_SIZE
            && BlockAt(ReadBytes(Damaged(ih, base, log, k, bad, w), base, SETTINGS_SECTOR_SIZE),
                       AtePos(Zms, j, size), size, FIRST_CYCLE, crc32) == Add(log[j])
  {
    hide Holds, RecordAt, Damaged, BlockAt, ReadBytes, AtePos, ZmsAteSize, Fits;
    HoldsRecord(ih, base, log, j, w, crc32);
    OtherRecordAt(ih, base, log, k, bad, j, w, crc32);
    EntryEffect(Damaged(ih, base, log, k, bad, w), base, log, j, w, crc32);
  }

  // ----- The walk over a damaged image --------------------------------------------------

  /** The records before the `j`-th, without the damaged one. */
  function Kept(log: seq<Record>, k: nat, j: nat): seq<Record>
    requires k < |log| && j <= |log|
  {
    if j <= k then log[..j] else Without(log[..j], k)
  }

  lemma KeptNext(log: seq<Record>, k: nat, j: nat)
    requires k < |log| && j < |log|
    ensures Kept(log, k, j + 1) == if j == k then Kept(log, k, j) else Kept(log, k, j) + [log[j]]
    ensures Kept(log, k, |log|) == Without(log, k)
  {
    assert log[..j + 1] == log[..j] + [log[j]] && log[..|log|] == log;
  }

  function DamagedWalk(sector: seq<byte>, log: seq<Record>, k: nat, j: nat, size: nat, crc32: Checksum): Option<Records>
    requires size >= ATE_SIZE && 4 * size <= |sector| == SETTINGS_SECTOR_SIZE && k < |log| && j <= |log|
  {
    AtePosTop(Zms, j, size);
    ParseAtes(sector, size, AtePos(Zms, j, size) + size, FIRST_CYCLE, crc32, PutAll([], Kept(log, k, j)))
  }

  lemma PutAllOne(log: seq<Record>, r: Record)
    ensures PutAll([], log + [r]) == Put(PutAll([], log), r.0, r.1)
  {
    PutAllAppend([], log, [r]);
  }

  lemma DamagedStep(ih: Hex, base: int, log: seq<Record>, k: nat, bad: seq<byte>, j: nat, w: nat, size: nat,
                    crc32: Checksum)
    requires w > 0 && size == ZmsAteSize(w) && Holds(ih, base, log, w, crc32) && Detectable(log, k, bad, crc32)
    requires j < |log| && 4 * size <= SETTINGS_SECTOR_SIZE
    ensures var sector := ReadBytes(Damaged(ih, base, log, k, bad, w), base, SETTINGS_SECTOR_SIZE);
            DamagedWalk(sector, log, k, j, size, crc32) == DamagedWalk(sector, log, k, j + 1, size, crc32)
  {
    hide Holds, Damaged, BlockAt, ReadBytes, AtePos, ZmsAteSize, Put, PutAll, Kept;
    AtePosNext(j, size);
    KeptNext(log, k, j);
    if j == k {
      DamageSkippedIff(ih, base, log, k, bad, w, crc32);
    } else {
      OthersAdded(ih, base, log, k, bad, j, w, crc32);
      PutAllOne(Kept(log, k, j), log[j]);
    }
  }

  lemma {:induction false} DamagedEntries(ih: Hex, base: int, log: seq<Record>, k: nat, bad: seq<byte>, j: nat, w: nat,
                                          size: nat, crc32: Checksum)
    requires w > 0 && size == ZmsAteSize(w) && Holds(ih, base, log, w, crc32) && Detectable(log, k, bad, crc32)
    requires j <= |log| && 4 * size <= SETTINGS_SECTOR_SIZE
    ensures var sector := ReadBytes(Damaged(ih, base, log, k, bad, w), base, SETTINGS_SECTOR_SIZE);
            DamagedWalk(sector, log, k, j, size, crc32) == DamagedWalk(sector, log, k, |log|, size, crc32)
    decreases |log| - j
  {
    hide DamagedWalk, ReadBytes, ZmsAteSize, Holds, Damaged;
    if j < |log| {
      DamagedStep(ih, base, log, k, bad, j, w, size, crc32);
      DamagedEntries(ih, base, log, k, bad, j + 1, w, size, crc32);
    }
  }

  lemma DamagedTop(sector: seq<byte>, log: seq<Record>, k: nat, size: nat, crc32: Checksum)
    requires size >= ATE_SIZE && 4 * size <= |sector| == SETTINGS_SECTOR_SIZE && k < |log|
    ensures DamagedWalk(sector, log, k, 0, size, crc32) ==
            ParseAtes(sector, size, SETTINGS_SECTOR_SIZE - 3 * size, FIRST_CYCLE, crc32, [])
    ensures AllSkipped(sector, |log|, size, crc32) ==>
              DamagedWalk(sector, log, k, |log|, size, crc32) == Some(PutAll([], Without(log, k)))
  {
    hide ParseAtes, AllSkipped;
    KeptNext(log, k, |log| - 1);
    AtePosTop(Zms, |log|, size);
    assert Kept(log, k, 0) == [];
    if AllSkipped(sector, |log|, size, crc32) {
      WalkSkipped(sector, |log|, size, crc32, PutAll([], Without(log, k)));
    }
  }

  /** A damaged image parses to a sector without the damaged record. */
  lemma DamagedParsed(ih: Hex, base: int, log: seq<Record>, k: nat, bad: seq<byte>, w: nat, crc32: Checksum)
    requires w > 0 && Holds(ih, base, log, w, crc32) && Detectable(log, k, bad, crc32)
    requires NoFakeEntries(ReadBytes(Damaged(ih, base, log, k, bad, w), base, SETTINGS_SECTOR_SIZE), log, w)
    ensures 2 * ZmsAteSize(w) <= SETTINGS_SECTOR_SIZE
    ensures Framed(Damaged(ih, base, log, k, bad, w), base, log, w)
    ensures ParseSector(ReadBytes(Damaged(ih, base, log, k, bad, w), base, SETTINGS_SECTOR_SIZE), ZmsAteSize(w),
                        crc32) == Some(SectorFromWalk(Some(PutAll([], Without(log, k)))))
  {
    hide Holds, Framed, Damaged, ReadBytes, ZmsAteSize, Header, ParseSector, ParseAtes, DamagedWalk, AllSkipped,
      NoFakeEntries, SectorFromWalk, PutAll, Without;
    var h := Damaged(ih, base, log, k, bad, w);
    var sector := ReadBytes(h, base, SETTINGS_SECTOR_SIZE);
    HoldsFrame(ih, base, log, w, crc32);
    DamagedFramed(ih, base, log, k, bad, w);
    RoomFor(h, base, log, w);
    HeaderSlots(h, base, log, w);
    ParseSectorByParts(sector, ZmsAteSize(w), crc32);
    NothingBelow(h, base, log, w, crc32);
    DamagedTop(sector, log, k, ZmsAteSize(w), crc32);
    DamagedEntries(ih, base, log, k, bad, 0, w, ZmsAteSize(w), crc32);
  }

  /** Reading a damaged image gives the settings of the other records. */
  lemma DamagedRecordDropped(ih: Hex, base: int, log: seq<Record>, k: nat, bad: seq<byte>, w: nat, crc32: Checksum,
                             extra: nat)
    requires w > 0 && Holds(ih, base, log, w, crc32) && Detectable(log, k, bad, crc32)
    requires NoFakeEntries(ReadBytes(Damaged(ih, base, log, k, bad, w), base, SETTINGS_SECTOR_SIZE), log, w)
    ensures 2 * ZmsAteSize(w) <= SETTINGS_SECTOR_SIZE
    ensures ReadImage(Damaged(ih, base, log, k, bad, w), base, w, crc32, extra) ==
            Returns(if |log| == 1 then None else Some(SettingsOf(IDS, PutAll([], Without(log, k)))))
  {
    assert Without(log, k) == [] <==> |log| == 1;
    hide Holds, Framed, Damaged, ReadBytes, ZmsAteSize, ParseSector, NoFakeEntries, SectorFromWalk, PutAll, Without,
      ReadImage, SettingsOf;
    DamagedParsed(ih, base, log, k, bad, w, crc32);
    ReadByWalk(Damaged(ih, base, log, k, bad, w), base, log, w, crc32, extra, Some(PutAll([], Without(log, k))));
    WrittenTwice(Without(log, k));
  }

  lemma WrittenTwice(log: seq<Record>)
    ensures PutAll([], PutAll([], log)) == PutAll([], log)
    ensures PutAll([], log) == [] <==> log == []
  {
    assert log == [] ==> PutAll([], log) == [];
    hide PutAll;
    PutAllDistinct([], log);
    CopyDict(PutAll([], log));
    if log != [] {
      PutAllGrows([], log);
    }
  }

  // ----- Dictionaries ------------------------------------------------------------------------

  /** The image of a dictionary in which a long value (`part` 0) or name (1) of setting `i` was damaged. */
  function DamagedKv(ih: Hex, base: int, kv: Settings, i: nat, part: nat, bad: seq<byte>, w: nat): Hex
    requires w > 0 && KvFits(kv, w) && i < |kv| && part < 2
  {
    Damaged(ih, base, KvLog(IDS, kv), 3 * i + part, bad, w)
  }

  /** The damage can be detected, and it does not imitate an entry. */
  ghost predicate PlainDamage(ih: Hex, base: int, kv: Settings, i: nat, part: nat, bad: seq<byte>, w: nat,
                              crc32: Checksum)
    requires w > 0 && KvFits(kv, w) && i < |kv| && part < 2
  {
    && Detectable(KvLog(IDS, kv), 3 * i + part, bad, crc32)
    && NoFakeEntries(ReadBytes(DamagedKv(ih, base, kv, i, part, bad, w), base, SETTINGS_SECTOR_SIZE), KvLog(IDS, kv),
                     w)
  }

  /** The settings that the records without those of the damaged name or value stand for. */
  function SettingsWithout(kv: Settings, i: nat, part: nat): Settings
    requires |kv| < SETTINGS_SECTOR_SIZE && i < |kv| && part < 2
  {
    SettingsOf(IDS, PutAll([], Without(KvLog(IDS, kv), 3 * i + part)))
  }

  lemma DamagedKvRead(ih: Hex, base: int, kv: Settings, i: nat, part: nat, bad: seq<byte>, w: nat, crc32: Checksum,
                      extra: nat)
    requires w > 0 && KvFits(kv, w) && Holds(ih, base, KvLog(IDS, kv), w, crc32)
    requires i < |kv| && part < 2 && PlainDamage(ih, base, kv, i, part, bad, w, crc32)
    ensures 2 * ZmsAteSize(w) <= SETTINGS_SECTOR_SIZE
    ensures ReadImage(DamagedKv(ih, base, kv, i, part, bad, w), base, w, crc32, extra) ==
            Returns(Some(SettingsWithout(kv, i, part)))
  {
    hide Holds, Damaged, ReadBytes, ZmsAteSize, NoFakeEntries, PutAll, Without, ReadImage, SettingsOf, KvLog, Fits;
    DamagedRecordDropped(ih, base, KvLog(IDS, kv), 3 * i + part, bad, w, crc32, extra);
  }

  lemma WithoutReadsBack(kv: Settings, i: nat, part: nat)
    requires |kv| < SETTINGS_SECTOR_SIZE && DistinctKeys(kv) && i < |kv| && part < 2
    ensures ReadsBack(Returns(Some(SettingsWithout(kv, i, part))), Without(kv, i))
  {
    hide SettingsOf, PutAll, SameDict, Readable, Without, KvLog, DistinctKeys;
    OthersLeft(IDS, kv, i, part);
  }

  /**
   If the bytes of a long value or name are replaced by others with another checksum,
   reading gives all other settings, and not that one.
   */
  lemma DamagedSettingLost(ih: Hex, base: int, kv: Settings, i: nat, part: nat, bad: seq<byte>, w: nat,
                           crc32: Checksum, extra: nat)
    requires w > 0 && DistinctKeys(kv) && KvFits(kv, w) && Holds(ih, base, KvLog(IDS, kv), w, crc32)
    requires i < |kv| && part < 2 && PlainDamage(ih, base, kv, i, part, bad, w, crc32)
    ensures 2 * ZmsAteSize(w) <= SETTINGS_SECTOR_SIZE
    ensures ReadsBack(ReadImage(DamagedKv(ih, base, kv, i, part, bad, w), base, w, crc32, extra), Without(kv, i))
  {
    DamagedKvRead(ih, base, kv, i, part, bad, w, crc32, extra);
    hide *;
    WithoutReadsBack(kv, i, part);
  }
}
