/**
 Damaged entries: what the reader makes of an NVS image in which the entry of one
 record was replaced by other bytes.
 */
module NvsDamage {
  import opened Wrappers
  import opened Bytes
  import opened OrderedDict
  import opened HexImage
  import opened SectorLayout
  import opened SettingsCore
  import opened SettingsTheorems
  import opened SettingsReading
  import opened SettingsDamage
  import opened NvsAte
  import opened NvsSettings
  import Crc8

  /** The image with `bad` in the place of entry `k`. */
  function Damaged(ih: Hex, base: int, k: nat, bad: seq<byte>, w: nat): Hex
    requires w > 0
  {
    FromBytes(ih, bad, base + AtePos(Nvs, k, AteSize(w)))
  }

  /** The entry looks erased, is not valid, contradicts the records before it or the entries, or none of these. */
  datatype Verdict = Ends | Skipped | Contradicts | Accepted

  function Judge(log: seq<Record>, k: nat, bad: seq<byte>, w: nat): Verdict
    requires w > 0 && k < |log| && |bad| >= ATE_LEN_MIN
  {
    var offset, len := FromLe16(bad[2..4]), FromLe16(bad[4..6]);
    if forall i :: 0 <= i < |bad| ==> bad[i] == 0xff then Ends
    else if Crc8.Crc8(bad[..7]) != bad[7] || offset >= SETTINGS_SECTOR_SIZE - |bad| then Skipped
    else if offset < DataPtr(log, k, w) || offset + len >= AtePos(Nvs, k, AteSize(w)) then Contradicts
    else Accepted
  }

  // ----- The walk ---------------------------------------------------------------------

  lemma OtherRecordAt(ih: Hex, base: int, log: seq<Record>, k: nat, bad: seq<byte>, j: nat, w: nat)
    requires w > 0 && Fits(Nvs, log, w) && k < |log| && |bad| == AteSize(w)
    requires j < |log| && j != k && RecordAt(ih, base, log, j, w)
    ensures RecordAt(Damaged(ih, base, k, bad, w), base, log, j, w)
  {
    EntryPlace(log, k, w);
    EntryPlace(log, j, w);
    EntriesApart(log, k, j, w);
    hide ReadBytes, FromBytes, AtePos, DataEnd, Serialize, AteSize, Fits;
    var at := base + AtePos(Nvs, k, AteSize(w));
    ReadElsewhere(ih, bad, at, base + AtePos(Nvs, j, AteSize(w)), AteSize(w));
    ReadElsewhere(ih, bad, at, base + DataEnd(Nvs, log[..j], w), |log[j].1|);
  }

  lemma EntriesApart(log: seq<Record>, k: nat, j: nat, w: nat)
    requires w > 0 && Fits(Nvs, log, w) && k < |log| && j < |log| && j != k
    ensures var size := AteSize(w);
            || AtePos(Nvs, j, size) + size <= AtePos(Nvs, k, size)
            || AtePos(Nvs, k, size) + size <= AtePos(Nvs, j, size)
    ensures DataEnd(Nvs, log[..j], w) + |log[j].1| <= AtePos(Nvs, k, AteSize(w))
  {
    hide AteSize;
    if j < k {
      AtePosBounds(Nvs, j, k, AteSize(w));
    } else {
      AtePosBounds(Nvs, k, j, AteSize(w));
    }
    AtePosBounds(Nvs, k, |log|, AteSize(w));
    DataEndBounds(Nvs, log, j, w);
  }

  lemma DamagedPlace(log: seq<Record>, k: nat, w: nat)
    requires w > 0 && Fits(Nvs, log, w) && k < |log|
    ensures 0 <= AtePos(Nvs, k, AteSize(w)) && AtePos(Nvs, k, AteSize(w)) + 2 * AteSize(w) <= SETTINGS_SECTOR_SIZE
    ensures DataPtr(log, k, w) <= AtePos(Nvs, k, AteSize(w))
  {
    EntryPlace(log, k, w);
    DataPtrBound(log, k, w);
    hide AtePos, DataEnd, DataPtr, AteSize, Fits;
  }

  /** The entry `k` of a damaged image. */
  lemma DamagedEntry(ih: Hex, base: int, k: nat, bad: seq<byte>, w: nat, ptr: nat)
    requires w > 0 && |bad| == AteSize(w) && ptr == AtePos(Nvs, k, AteSize(w)) && ptr + |bad| <= SETTINGS_SECTOR_SIZE
    ensures ReadBytes(Damaged(ih, base, k, bad, w), base, SETTINGS_SECTOR_SIZE)[ptr..ptr + |bad|] == bad
  {
    hide ReadBytes, FromBytes, AtePos, AteSize;
    ReadWritten(ih, bad, base + ptr);
    SliceOfSector(Damaged(ih, base, k, bad, w), base, ptr, |bad|);
  }

  lemma DamagedRest(ih: Hex, base: int, log: seq<Record>, k: nat, bad: seq<byte>, w: nat)
    requires w > 0 && Fits(Nvs, log, w) && RestErased(ih, base, log, w) && k < |log| && |bad| == AteSize(w)
    ensures RestErased(Damaged(ih, base, k, bad, w), base, log, w)
  {
    AtePosBounds(Nvs, k, |log|, AteSize(w));
    hide AtePos, DataEnd, AteSize;
  }

  lemma PrefixStep(ih: Hex, base: int, log: seq<Record>, k: nat, bad: seq<byte>, j: nat, w: nat, size: nat)
    requires w > 0 && size == AteSize(w) && Holds(ih, base, log, w) && PlainIds(log)
    requires j < k < |log| && |bad| == size && 2 * size <= SETTINGS_SECTOR_SIZE
    ensures var sector := ReadBytes(Damaged(ih, base, k, bad, w), base, SETTINGS_SECTOR_SIZE);
            WalkFrom(sector, log, j, w) == WalkFrom(sector, log, j + 1, w)
  {
    hide Holds, Damaged, ReadBytes, AtePos, AteSize, Put, PutAll, ParseAtes, DataPtr, DataEnd, PlainIds, RecordAt,
      Fits;
    HoldsRecord(ih, base, log, j, w);
    OtherRecordAt(ih, base, log, k, bad, j, w);
    PointersNext(log, j, w, size);
    DataPtrBound(log, j, w);
    PutAllNext(log, j);
    ParseEntry(Damaged(ih, base, k, bad, w), base, log, j, w, size, AtePos(Nvs, j, size) + size,
               AtePos(Nvs, j + 1, size) + size, DataPtr(log, j, w), DataPtr(log, j + 1, w), PutAll([], log[..j]),
               PutAll([], log[..j + 1]));
  }

  /** Entries before the damaged one are read as they were. */
  lemma {:induction false} DamagedPrefix(ih: Hex, base: int, log: seq<Record>, k: nat, bad: seq<byte>, j: nat, w: nat,
                                         size: nat)
    requires w > 0 && size == AteSize(w) && Holds(ih, base, log, w) && PlainIds(log)
    requires j <= k < |log| && |bad| == size && 2 * size <= SETTINGS_SECTOR_SIZE
    ensures var sector := ReadBytes(Damaged(ih, base, k, bad, w), base, SETTINGS_SECTOR_SIZE);
            WalkFrom(sector, log, j, w) == WalkFrom(sector, log, k, w)
    decreases k - j
  {
    hide Holds, Damaged, ReadBytes, AteSize, PlainIds, WalkFrom;
    if j < k {
      PrefixStep(ih, base, log, k, bad, j, w, size);
      DamagedPrefix(ih, base, log, k, bad, j + 1, w, size);
    }
  }

  /** Where the data pointer is when entry `k` was skipped and the entries up to `j` were read. */
  function PtrBehind(log: seq<Record>, k: nat, j: nat, w: nat): nat
    requires w > 0 && k < j <= |log|
  {
    if j == k + 1 then DataPtr(log, k, w) else DataPtr(log, j, w)
  }

  lemma PtrBehindBound(log: seq<Record>, k: nat, j: nat, w: nat)
    requires w > 0 && k < j <= |log|
    ensures PtrBehind(log, k, j, w) <= DataEnd(Nvs, log[..j], w)
  {
    DataPtrBound(log, k, w);
    DataPtrBound(log, j, w);
    DataEndBounds(Nvs, log, k, w);
    hide DataEnd, DataPtr;
  }

  /** The walk from entry `j` on, when entry `k` was skipped. */
  function WalkBehind(sector: seq<byte>, log: seq<Record>, k: nat, j: nat, w: nat): Option<Records>
    requires w > 0 && 2 * AteSize(w) <= |sector| == SETTINGS_SECTOR_SIZE && k < j <= |log|
  {
    AtePosTop(Nvs, j, AteSize(w));
    ParseAtes(sector, AteSize(w), AtePos(Nvs, j, AteSize(w)) + AteSize(w), PtrBehind(log, k, j, w),
              PutAll([], Without(log[..j], k)))
  }

  lemma BehindNext(log: seq<Record>, k: nat, j: nat, w: nat)
    requires w > 0 && k < j < |log|
    ensures PtrBehind(log, k, j + 1, w) == DataEnd(Nvs, log[..j], w) + |log[j].1|
    ensures PutAll([], Without(log[..j + 1], k)) == Put(PutAll([], Without(log[..j], k)), log[j].0, log[j].1)
  {
    assert log[..j + 1] == log[..j] + [log[j]];
    assert Without(log[..j + 1], k) == Without(log[..j], k) + [log[j]];
    hide DataEnd, Without, Put;
    PutAllAppend([], Without(log[..j], k), [log[j]]);
  }

  lemma SuffixStep(ih: Hex, base: int, log: seq<Record>, k: nat, bad: seq<byte>, j: nat, w: nat, size: nat)
    requires w > 0 && size == AteSize(w) && Holds(ih, base, log, w) && PlainIds(log)
    requires k < j < |log| && |bad| == size && 2 * size <= SETTINGS_SECTOR_SIZE
    ensures var sector := ReadBytes(Damaged(ih, base, k, bad, w), base, SETTINGS_SECTOR_SIZE);
            WalkBehind(sector, log, k, j, w) == WalkBehind(sector, log, k, j + 1, w)
  {
    hide Holds, Damaged, ReadBytes, AtePos, AteSize, Put, PutAll, ParseAtes, PtrBehind, DataEnd, PlainIds, RecordAt,
      Fits, Without;
    PtrBehindBound(log, k, j, w);
    HoldsRecord(ih, base, log, j, w);
    OtherRecordAt(ih, base, log, k, bad, j, w);
    PointersNext(log, j, w, size);
    BehindNext(log, k, j, w);
    ParseEntry(Damaged(ih, base, k, bad, w), base, log, j, w, size, AtePos(Nvs, j, size) + size,
               AtePos(Nvs, j + 1, size) + size, PtrBehind(log, k, j, w), PtrBehind(log, k, j + 1, w),
               PutAll([], Without(log[..j], k)), PutAll([], Without(log[..j + 1], k)));
  }

  lemma SuffixEnd(ih: Hex, base: int, log: seq<Record>, k: nat, bad: seq<byte>, w: nat, size: nat)
    requires w > 0 && size == AteSize(w) && Holds(ih, base, log, w) && k < |log|
    requires |bad| == size && 2 * size <= SETTINGS_SECTOR_SIZE
    ensures WalkBehind(ReadBytes(Damaged(ih, base, k, bad, w), base, SETTINGS_SECTOR_SIZE), log, k, |log|, w) ==
            Some(PutAll([], Without(log, k)))
  {
    assert log[..|log|] == log;
    hide Holds, Damaged, ReadBytes, AtePos, AteSize, PutAll, ParseAtes, PtrBehind, DataEnd, Fits, RestErased, Without;
    PtrBehindBound(log, k, |log|, w);
    HoldsFrame(ih, base, log, w);
    DamagedRest(ih, base, log, k, bad, w);
    ParseEnd(Damaged(ih, base, k, bad, w), base, log, w, size, AtePos(Nvs, |log|, size) + size,
             PtrBehind(log, k, |log|, w), PutAll([], Without(log, k)));
  }

  /** Entries behind a skipped one are read as they were. */
  lemma {:induction false} DamagedSuffix(ih: Hex, base: int, log: seq<Record>, k: nat, bad: seq<byte>, j: nat, w: nat,
                                         size: nat)
    requires w > 0 && size == AteSize(w) && Holds(ih, base, log, w) && PlainIds(log)
    requires k < j <= |log| && |bad| == size && 2 * size <= SETTINGS_SECTOR_SIZE
    ensures WalkBehind(ReadBytes(Damaged(ih, base, k, bad, w), base, SETTINGS_SECTOR_SIZE), log, k, j, w) ==
            Some(PutAll([], Without(log, k)))
    decreases |log| - j
  {
    hide Holds, Damaged, ReadBytes, AteSize, PutAll, PlainIds, Without, WalkBehind;
    if j < |log| {
      SuffixStep(ih, base, log, k, bad, j, w, size);
      DamagedSuffix(ih, base, log, k, bad, j + 1, w, size);
    } else {
      SuffixEnd(ih, base, log, k, bad, w, size);
    }
  }

  /** The verdict in the terms of the reader. */
  lemma JudgeIs(log: seq<Record>, k: nat, bad: seq<byte>, w: nat)
    requires w > 0 && k < |log| && |bad| >= ATE_LEN_MIN
    ensures var ate := Deserialize(bad);
            Judge(log, k, bad, w) ==
            if !ate.IsPopulated() then Ends
            else if !ate.IsValid() then Skipped
            else if ate.dataOffset < DataPtr(log, k, w)
                    || ate.dataOffset + ate.dataLen >= AtePos(Nvs, k, AteSize(w)) then Contradicts
            else Accepted
  {
    assert (forall i :: 0 <= i < |bad| ==> bad[i] == 0xff) <==> bad == Erased(|bad|);
    hide AtePos, DataPtr, FromLe16, Crc8.Crc8, AteSize;
  }

  /** What the walk makes of the damaged entry itself. */
  lemma JudgedEntry(sector: seq<byte>, log: seq<Record>, k: nat, bad: seq<byte>, w: nat, ptr: nat, records: Records)
    requires w > 0 && |bad| == AteSize(w) && k < |log| && |sector| == SETTINGS_SECTOR_SIZE
    requires ptr == AtePos(Nvs, k, AteSize(w)) && ptr + 2 * |bad| <= SETTINGS_SECTOR_SIZE
    requires DataPtr(log, k, w) <= ptr && sector[ptr..ptr + |bad|] == bad
    ensures Judge(log, k, bad, w) == Ends ==>
              ParseAtes(sector, |bad|, ptr + |bad|, DataPtr(log, k, w), records) == Some(records)
    ensures Judge(log, k, bad, w) == Skipped ==>
              ParseAtes(sector, |bad|, ptr + |bad|, DataPtr(log, k, w), records) ==
              ParseAtes(sector, |bad|, ptr, DataPtr(log, k, w), records)
    ensures Judge(log, k, bad, w) == Contradicts ==>
              ParseAtes(sector, |bad|, ptr + |bad|, DataPtr(log, k, w), records) == None
  {
    JudgeIs(log, k, bad, w);
    ParseAtesIs(sector, |bad|, ptr + |bad|, DataPtr(log, k, w), records);
    hide ParseAtes, AtePos, DataPtr, Put, AteSize, Judge, Deserialize, Ate.IsPopulated, Ate.IsValid;
  }

  /** The bytes of the damaged sector. */
  function DamagedSector(ih: Hex, base: int, k: nat, bad: seq<byte>, w: nat): (sector: seq<byte>)
    requires w > 0
    ensures |sector| == SETTINGS_SECTOR_SIZE
  {
    ReadBytes(Damaged(ih, base, k, bad, w), base, SETTINGS_SECTOR_SIZE)
  }

  /** The records that the walk over a sector gives. */
  function Walk(sector: seq<byte>, size: nat): Option<Records>
    requires |sector| == SETTINGS_SECTOR_SIZE && ATE_LEN_MIN <= size <= SETTINGS_SECTOR_SIZE
  {
    ParseAtes(sector, size, SETTINGS_SECTOR_SIZE - size, 0, [])
  }

  lemma WalkToEntry(ih: Hex, base: int, log: seq<Record>, k: nat, bad: seq<byte>, w: nat, ptr: nat)
    requires w > 0 && Holds(ih, base, log, w) && PlainIds(log) && k < |log| && |bad| == AteSize(w)
    requires ptr == AtePos(Nvs, k, AteSize(w)) && ptr + 2 * |bad| <= SETTINGS_SECTOR_SIZE
    ensures Walk(DamagedSector(ih, base, k, bad, w), |bad|) ==
            ParseAtes(DamagedSector(ih, base, k, bad, w), |bad|, ptr + |bad|, DataPtr(log, k, w), PutAll([], log[..k]))
  {
    hide Holds, Damaged, ReadBytes, AtePos, AteSize, PutAll, ParseAtes, DataPtr, PlainIds;
    WalkStart(DamagedSector(ih, base, k, bad, w), log, w);
    DamagedPrefix(ih, base, log, k, bad, 0, w, |bad|);
  }

  lemma WalkBehindEntry(ih: Hex, base: int, log: seq<Record>, k: nat, bad: seq<byte>, w: nat, ptr: nat)
    requires w > 0 && Holds(ih, base, log, w) && PlainIds(log) && k < |log| && |bad| == AteSize(w)
    requires ptr == AtePos(Nvs, k, AteSize(w)) && ptr + 2 * |bad| <= SETTINGS_SECTOR_SIZE
    ensures ParseAtes(DamagedSector(ih, base, k, bad, w), |bad|, ptr, DataPtr(log, k, w), PutAll([], log[..k])) ==
            Some(PutAll([], Without(log, k)))
  {
    PointersNext(log, k, w, |bad|);
    assert Without(log[..k + 1], k) == log[..k];
    hide Holds, Damaged, ReadBytes, AtePos, AteSize, PutAll, ParseAtes, DataPtr, PlainIds, Without;
    DamagedSuffix(ih, base, log, k, bad, k + 1, w, |bad|);
  }

  /** The records that the walk over a damaged image gives. */
  lemma DamagedWalk(ih: Hex, base: int, log: seq<Record>, k: nat, bad: seq<byte>, w: nat)
    requires w > 0 && Holds(ih, base, log, w) && PlainIds(log) && k < |log| && |bad| == AteSize(w)
    ensures 2 * |bad| <= SETTINGS_SECTOR_SIZE
    ensures Judge(log, k, bad, w) == Ends ==>
              Walk(DamagedSector(ih, base, k, bad, w), |bad|) == Some(PutAll([], log[..k]))
    ensures Judge(log, k, bad, w) == Skipped ==>
              Walk(DamagedSector(ih, base, k, bad, w), |bad|) == Some(PutAll([], Without(log, k)))
    ensures Judge(log, k, bad, w) == Contradicts ==> Walk(DamagedSector(ih, base, k, bad, w), |bad|) == None
  {
    hide *;
    HoldsFrame(ih, base, log, w);
    DamagedPlace(log, k, w);
    var ptr := AtePos(Nvs, k, AteSize(w));
    EntryInSector(ih, base, k, bad, w, ptr);
    WalkToEntry(ih, base, log, k, bad, w, ptr);
    JudgedEntry(DamagedSector(ih, base, k, bad, w), log, k, bad, w, ptr, PutAll([], log[..k]));
    if Judge(log, k, bad, w) == Skipped {
      WalkBehindEntry(ih, base, log, k, bad, w, ptr);
    }
  }

  lemma EntryInSector(ih: Hex, base: int, k: nat, bad: seq<byte>, w: nat, ptr: nat)
    requires w > 0 && |bad| == AteSize(w) && ptr == AtePos(Nvs, k, AteSize(w)) && ptr + |bad| <= SETTINGS_SECTOR_SIZE
    ensures DamagedSector(ih, base, k, bad, w)[ptr..ptr + |bad|] == bad
  {
    hide Damaged, ReadBytes, AtePos, AteSize;
    DamagedEntry(ih, base, k, bad, w, ptr);
  }

  // ----- The sector ------------------------------------------------------------------------

  lemma OpenOrNothing(sector: seq<byte>, size: nat)
    requires |sector| == SETTINGS_SECTOR_SIZE && ATE_LEN_MIN <= size <= SETTINGS_SECTOR_SIZE
    requires sector != Erased(SETTINGS_SECTOR_SIZE) && sector[SETTINGS_SECTOR_SIZE - size..] == Erased(size)
    ensures ParseSector(sector, size) ==
            match Walk(sector, size)
            case None => Sector(NA, None)
            case Some(records) => if records == [] then Sector(NA, None) else Sector(OPEN, Some(records))
  {
    hide ParseAtes, IsCloseAte, Deserialize, Ate.IsPopulated;
    LastSlotErased(size);
  }

  /**
   A sector with a damaged entry: one that is not valid costs its own record only; one
   that contradicts the others makes the reader give the sector up; and one that looks
   erased hides all records from there on.
   */
  lemma DamagedSectorParsed(ih: Hex, base: int, log: seq<Record>, k: nat, bad: seq<byte>, w: nat)
    requires w > 0 && Holds(ih, base, log, w) && PlainIds(log) && k < |log| && |bad| == AteSize(w)
    ensures |bad| <= SETTINGS_SECTOR_SIZE
    ensures Judge(log, k, bad, w) == Ends && k > 0 ==>
              ParseSector(DamagedSector(ih, base, k, bad, w), |bad|) == Sector(OPEN, Some(PutAll([], log[..k])))
    ensures Judge(log, k, bad, w) == Skipped ==>
              ParseSector(DamagedSector(ih, base, k, bad, w), |bad|) ==
              if |log| == 1 then Sector(NA, None) else Sector(OPEN, Some(PutAll([], Without(log, k))))
    ensures Judge(log, k, bad, w) == Contradicts ==>
              ParseSector(DamagedSector(ih, base, k, bad, w), |bad|) == Sector(NA, None)
  {
    assert Without(log, k) == [] <==> |log| == 1;
    assert log[..k] == [] <==> k == 0;
    hide *;
    DamagedWalk(ih, base, log, k, bad, w);
    SomePut(log[..k]);
    SomePut(Without(log, k));
    if Judge(log, k, bad, w) != Ends || k > 0 {
      DamagedSlots(ih, base, log, k, bad, w);
      OpenOrNothing(DamagedSector(ih, base, k, bad, w), |bad|);
    }
  }

  /** A damaged sector is not erased, but the place of its close entry is. */
  lemma DamagedSlots(ih: Hex, base: int, log: seq<Record>, k: nat, bad: seq<byte>, w: nat)
    requires w > 0 && Holds(ih, base, log, w) && PlainIds(log) && k < |log| && |bad| == AteSize(w)
    requires Judge(log, k, bad, w) != Ends || k > 0
    ensures |bad| <= SETTINGS_SECTOR_SIZE
    ensures DamagedSector(ih, base, k, bad, w) != Erased(SETTINGS_SECTOR_SIZE)
    ensures DamagedSector(ih, base, k, bad, w)[SETTINGS_SECTOR_SIZE - |bad|..] == Erased(|bad|)
  {
    hide Holds, Damaged, ReadBytes, AteSize, PlainIds, Fits, RestErased, Judge;
    HoldsFrame(ih, base, log, w);
    DamagedRest(ih, base, log, k, bad, w);
    LastSlotFree(Damaged(ih, base, k, bad, w), base, log, w);
    DamagedNotErased(ih, base, log, k, bad, w);
  }

  lemma SomePut(log: seq<Record>)
    ensures PutAll([], log) == [] <==> log == []
  {
    assert log == [] ==> PutAll([], log) == [];
    if log != [] {
      PutAllGrows([], log);
    }
    hide PutAll;
  }

  /** The first entry tells the sector from an erased one. */
  lemma FirstEntryStays(ih: Hex, base: int, log: seq<Record>, k: nat, bad: seq<byte>, w: nat)
    requires w > 0 && Holds(ih, base, log, w) && PlainIds(log) && 0 < k < |log| && |bad| == AteSize(w)
    ensures DamagedSector(ih, base, k, bad, w) != Erased(SETTINGS_SECTOR_SIZE)
  {
    var h := Damaged(ih, base, k, bad, w);
    assert 0 <= log[0].0 < 0xff00;
    hide Holds, Damaged, ReadBytes, RecordAt, Fits, AtePos, DataEnd, AteSize, PlainIds, Serialize;
    HoldsRecord(ih, base, log, 0, w);
    OtherRecordAt(ih, base, log, k, bad, 0, w);
    EntryBytes(h, base, log, 0, w);
    NotErased(ReadBytes(h, base, SETTINGS_SECTOR_SIZE), AtePos(Nvs, 0, AteSize(w)), log[0].0,
              DataEnd(Nvs, log[..0], w), |log[0].1|, AteSize(w));
  }

  /** So does a damaged entry that does not look erased. */
  lemma DamagedEntrySeen(ih: Hex, base: int, log: seq<Record>, k: nat, bad: seq<byte>, w: nat)
    requires w > 0 && Fits(Nvs, log, w) && k < |log| && |bad| == AteSize(w) && Judge(log, k, bad, w) != Ends
    ensures DamagedSector(ih, base, k, bad, w) != Erased(SETTINGS_SECTOR_SIZE)
  {
    var i :| 0 <= i < |bad| && bad[i] != 0xff;
    hide Fits, AtePos, AteSize, DamagedSector, Judge;
    DamagedPlace(log, k, w);
    var ptr := AtePos(Nvs, k, AteSize(w));
    EntryInSector(ih, base, k, bad, w, ptr);
    var sector := DamagedSector(ih, base, k, bad, w);
    assert sector[ptr + i] == sector[ptr..ptr + |bad|][i];
  }

  lemma DamagedNotErased(ih: Hex, base: int, log: seq<Record>, k: nat, bad: seq<byte>, w: nat)
    requires w > 0 && Holds(ih, base, log, w) && PlainIds(log) && k < |log| && |bad| == AteSize(w)
    requires Judge(log, k, bad, w) != Ends || k > 0
    ensures DamagedSector(ih, base, k, bad, w) != Erased(SETTINGS_SECTOR_SIZE)
  {
    hide *;
    HoldsFrame(ih, base, log, w);
    if k > 0 {
      FirstEntryStays(ih, base, log, k, bad, w);
    } else {
      DamagedEntrySeen(ih, base, log, k, bad, w);
    }
  }

  /** The entry that was written for a record. */
  function EntryOf(log: seq<Record>, k: nat, w: nat): (s: seq<byte>)
    requires w > 0 && k < |log|
    requires 0 <= log[k].0 < TWO_16 && DataEnd(Nvs, log[..k], w) < TWO_16 && |log[k].1| < TWO_16
    ensures |s| == AteSize(w)
  {
    Serialize(log[k].0, DataEnd(Nvs, log[..k], w), |log[k].1|, AteSize(w))
  }

  /** Every change of a single byte of an entry, CRC included, costs the record only. */
  lemma SingleByteSkipped(ih: Hex, base: int, log: seq<Record>, k: nat, b: byte, i: nat, w: nat)
    requires w > 0 && Holds(ih, base, log, w) && PlainIds(log) && k < |log| && i < ATE_LEN_MIN
    ensures 0 <= log[k].0 < TWO_16 && DataEnd(Nvs, log[..k], w) < TWO_16 && |log[k].1| < TWO_16
    ensures b != EntryOf(log, k, w)[i] ==> Judge(log, k, EntryOf(log, k, w)[i := b], w) == Skipped
  {
    HoldsRecord(ih, base, log, k, w);
    EntryPlace(log, k, w);
    var off, len := DataEnd(Nvs, log[..k], w), |log[k].1|;
    var good := EntryOf(log, k, w);
    assert 0 <= log[k].0 < 0xff00 && len < 0x1000;
    hide DataEnd, AtePos, Holds, RecordAt, Fits, PlainIds, Serialize, AteSize;
    if b != good[i] {
      AteRoundTrip(log[k].0, off, len, AteSize(w));
      AteLayout(log[k].0, off, len, AteSize(w));
      CorruptAteRejected(good, good[i := b], i);
      HighBytes(log[k].0, len, good);
    }
  }

  lemma HighBytes(id: nat, len: nat, s: seq<byte>)
    requires |s| >= ATE_LEN_MIN && id < 0xff00 && len < 0x1000
    requires FromLe(s[0..2]) == id && FromLe(s[4..6]) == len
    ensures s[1] != 0xff && s[5] != 0xff
  {
    FromLeTwo(s[0..2]);
    FromLeTwo(s[4..6]);
    assert s[0..2][1] == s[1] && s[4..6][1] == s[5];
  }

  // ----- Dictionaries ------------------------------------------------------------------------

  lemma KvBytes(kv: Settings, w: nat)
    requires w > 0 && KvFits(kv, w)
    ensures |kv| < SETTINGS_SECTOR_SIZE && FitsIds(IDS, kv)
  {
  }

  /** Reading an image of which the first sector is known. */
  lemma ReadBySector(ih: Hex, base: int, log: seq<Record>, w: nat, extra: nat, records: Records)
    requires w > 0 && Fits(Nvs, log, w) && RestErased(ih, base, log, w) && AteSize(w) <= SETTINGS_SECTOR_SIZE
    requires ParseSector(ReadBytes(ih, base, SETTINGS_SECTOR_SIZE), AteSize(w)) == Sector(OPEN, Some(records))
    ensures Read(ReadBytes(ih, base, SETTINGS_SECTOR_SIZE * (1 + extra)), AteSize(w)) ==
            Some(SettingsOf(IDS, PutAll([], records)))
  {
    hide ParseSector, ReadBytes, PutAll, AteSize, Fits, RestErased, SettingsOf, OrderSectors, ParseSettings;
    var m := ParseSectors(ReadBytes(ih, base, SETTINGS_SECTOR_SIZE * (1 + extra)), AteSize(w));
    SectorRead(ih, base, extra, 0);
    forall i | 0 < i < |m| ensures m[i].records.None? {
      SectorRead(ih, base, extra, i);
      BehindErased(ih, base, log, w, i);
      ErasedSectorParsed(AteSize(w));
    }
    OneSectorRead(IDS, m, records);
  }

  /**
   If the entry of the value (`part` 0) or name (1) of setting `i` is damaged so that it
   is not valid any more, reading gives all other settings, and not that one.
   */
  lemma DamagedEntryLost(ih: Hex, base: int, kv: Settings, i: nat, part: nat, bad: seq<byte>, w: nat, extra: nat)
    requires w > 0 && DistinctKeys(kv) && KvFits(kv, w) && Holds(ih, base, KvLog(IDS, kv), w)
    requires i < |kv| && part < 2 && |bad| == AteSize(w) && Judge(KvLog(IDS, kv), 3 * i + part, bad, w) == Skipped
    ensures |bad| <= SETTINGS_SECTOR_SIZE
    ensures var settings := Read(ReadBytes(Damaged(ih, base, 3 * i + part, bad, w), base,
                                           SETTINGS_SECTOR_SIZE * (1 + extra)), |bad|);
            settings.Some? && SameDict(settings.value, Readable(Without(kv, i)))
  {
    var log, k := KvLog(IDS, kv), 3 * i + part;
    var left := Without(log, k);
    KvBytes(kv, w);
    KvLogIds(kv);
    hide *;
    DamagedSectorParsed(ih, base, log, k, bad, w);
    DamagedFrame(ih, base, log, k, bad, w);
    ReadBySector(Damaged(ih, base, k, bad, w), base, log, w, extra, PutAll([], left));
    WrittenOnce(left);
    OthersLeft(IDS, kv, i, part);
  }

  lemma DamagedFrame(ih: Hex, base: int, log: seq<Record>, k: nat, bad: seq<byte>, w: nat)
    requires w > 0 && Holds(ih, base, log, w) && k < |log| && |bad| == AteSize(w)
    ensures Fits(Nvs, log, w) && RestErased(Damaged(ih, base, k, bad, w), base, log, w)
    ensures DamagedSector(ih, base, k, bad, w) == ReadBytes(Damaged(ih, base, k, bad, w), base, SETTINGS_SECTOR_SIZE)
  {
    hide Damaged, Holds, Fits, RestErased, ReadBytes, AteSize;
    HoldsFrame(ih, base, log, w);
    DamagedRest(ih, base, log, k, bad, w);
  }

  lemma WrittenOnce(log: seq<Record>)
    ensures PutAll([], PutAll([], log)) == PutAll([], log)
  {
    hide PutAll;
    PutAllDistinct([], log);
    CopyDict(PutAll([], log));
  }
}
