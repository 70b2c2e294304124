/** The NVS back end of the settings tool: sector parser and image writer. */
module NvsSettings {
  import opened Wrappers
  import opened Bytes
  import opened OrderedDict
  import opened HexImage
  import opened SectorLayout
  import opened SettingsCore
  import opened SettingsTheorems
  import opened NvsAte

  const IDS: Ids := Ids(0x8000, 0x4000)

  // ----- Reading -----------------------------------------------------------

  predicate IsCloseAte(ate: Ate)
    requires |ate.bytes| >= ATE_LEN_MIN
  {
    ate.IsValid() && ate.recordId == 0xffff && ate.dataLen == 0 &&
    (SETTINGS_SECTOR_SIZE - ate.dataOffset) % |ate.bytes| == 0
  }

  /** The walk down the entries from `atePtr`; None if an entry is inconsistent. */
  function ParseAtes(sector: seq<byte>, size: nat, atePtr: int, dataPtr: nat, records: Records): Option<Records>
    requires size >= ATE_LEN_MIN && atePtr + size <= |sector|
    decreases atePtr + size
  {
    if atePtr < 0 then Some(records)
    else
      var ptr := atePtr - size;
      if ptr < dataPtr then Some(records)
      else
        var ate := Deserialize(sector[ptr..ptr + size]);
        if !ate.IsPopulated() then Some(records)
        else if !ate.IsValid() then ParseAtes(sector, size, ptr, dataPtr, records)
        else if ate.dataOffset < dataPtr then None
        else if ate.dataOffset + ate.dataLen >= ptr then None
        else
          var end := ate.dataOffset + ate.dataLen;
          ParseAtes(sector, size, ptr, end, Put(records, ate.recordId, sector[ate.dataOffset..end]))
  }

  function ParseSector(sector: seq<byte>, size: nat): (result: Sector)
    requires ATE_LEN_MIN <= size <= |sector|
    ensures result.WellParsed()
  {
    if sector == Erased(SETTINGS_SECTOR_SIZE) then Sector(ERASED, None)
    else
      var atePtr := |sector| - size;
      var last := Deserialize(sector[atePtr..]);
      if !IsCloseAte(last) && last.IsPopulated() then Sector(NA, None)
      else
        match ParseAtes(sector, size, atePtr, 0, [])
        case None => Sector(NA, None)
        case Some(records) =>
          if IsCloseAte(last) then Sector(CLOSED, Some(records))
          else if records == [] then Sector(NA, None)
          else Sector(OPEN, Some(records))
  }

  function ParseSectors(bin: seq<byte>, size: nat): (m: seq<Sector>)
    requires ATE_LEN_MIN <= size <= SETTINGS_SECTOR_SIZE
    requires |bin| % SETTINGS_SECTOR_SIZE == 0
    ensures |m| == |bin| / SETTINGS_SECTOR_SIZE
  {
    seq(|bin| / SETTINGS_SECTOR_SIZE,
        i requires 0 <= i < |bin| / SETTINGS_SECTOR_SIZE => ParseSector(SectorBytes(bin, i), size))
  }

  /** `Settings.read` for an NVS partition. */
  function Read(bin: seq<byte>, size: nat): Option<Settings>
    requires ATE_LEN_MIN <= size <= SETTINGS_SECTOR_SIZE
    requires |bin| % SETTINGS_SECTOR_SIZE == 0
  {
    ParseSettings(IDS, OrderSectors(ParseSectors(bin, size)))
  }

  /** One step of the walk. */
  lemma ParseAtesIs(sector: seq<byte>, size: nat, atePtr: nat, dataPtr: nat, records: Records)
    requires size >= ATE_LEN_MIN && atePtr + size <= |sector|
    ensures var ptr := atePtr - size;
            ParseAtes(sector, size, atePtr, dataPtr, records) ==
            if ptr < dataPtr then Some(records)
            else
              var ate := Deserialize(sector[ptr..ptr + size]);
              var end := ate.dataOffset + ate.dataLen;
              if !ate.IsPopulated() then Some(records)
              else if !ate.IsValid() then ParseAtes(sector, size, ptr, dataPtr, records)
              else if ate.dataOffset < dataPtr || end >= ptr then None
              else ParseAtes(sector, size, ptr, end, Put(records, ate.recordId, sector[ate.dataOffset..end]))
  {
    hide Ate.IsValid, Ate.IsPopulated, Deserialize, Put;
  }

  /** The loop of `_parse_sector`; None where it gives the sector up. */
  method ParseAtesLoop(sector: seq<byte>, size: nat) returns (result: Option<Records>)
    requires ATE_LEN_MIN <= size <= |sector|
    ensures result == ParseAtes(sector, size, |sector| - size, 0, [])
  {
    hide Ate.IsValid, Ate.IsPopulated, Deserialize, Put, ParseAtes;
    var dataPtr: nat := 0;
    var records: Records := [];
    var atePtr: int := |sector| - size;
    while atePtr >= 0
      invariant atePtr + size <= |sector|
      invariant ParseAtes(sector, size, |sector| - size, 0, []) == ParseAtes(sector, size, atePtr, dataPtr, records)
      invariant atePtr < 0 ==> ParseAtes(sector, size, |sector| - size, 0, []) == Some(records)
      decreases atePtr
    {
      ParseAtesIs(sector, size, atePtr, dataPtr, records);
      atePtr := atePtr - size;
      if atePtr < dataPtr {
        break;
      }
      var ate := Deserialize(sector[atePtr..atePtr + size]);
      if !ate.IsPopulated() {
        break;
      }
      if !ate.IsValid() {
        continue;
      }
      if ate.dataOffset < dataPtr {
        return None;
      }
      if ate.dataOffset + ate.dataLen >= atePtr {
        return None;
      }
      records := Put(records, ate.recordId, sector[ate.dataOffset..ate.dataOffset + ate.dataLen]);
      dataPtr := ate.dataOffset + ate.dataLen;
    }
    result := Some(records);
  }

  /** `_parse_sector`. */
  method ParseSectorLoop(sector: seq<byte>, size: nat) returns (result: Sector)
    requires ATE_LEN_MIN <= size <= |sector|
    ensures result == ParseSector(sector, size)
  {
    hide IsCloseAte, Ate.IsPopulated, Deserialize, ParseAtes, Erased;
    if sector == Erased(SETTINGS_SECTOR_SIZE) {
      return Sector(ERASED, None);
    }
    var atePtr := |sector| - size;
    assert sector[atePtr..atePtr + size] == sector[atePtr..];
    var ate := Deserialize(sector[atePtr..atePtr + size]);
    var status := NA;
    if IsCloseAte(ate) {
      status := CLOSED;
    } else if !ate.IsPopulated() {
      status := OPEN;
    } else {
      return Sector(NA, None);
    }
    var records := ParseAtesLoop(sector, size);
    if records.None? {
      return Sector(NA, None);
    }
    if status == OPEN && |records.value| == 0 {
      return Sector(NA, None);
    }
    result := Sector(status, Some(records.value));
  }

  /** `Settings.read`: parse every sector, order them, map names to values. */
  method ReadPartition(bin: seq<byte>, size: nat) returns (settings: Option<Settings>)
    requires ATE_LEN_MIN <= size <= SETTINGS_SECTOR_SIZE
    requires |bin| % SETTINGS_SECTOR_SIZE == 0
    ensures settings == Read(bin, size)
  {
    hide ParseSector, OrderSectors, ParseSettings;
    var metadata := [];
    var count := |bin| / SETTINGS_SECTOR_SIZE;
    for i := 0 to count
      invariant metadata == ParseSectors(bin, size)[..i]
    {
      var sector := ParseSectorLoop(SectorBytes(bin, i), size);
      metadata := metadata + [sector];
    }
    var ordered := OrderSectorsInPlace(metadata);
    assert metadata == ParseSectors(bin, size);
    settings := ParseSettingsLoop(IDS, ordered);
  }

  // ----- The layout of a written sector --------------------------------------

  /** The `k`-th record of `log` and its entry are in place. */
  ghost predicate RecordAt(ih: Hex, base: int, log: seq<Record>, k: nat, w: nat)
    requires w > 0 && k < |log|
  {
    var (id, data) := log[k];
    var off := DataEnd(Nvs, log[..k], w);
    && 0 <= id < TWO_16 && off < TWO_16 && |data| < TWO_16
    && ReadBytes(ih, base + AtePos(Nvs, k, AteSize(w)), AteSize(w)) == Serialize(id, off, |data|, AteSize(w))
    && ReadBytes(ih, base + off, |data|) == data
  }

  /** Nothing is written outside the data and the entries of the first sector. */
  ghost predicate RestErased(ih: Hex, base: int, log: seq<Record>, w: nat)
    requires w > 0
  {
    forall a :: a in ih ==>
      || base <= a < base + DataEnd(Nvs, log, w)
      || base + AtePos(Nvs, |log|, AteSize(w)) + AteSize(w) <= a < base + SETTINGS_SECTOR_SIZE - AteSize(w)
  }

  /** The image holds the records of `log`, in order, and nothing else. */
  ghost predicate Holds(ih: Hex, base: int, log: seq<Record>, w: nat)
    requires w > 0
  {
    && Fits(Nvs, log, w)
    && RestErased(ih, base, log, w)
    && forall k :: 0 <= k < |log| ==> RecordAt(ih, base, log, k, w)
  }

  // ----- Parsing a written sector --------------------------------------------

  /** Where the parser's data pointer is after `k` records. */
  function DataPtr(log: seq<Record>, k: nat, w: nat): nat
    requires w > 0 && k <= |log|
  {
    if k == 0 then 0 else DataEnd(Nvs, log[..k - 1], w) + |log[k - 1].1|
  }

  lemma DataPtrBound(log: seq<Record>, k: nat, w: nat)
    requires w > 0 && k <= |log|
    ensures DataPtr(log, k, w) <= DataEnd(Nvs, log[..k], w)
  {
    if k > 0 {
      DataEndBounds(Nvs, log, k - 1, w);
    }
  }

  /** The records are populated: neither half of their IDs is 0xff. */
  predicate PlainIds(log: seq<Record>) {
    forall k :: 0 <= k < |log| ==> 0 <= log[k].0 < 0xff00
  }

  /** The `k`-th entry and its data lie apart within the sector. */
  lemma EntryPlace(log: seq<Record>, k: nat, w: nat)
    requires w > 0 && Fits(Nvs, log, w) && k < |log|
    ensures var size := AteSize(w);
            && 0 <= DataEnd(Nvs, log[..k], w)
            && DataEnd(Nvs, log[..k], w) + |log[k].1| <= AtePos(Nvs, k, size) - size
            && AtePos(Nvs, k, size) + 2 * size <= SETTINGS_SECTOR_SIZE
  {
    AtePosBounds(Nvs, k, |log|, AteSize(w));
    DataEndBounds(Nvs, log, k, w);
  }

  lemma EntryBytes(ih: Hex, base: int, log: seq<Record>, k: nat, w: nat)
    requires w > 0 && k < |log| && Fits(Nvs, log, w) && RecordAt(ih, base, log, k, w)
    ensures var size := AteSize(w);
            var sector := ReadBytes(ih, base, SETTINGS_SECTOR_SIZE);
            var ptr := AtePos(Nvs, k, size);
            var off := DataEnd(Nvs, log[..k], w);
            && 0 <= log[k].0 < TWO_16 && |log[k].1| < TWO_16
            && off + |log[k].1| <= ptr - size && ptr + 2 * size <= SETTINGS_SECTOR_SIZE
            && sector[ptr..ptr + size] == Serialize(log[k].0, off, |log[k].1|, size)
            && sector[off..off + |log[k].1|] == log[k].1
  {
    hide Serialize, AtePos, DataEnd, ReadBytes;
    EntryPlace(log, k, w);
    SliceOfSector(ih, base, AtePos(Nvs, k, AteSize(w)), AteSize(w));
    SliceOfSector(ih, base, DataEnd(Nvs, log[..k], w), |log[k].1|);
  }

  /** Parsing one more written entry adds its record. */
  lemma ParseEntry(ih: Hex, base: int, log: seq<Record>, k: nat, w: nat, size: nat, from: int, to: int,
                   dataPtr: nat, end: nat, records: Records, next: Records)
    requires w > 0 && size == AteSize(w) && PlainIds(log) && k < |log|
    requires Fits(Nvs, log, w) && RecordAt(ih, base, log, k, w)
    requires to == AtePos(Nvs, k, size) && from == to + size && next == Put(records, log[k].0, log[k].1)
    requires dataPtr <= DataEnd(Nvs, log[..k], w) && end == DataEnd(Nvs, log[..k], w) + |log[k].1|
    ensures from + size <= SETTINGS_SECTOR_SIZE
    ensures ParseAtes(ReadBytes(ih, base, SETTINGS_SECTOR_SIZE), size, from, dataPtr, records) ==
            ParseAtes(ReadBytes(ih, base, SETTINGS_SECTOR_SIZE), size, to, end, next)
  {
    hide Serialize, Deserialize, AtePos, DataEnd, ReadBytes, Put, RecordAt, AteSize, Ate.IsValid, Ate.IsPopulated, Fits;
    EntryBytes(ih, base, log, k, w);
    assert PlainIds(log) && 0 <= log[k].0 < 0xff00;
    AteRoundTrip(log[k].0, DataEnd(Nvs, log[..k], w), |log[k].1|, size);
    SerializePopulated(log[k].0, DataEnd(Nvs, log[..k], w), |log[k].1|, size);
    assert from - size == to;
  }

  lemma ErasedBlock(sector: seq<byte>, ptr: int, size: nat, from: int, dataPtr: nat, records: Records)
    requires size >= ATE_LEN_MIN && from == ptr + size && from + size <= |sector|
    requires dataPtr <= ptr ==> sector[ptr..ptr + size] == Erased(size)
    ensures ParseAtes(sector, size, from, dataPtr, records) == Some(records)
  {
    hide Ate.IsValid, Put;
    assert from - size == ptr;
  }

  /** Below the last written entry the flash is erased, or data begins. */
  lemma ParseEnd(ih: Hex, base: int, log: seq<Record>, w: nat, size: nat, from: int, dataPtr: nat, records: Records)
    requires w > 0 && size == AteSize(w) && Fits(Nvs, log, w) && RestErased(ih, base, log, w)
    requires from == AtePos(Nvs, |log|, size) + size && dataPtr <= DataEnd(Nvs, log, w)
    ensures from + size <= SETTINGS_SECTOR_SIZE
    ensures ParseAtes(ReadBytes(ih, base, SETTINGS_SECTOR_SIZE), size, from, dataPtr, records) == Some(records)
  {
    var ptr := AtePos(Nvs, |log|, size);
    AtePosTop(Nvs, |log|, size);
    hide AtePos, DataEnd, ReadBytes, AteSize, ParseAtes;
    SliceOfSector(ih, base, ptr, size);
    ErasedRead(ih, base + ptr, size);
    ErasedBlock(ReadBytes(ih, base, SETTINGS_SECTOR_SIZE), ptr, size, from, dataPtr, records);
  }

  lemma HoldsRecord(ih: Hex, base: int, log: seq<Record>, k: nat, w: nat)
    requires w > 0 && Holds(ih, base, log, w) && k < |log|
    ensures Fits(Nvs, log, w) && RecordAt(ih, base, log, k, w)
  {
    hide RecordAt, RestErased, Fits;
  }

  lemma HoldsFrame(ih: Hex, base: int, log: seq<Record>, w: nat)
    requires w > 0 && Holds(ih, base, log, w)
    ensures Fits(Nvs, log, w) && RestErased(ih, base, log, w)
  {
    hide RecordAt, RestErased, Fits;
  }

  /** The walk from the `k`-th entry on, after the entries before it. */
  function WalkFrom(sector: seq<byte>, log: seq<Record>, k: nat, w: nat): Option<Records>
    requires w > 0 && 2 * AteSize(w) <= |sector| == SETTINGS_SECTOR_SIZE && k <= |log|
  {
    AtePosTop(Nvs, k, AteSize(w));
    ParseAtes(sector, AteSize(w), AtePos(Nvs, k, AteSize(w)) + AteSize(w), DataPtr(log, k, w), PutAll([], log[..k]))
  }

  lemma PointersNext(log: seq<Record>, k: nat, w: nat, size: nat)
    requires w > 0 && k < |log|
    ensures AtePos(Nvs, k + 1, size) + size == AtePos(Nvs, k, size)
    ensures DataPtr(log, k + 1, w) == DataEnd(Nvs, log[..k], w) + |log[k].1|
  {
    hide DataEnd;
  }

  lemma WalkStep(ih: Hex, base: int, log: seq<Record>, k: nat, w: nat, size: nat)
    requires w > 0 && size == AteSize(w) && Holds(ih, base, log, w) && PlainIds(log) && k < |log|
    requires 2 * size <= SETTINGS_SECTOR_SIZE
    ensures var sector := ReadBytes(ih, base, SETTINGS_SECTOR_SIZE);
            WalkFrom(sector, log, k, w) == WalkFrom(sector, log, k + 1, w)
  {
    hide ParseAtes, Put, PutAll, ReadBytes, AteSize, Holds, AtePos, DataEnd, DataPtr, PlainIds, RecordAt, Fits;
    HoldsRecord(ih, base, log, k, w);
    PointersNext(log, k, w, size);
    DataPtrBound(log, k, w);
    PutAllNext(log, k);
    ParseEntry(ih, base, log, k, w, size, AtePos(Nvs, k, size) + size, AtePos(Nvs, k + 1, size) + size,
               DataPtr(log, k, w), DataPtr(log, k + 1, w), PutAll([], log[..k]), PutAll([], log[..k + 1]));
  }

  /** All records are read back. */
  lemma {:induction false} ParseWritten(ih: Hex, base: int, log: seq<Record>, k: nat, w: nat, size: nat)
    requires w > 0 && size == AteSize(w) && Holds(ih, base, log, w) && PlainIds(log) && k <= |log|
    requires 2 * size <= SETTINGS_SECTOR_SIZE
    ensures WalkFrom(ReadBytes(ih, base, SETTINGS_SECTOR_SIZE), log, k, w) == Some(PutAll([], log))
    decreases |log| - k
  {
    hide ReadBytes, AteSize, Holds, PlainIds, PutAll, Fits, RestErased;
    if k < |log| {
      hide WalkFrom;
      WalkStep(ih, base, log, k, w, size);
      ParseWritten(ih, base, log, k + 1, w, size);
    } else {
      assert log[..k] == log;
      DataPtrBound(log, k, w);
      HoldsFrame(ih, base, log, w);
      hide ParseAtes, AtePos, DataPtr, DataEnd;
      ParseEnd(ih, base, log, w, size, AtePos(Nvs, k, size) + size, DataPtr(log, k, w), PutAll([], log));
    }
  }

  lemma WalkStart(sector: seq<byte>, log: seq<Record>, w: nat)
    requires w > 0 && 2 * AteSize(w) <= |sector| == SETTINGS_SECTOR_SIZE
    ensures WalkFrom(sector, log, 0, w) == ParseAtes(sector, AteSize(w), SETTINGS_SECTOR_SIZE - AteSize(w), 0, [])
  {
    assert AtePos(Nvs, 0, AteSize(w)) + AteSize(w) == SETTINGS_SECTOR_SIZE - AteSize(w);
    assert log[..0] == [] && PutAll([], log[..0]) == [];
    hide ParseAtes, AtePos, PutAll, AteSize;
  }

  lemma ParseSectorByParts(sector: seq<byte>, size: nat, records: Records)
    requires |sector| == SETTINGS_SECTOR_SIZE && ATE_LEN_MIN <= size <= SETTINGS_SECTOR_SIZE
    requires sector != Erased(SETTINGS_SECTOR_SIZE) && sector[SETTINGS_SECTOR_SIZE - size..] == Erased(size)
    requires ParseAtes(sector, size, SETTINGS_SECTOR_SIZE - size, 0, []) == Some(records) && records != []
    ensures ParseSector(sector, size) == Sector(OPEN, Some(records))
  {
    hide ParseAtes, IsCloseAte, Deserialize, Ate.IsPopulated;
    LastSlotErased(size);
  }

  /** The place of the close entry is free. */
  lemma LastSlotFree(ih: Hex, base: int, log: seq<Record>, w: nat)
    requires w > 0 && Fits(Nvs, log, w) && RestErased(ih, base, log, w)
    ensures 2 * AteSize(w) <= SETTINGS_SECTOR_SIZE
    ensures ReadBytes(ih, base, SETTINGS_SECTOR_SIZE)[SETTINGS_SECTOR_SIZE - AteSize(w)..] == Erased(AteSize(w))
  {
    var size := AteSize(w);
    var sector := ReadBytes(ih, base, SETTINGS_SECTOR_SIZE);
    var last := SETTINGS_SECTOR_SIZE - size;
    AtePosTop(Nvs, |log|, size);
    hide ReadBytes;
    SliceOfSector(ih, base, last, size);
    ErasedRead(ih, base + last, size);
    assert sector[last..last + size] == sector[last..];
  }

  /** A non-empty log leaves the sector non-erased, and the close entry free. */
  lemma SectorFrame(ih: Hex, base: int, log: seq<Record>, w: nat)
    requires w > 0 && Holds(ih, base, log, w) && PlainIds(log) && log != []
    ensures var size := AteSize(w);
            var sector := ReadBytes(ih, base, SETTINGS_SECTOR_SIZE);
            && size <= SETTINGS_SECTOR_SIZE
            && sector != Erased(SETTINGS_SECTOR_SIZE)
            && sector[SETTINGS_SECTOR_SIZE - size..] == Erased(size)
  {
    hide Serialize, Deserialize, Ate.IsPopulated, ReadBytes, RecordAt, Fits, RestErased;
    var size := AteSize(w);
    var sector := ReadBytes(ih, base, SETTINGS_SECTOR_SIZE);
    HoldsFrame(ih, base, log, w);
    LastSlotFree(ih, base, log, w);
    HoldsRecord(ih, base, log, 0, w);
    EntryBytes(ih, base, log, 0, w);
    NotErased(sector, AtePos(Nvs, 0, size), log[0].0, DataEnd(Nvs, log[..0], w), |log[0].1|, size);
  }

  lemma NotErased(sector: seq<byte>, ptr: nat, id: nat, off: nat, len: nat, size: nat)
    requires size >= ATE_LEN_MIN && ptr + size <= |sector|
    requires id < 0xff00 && off < TWO_16 && len < TWO_16
    requires sector[ptr..ptr + size] == Serialize(id, off, len, size)
    ensures sector != Erased(|sector|)
  {
    hide Serialize;
    SerializePopulated(id, off, len, size);
    assert Erased(|sector|)[ptr..ptr + size] == Erased(size);
  }

  /** A written sector is OPEN and holds the consolidated log; an empty one is erased. */
  lemma WrittenSectorParsed(ih: Hex, base: int, log: seq<Record>, w: nat)
    requires w > 0 && Holds(ih, base, log, w) && PlainIds(log)
    ensures AteSize(w) <= SETTINGS_SECTOR_SIZE
    ensures ParseSector(ReadBytes(ih, base, SETTINGS_SECTOR_SIZE), AteSize(w)) ==
            if log == [] then Sector(ERASED, None) else Sector(OPEN, Some(PutAll([], log)))
  {
    var size := AteSize(w);
    assert Fits(Nvs, log, w);
    AtePosTop(Nvs, |log|, size);
    if log == [] {
      ErasedRead(ih, base, SETTINGS_SECTOR_SIZE);
    } else {
      hide ReadBytes, Holds, PutAll, ParseAtes, AteSize, ParseSector, WalkFrom, PlainIds;
      SectorFrame(ih, base, log, w);
      ParseWritten(ih, base, log, 0, w, size);
      WalkStart(ReadBytes(ih, base, SETTINGS_SECTOR_SIZE), log, w);
      PutAllGrows([], log);
      ParseSectorByParts(ReadBytes(ih, base, SETTINGS_SECTOR_SIZE), size, PutAll([], log));
    }
  }

  lemma LastSlotErased(size: nat)
    requires size >= ATE_LEN_MIN
    ensures !IsCloseAte(Deserialize(Erased(size))) && !Deserialize(Erased(size)).IsPopulated()
  {
    var s := Erased(size)[4..6];
    assert FromLe16(s) == 0xffff;
  }

  lemma {:induction false} KvLogIds(kv: Settings)
    requires |kv| < SETTINGS_SECTOR_SIZE
    ensures PlainIds(KvLog(IDS, kv))
  {
    if kv != [] {
      KvLogIds(kv[..|kv| - 1]);
    }
  }

  // ----- Round trip -----------------------------------------------------------

  /** The settings `kv` fit one sector. */
  predicate KvFits(kv: Settings, w: nat)
    requires w > 0
  {
    |kv| < SETTINGS_SECTOR_SIZE && Fits(Nvs, KvLog(IDS, kv), w)
  }

  lemma ErasedSectorParsed(size: nat)
    requires ATE_LEN_MIN <= size <= SETTINGS_SECTOR_SIZE
    ensures ParseSector(Erased(SETTINGS_SECTOR_SIZE), size) == Sector(ERASED, None)
  {
  }

  lemma SectorRead(ih: Hex, base: int, extra: nat, i: nat)
    requires i <= extra
    ensures var bin := ReadBytes(ih, base, SETTINGS_SECTOR_SIZE * (1 + extra));
            bin[SETTINGS_SECTOR_SIZE * i..SETTINGS_SECTOR_SIZE * (i + 1)] ==
            ReadBytes(ih, base + SETTINGS_SECTOR_SIZE * i, SETTINGS_SECTOR_SIZE)
  {
    hide ReadBytes;
    ReadWithin(ih, base, SETTINGS_SECTOR_SIZE * (1 + extra), SETTINGS_SECTOR_SIZE * i, SETTINGS_SECTOR_SIZE * (i + 1));
  }

  /** Sector `i` of the partition: the written one, or one of the erased ones behind it. */
  lemma SectorParsed(ih: Hex, base: int, kv: Settings, w: nat, extra: nat, i: nat)
    requires w > 0 && KvFits(kv, w) && Holds(ih, base, KvLog(IDS, kv), w) && i <= extra
    ensures AteSize(w) <= SETTINGS_SECTOR_SIZE
    ensures var bin := ReadBytes(ih, base, SETTINGS_SECTOR_SIZE * (1 + extra));
            ParseSector(bin[SETTINGS_SECTOR_SIZE * i..SETTINGS_SECTOR_SIZE * (i + 1)], AteSize(w)) ==
            if i == 0 && kv != [] then Sector(OPEN, Some(PutAll([], KvLog(IDS, kv)))) else Sector(ERASED, None)
  {
    var log := KvLog(IDS, kv);
    RoomForAtes(kv, w);
    hide ParseSector, ReadBytes, PutAll, AteSize, Holds, Fits, KvLog, AtePos, DataEnd, Erased, RestErased;
    SectorRead(ih, base, extra, i);
    if i == 0 {
      KvLogIds(kv);
      WrittenSectorParsed(ih, base, log, w);
    } else {
      HoldsFrame(ih, base, log, w);
      BehindErased(ih, base, log, w, i);
      ErasedSectorParsed(AteSize(w));
    }
  }

  /** Behind the written sector the image is erased. */
  lemma BehindErased(ih: Hex, base: int, log: seq<Record>, w: nat, i: nat)
    requires w > 0 && Fits(Nvs, log, w) && RestErased(ih, base, log, w) && i > 0
    ensures ReadBytes(ih, base + SETTINGS_SECTOR_SIZE * i, SETTINGS_SECTOR_SIZE) == Erased(SETTINGS_SECTOR_SIZE)
  {
    hide ReadBytes;
    AtePosTop(Nvs, |log|, AteSize(w));
    assert SETTINGS_SECTOR_SIZE * i >= SETTINGS_SECTOR_SIZE;
    ErasedRead(ih, base + SETTINGS_SECTOR_SIZE * i, SETTINGS_SECTOR_SIZE);
  }

  lemma RoomForAtes(kv: Settings, w: nat)
    requires w > 0 && KvFits(kv, w)
    ensures ATE_LEN_MIN <= AteSize(w) <= SETTINGS_SECTOR_SIZE && (kv == [] <==> KvLog(IDS, kv) == [])
  {
    AtePosTop(Nvs, |KvLog(IDS, kv)|, AteSize(w));
  }

  lemma PartitionParsed(ih: Hex, base: int, kv: Settings, w: nat, extra: nat)
    requires w > 0 && KvFits(kv, w) && Holds(ih, base, KvLog(IDS, kv), w)
    ensures AteSize(w) <= SETTINGS_SECTOR_SIZE
    ensures var m := ParseSectors(ReadBytes(ih, base, SETTINGS_SECTOR_SIZE * (1 + extra)), AteSize(w));
            && |m| == 1 + extra
            && m[0] == (if kv == [] then Sector(ERASED, None) else Sector(OPEN, Some(PutAll([], KvLog(IDS, kv)))))
            && forall i :: 0 < i < |m| ==> m[i].records.None?
  {
    hide ParseSector, KvLog, Holds, KvFits, PutAll, AteSize, ReadBytes;
    SectorParsed(ih, base, kv, w, extra, 0);
    var bin := ReadBytes(ih, base, SETTINGS_SECTOR_SIZE * (1 + extra));
    forall i | 0 < i < 1 + extra
      ensures ParseSectors(bin, AteSize(w))[i].records.None?
    {
      SectorParsed(ih, base, kv, w, extra, i);
    }
  }

  /** `read` of the image with `extra` erased sectors behind it returns the settings. */
  ghost predicate ReadsBack(ih: Hex, base: int, kv: Settings, w: nat, extra: nat)
    requires w > 0 && AteSize(w) <= SETTINGS_SECTOR_SIZE
  {
    Read(ReadBytes(ih, base, SETTINGS_SECTOR_SIZE * (1 + extra)), AteSize(w)) ==
    if kv == [] then None else Some(Readable(kv))
  }

  /**
   Reading back the image of any dictionary that fits one sector, followed by any
   number of erased sectors, gives the dictionary without its empty names and
   values; nothing at all if it is empty.
   */
  lemma NvsRoundTrip(ih: Hex, base: int, kv: Settings, w: nat, extra: nat)
    requires w > 0 && DistinctKeys(kv) && KvFits(kv, w)
    requires Holds(ih, base, KvLog(IDS, kv), w)
    ensures AteSize(w) <= SETTINGS_SECTOR_SIZE
    ensures ReadsBack(ih, base, kv, w, extra)
  {
    hide ParseSectors, SettingsOf, PutAll, KvLog, Readable;
    PartitionParsed(ih, base, kv, w, extra);
    var m := ParseSectors(ReadBytes(ih, base, SETTINGS_SECTOR_SIZE * (1 + extra)), AteSize(w));
    if kv == [] {
      NoneAtAll(m);
    } else {
      var records := PutAll([], KvLog(IDS, kv));
      OneSectorRead(IDS, m, records);
      PutAllDistinct([], KvLog(IDS, kv));
      CopyDict(records);
      SettingsSurvive(IDS, kv);
    }
  }
}
