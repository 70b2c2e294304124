/** The ZMS back end of the settings tool: sector parser and the layout of an image. */
module ZmsSettings {
  import opened Wrappers
  import opened Bytes
  import opened OrderedDict
  import opened HexImage
  import opened SectorLayout
  import opened SettingsCore
  import opened SettingsTheorems
  import opened ZmsAte

  const IDS: Ids := Ids(0x8000_0000, 0x4000_0000)

  const FIRST_CYCLE: byte := 0x01

  // ----- Reading -----------------------------------------------------------

  predicate IsEmptyAte(ate: AteZms)
    requires ate.InRange()
  {
    ate.IsValidCrc8() && EmptyAte(ate.cycleCnt) == ate
  }

  predicate IsCloseAte(ate: AteZms, sectorLen: nat, size: nat)
    requires ate.InRange() && size > 0
    requires !ate.content.SmallData?
  {
    && ate.IsValidCrc8()
    && CloseAte(ate.cycleCnt, ate.content.offset) == ate
    && (sectorLen - ate.content.offset) % size == 0
  }

  /** What one block of the sector does to the records. */
  datatype BlockEffect = Skip | Add(record: Record) | Abort

  function EffectOf(ate: AteZms, sector: seq<byte>, ptr: nat, cycle: byte, crc32: Checksum): BlockEffect
    requires ate.InRange() && WellTyped(ate) && ptr <= |sector|
  {
    if !ate.IsValid(cycle) then Skip
    else
      match ate.content
      case SmallData(data) => Add((ate.id, data[..ate.len]))
      case SpecialInfo(_, _) => Skip
      case DataInfo(offset, crc) =>
        if offset + ate.len >= ptr then Abort
        else
          var data := sector[offset..offset + ate.len];
          if crc == 0 || crc == crc32(data) then Add((ate.id, data)) else Skip
  }

  function BlockAt(sector: seq<byte>, ptr: nat, size: nat, cycle: byte, crc32: Checksum): BlockEffect
    requires size >= ATE_SIZE && ptr + size <= |sector|
  {
    EffectOf(Deserialize(sector[ptr..ptr + size]), sector, ptr, cycle, crc32)
  }

  /**
   The walk down the blocks from `atePtr` to the start of the sector. The data
   pointer of the source stays 0 (its update never leaves `_parse_record_data`).
   */
  function ParseAtes(sector: seq<byte>, size: nat, atePtr: int, cycle: byte, crc32: Checksum,
                     records: Records): Option<Records>
    requires size >= ATE_SIZE && atePtr + size <= |sector|
    decreases atePtr + size
  {
    if atePtr < 0 || atePtr - size < 0 then Some(records)
    else
      match BlockAt(sector, atePtr - size, size, cycle, crc32)
      case Skip => ParseAtes(sector, size, atePtr - size, cycle, crc32, records)
      case Add(r) => ParseAtes(sector, size, atePtr - size, cycle, crc32, Put(records, r.0, r.1))
      case Abort => None
  }

  /** None where the source raises: a valid small-data entry in the close entry's place. */
  function ParseSector(sector: seq<byte>, size: nat, crc32: Checksum): (result: Option<Sector>)
    requires ATE_SIZE <= size && 2 * size <= |sector|
    ensures result.Some? ==> result.value.WellParsed()
  {
    if sector == Erased(SETTINGS_SECTOR_SIZE) then Some(Sector(ERASED, None))
    else
      var last := |sector| - size;
      var empty := Deserialize(sector[last..]);
      if !IsEmptyAte(empty) then Some(Sector(NA, None))
      else
        var close := Deserialize(sector[last - size..last]);
        if close.IsValidCrc8() && close.content.SmallData? then None
        else
          var closed := !close.content.SmallData? && IsCloseAte(close, |sector|, size)
              && empty.cycleCnt == close.cycleCnt;
          match ParseAtes(sector, size, last - size, empty.cycleCnt, crc32, [])
          case None => Some(Sector(NA, None))
          case Some(records) =>
            if closed then Some(Sector(CLOSED, Some(records)))
            else if records == [] then Some(Sector(ERASED, None))
            else Some(Sector(OPEN, Some(records)))
  }

  datatype ReadResult = Raises | Returns(settings: Option<Settings>)

  function ParseSectorsUpTo(bin: seq<byte>, size: nat, crc32: Checksum, n: nat): (m: Option<seq<Sector>>)
    requires ATE_SIZE <= size && 2 * size <= SETTINGS_SECTOR_SIZE
    requires SETTINGS_SECTOR_SIZE * n <= |bin|
    ensures m.Some? ==> |m.value| == n
  {
    if n == 0 then Some([])
    else
      match ParseSectorsUpTo(bin, size, crc32, n - 1)
      case None => None
      case Some(m) =>
        match ParseSector(SectorBytes(bin, n - 1), size, crc32)
        case None => None
        case Some(sector) => Some(m + [sector])
  }

  /** `Settings.read` for a ZMS partition. */
  function Read(bin: seq<byte>, size: nat, crc32: Checksum): ReadResult
    requires ATE_SIZE <= size && 2 * size <= SETTINGS_SECTOR_SIZE
    requires |bin| % SETTINGS_SECTOR_SIZE == 0
  {
    match ParseSectorsUpTo(bin, size, crc32, |bin| / SETTINGS_SECTOR_SIZE)
    case None => Raises
    case Some(m) => Returns(ParseSettings(IDS, OrderSectors(m)))
  }

  /** The loop of `_parse_sector`; None where it gives the sector up. */
  method ParseAtesLoop(sector: seq<byte>, size: nat, start: nat, cycle: byte, crc32: Checksum)
    returns (result: Option<Records>)
    requires ATE_SIZE <= size && start + size <= |sector|
    ensures result == ParseAtes(sector, size, start, cycle, crc32, [])
  {
    hide AteZms.IsValid, Deserialize, Put;
    var records: Records := [];
    var atePtr: int := start;
    while atePtr >= 0
      invariant atePtr + size <= |sector|
      invariant ParseAtes(sector, size, start, cycle, crc32, []) ==
                ParseAtes(sector, size, atePtr, cycle, crc32, records)
      decreases atePtr
    {
      atePtr := atePtr - size;
      if atePtr < 0 {
        break;
      }
      var ate := Deserialize(sector[atePtr..atePtr + size]);
      if !ate.IsValid(cycle) {
        continue;
      }
      match ate.content
      case SmallData(data) =>
        records := Put(records, ate.id, data[..ate.len]);
      case SpecialInfo(_, _) =>
      case DataInfo(offset, crc) =>
        if offset + ate.len >= atePtr {
          return None;
        }
        var data := sector[offset..offset + ate.len];
        if crc == 0 || crc == crc32(data) {
          records := Put(records, ate.id, data);
        }
    }
    return Some(records);
  }

  method ParseSectorLoop(sector: seq<byte>, size: nat, crc32: Checksum) returns (result: Option<Sector>)
    requires ATE_SIZE <= size && 2 * size <= |sector|
    ensures result == ParseSector(sector, size, crc32)
  {
    hide AteZms.IsValidCrc8, IsCloseAte, IsEmptyAte, Deserialize, ParseAtes;
    if sector == Erased(SETTINGS_SECTOR_SIZE) {
      return Some(Sector(ERASED, None));
    }
    var atePtr := |sector| - size;
    assert sector[atePtr..atePtr + size] == sector[atePtr..];
    var emptyAte := Deserialize(sector[atePtr..atePtr + size]);
    if !IsEmptyAte(emptyAte) {
      return Some(Sector(NA, None));
    }
    var cycle := emptyAte.cycleCnt;
    atePtr := atePtr - size;
    var closeAte := Deserialize(sector[atePtr..atePtr + size]);
    if closeAte.IsValidCrc8() && closeAte.content.SmallData? {
      return None;
    }
    var status := OPEN;
    if !closeAte.content.SmallData? && IsCloseAte(closeAte, |sector|, size) && cycle == closeAte.cycleCnt {
      status := CLOSED;
    }
    var records := ParseAtesLoop(sector, size, atePtr, cycle, crc32);
    if records.None? {
      return Some(Sector(NA, None));
    }
    if status == OPEN && |records.value| == 0 {
      return Some(Sector(ERASED, None));
    }
    result := Some(Sector(status, records));
  }

  method ReadPartition(bin: seq<byte>, size: nat, crc32: Checksum) returns (result: ReadResult)
    requires ATE_SIZE <= size && 2 * size <= SETTINGS_SECTOR_SIZE
    requires |bin| % SETTINGS_SECTOR_SIZE == 0
    ensures result == Read(bin, size, crc32)
  {
    hide ParseSector, OrderSectors, ParseSettings;
    var metadata := [];
    var count := |bin| / SETTINGS_SECTOR_SIZE;
    for i := 0 to count
      invariant ParseSectorsUpTo(bin, size, crc32, i) == Some(metadata)
    {
      var sector := ParseSectorLoop(SectorBytes(bin, i), size, crc32);
      if sector.None? {
        NoLaterSuccess(bin, size, crc32, i + 1, count);
        return Raises;
      }
      metadata := metadata + [sector.value];
    }
    var ordered := OrderSectorsInPlace(metadata);
    var settings := ParseSettingsLoop(IDS, ordered);
    result := Returns(settings);
  }

  lemma {:induction false} NoLaterSuccess(bin: seq<byte>, size: nat, crc32: Checksum, i: nat, n: nat)
    requires ATE_SIZE <= size && 2 * size <= SETTINGS_SECTOR_SIZE
    requires i <= n && SETTINGS_SECTOR_SIZE * n <= |bin|
    requires ParseSectorsUpTo(bin, size, crc32, i).None?
    ensures ParseSectorsUpTo(bin, size, crc32, n).None?
  {
    hide ParseSector;
    if i < n {
      NoLaterSuccess(bin, size, crc32, i, n - 1);
    }
  }

  // ----- The layout of a written sector --------------------------------------

  predicate IsSmall(data: seq<byte>) {
    |data| <= MAX_SMALL
  }

  /** The inline form of small data. */
  function SmallForm(data: seq<byte>): (s: seq<byte>)
    requires IsSmall(data)
    ensures |s| == MAX_SMALL && s[..|data|] == data
  {
    data + Erased(MAX_SMALL - |data|)
  }

  /** The entry that is written for a record. */
  function EntryFor(id: int, data: seq<byte>, off: nat, crc32: Checksum): (ate: AteZms)
    requires 0 <= id < HEAD_ID && |data| < TWO_16 && off < TWO_32
    ensures ate.InRange() && WellTyped(ate) && ate.IsValid(FIRST_CYCLE)
  {
    MakeAte(FIRST_CYCLE, |data|, id, if IsSmall(data) then SmallData(SmallForm(data)) else DataInfo(off, crc32(data)))
  }

  ghost predicate RecordAt(ih: Hex, base: int, log: seq<Record>, k: nat, w: nat, crc32: Checksum)
    requires w > 0 && k < |log|
  {
    var (id, data) := log[k];
    var off := DataEnd(Zms, log[..k], w);
    && 0 <= id < HEAD_ID && |data| < TWO_16 && off < TWO_32
    && ReadBytes(ih, base + AtePos(Zms, k, ZmsAteSize(w)), ATE_SIZE) == EntryFor(id, data, off, crc32).Serialize()
    && (!IsSmall(data) ==> ReadBytes(ih, base + off, |data|) == data)
  }

  /** Written are the empty entry, the data entries and the big data; nothing else. */
  ghost predicate RestErased(ih: Hex, base: int, log: seq<Record>, w: nat)
    requires w > 0
  {
    var size := ZmsAteSize(w);
    forall a :: a in ih ==>
      || base <= a < base + DataEnd(Zms, log, w)
      || base + AtePos(Zms, |log|, size) + size <= a < base + SETTINGS_SECTOR_SIZE - 3 * size
      || base + SETTINGS_SECTOR_SIZE - size <= a < base + SETTINGS_SECTOR_SIZE
  }

  /** The frame of a written sector, whatever entries and data are. */
  ghost predicate Framed(ih: Hex, base: int, log: seq<Record>, w: nat)
    requires w > 0
  {
    && Fits(Zms, log, w)
    && RestErased(ih, base, log, w)
    && ReadBytes(ih, base + SETTINGS_SECTOR_SIZE - ZmsAteSize(w), ATE_SIZE) == EmptyAte(FIRST_CYCLE).Serialize()
  }

  ghost predicate Holds(ih: Hex, base: int, log: seq<Record>, w: nat, crc32: Checksum)
    requires w > 0
  {
    && Framed(ih, base, log, w)
    && forall k :: 0 <= k < |log| ==> RecordAt(ih, base, log, k, w, crc32)
  }

  lemma EntryPlace(log: seq<Record>, k: nat, w: nat)
    requires w > 0 && Fits(Zms, log, w) && k < |log|
    ensures var size := ZmsAteSize(w);
            && DataEnd(Zms, log[..k], w) + (if IsSmall(log[k].1) then 0 else |log[k].1|) <= AtePos(Zms, k, size) - size
            && AtePos(Zms, k, size) + 4 * size <= SETTINGS_SECTOR_SIZE
  {
    AtePosBounds(Zms, k, |log|, ZmsAteSize(w));
    DataEndBounds(Zms, log, k, w);
  }

  lemma EntryRoom(log: seq<Record>, w: nat)
    requires w > 0 && Fits(Zms, log, w)
    ensures 4 * ZmsAteSize(w) <= SETTINGS_SECTOR_SIZE
  {
    AtePosTop(Zms, |log|, ZmsAteSize(w));
  }

  lemma HoldsFrame(ih: Hex, base: int, log: seq<Record>, w: nat, crc32: Checksum)
    requires w > 0 && Holds(ih, base, log, w, crc32)
    ensures Framed(ih, base, log, w)
  {
    hide RecordAt, Framed;
  }

  lemma RoomFor(ih: Hex, base: int, log: seq<Record>, w: nat)
    requires w > 0 && Framed(ih, base, log, w)
    ensures 4 * ZmsAteSize(w) <= SETTINGS_SECTOR_SIZE
  {
    hide RestErased;
    EntryRoom(log, w);
  }

  // ----- Parsing a written sector --------------------------------------------

  lemma BlockIs(sector: seq<byte>, ptr: nat, size: nat, ate: AteZms)
    requires size >= ATE_SIZE && ptr + size <= |sector|
    requires ate.InRange() && WellTyped(ate)
    requires sector[ptr..ptr + ATE_SIZE] == ate.Serialize()
    ensures Deserialize(sector[ptr..ptr + size]) == ate
  {
    hide AteZms.Serialize, Deserialize;
    var block := sector[ptr..ptr + size];
    assert block == ate.Serialize() + block[ATE_SIZE..];
    ZmsAteRoundTrip(ate, block[ATE_SIZE..]);
  }

  lemma HoldsRecord(ih: Hex, base: int, log: seq<Record>, k: nat, w: nat, crc32: Checksum)
    requires w > 0 && Holds(ih, base, log, w, crc32) && k < |log|
    ensures Fits(Zms, log, w) && RecordAt(ih, base, log, k, w, crc32)
  {
    hide RecordAt, RestErased, Fits;
  }

  /** The entry of a record, whose data may have been replaced by `found`. */
  ghost predicate EntryAt(ih: Hex, base: int, log: seq<Record>, k: nat, w: nat, crc32: Checksum, found: seq<byte>)
    requires w > 0 && k < |log|
  {
    var (id, data) := log[k];
    var off := DataEnd(Zms, log[..k], w);
    && 0 <= id < HEAD_ID && |data| < TWO_16 && off < TWO_32 && |found| == |data|
    && ReadBytes(ih, base + AtePos(Zms, k, ZmsAteSize(w)), ATE_SIZE) == EntryFor(id, data, off, crc32).Serialize()
    && if IsSmall(data) then found == data else ReadBytes(ih, base + off, |data|) == found
  }

  /** An entry adds its record unless the checksum of big data tells that it is damaged. */
  lemma EntryEffectFor(ih: Hex, base: int, log: seq<Record>, k: nat, w: nat, crc32: Checksum, found: seq<byte>)
    requires w > 0 && k < |log| && Fits(Zms, log, w) && EntryAt(ih, base, log, k, w, crc32, found)
    ensures var size := ZmsAteSize(w);
            var damaged := !IsSmall(log[k].1) && crc32(log[k].1) != 0 && crc32(found) != crc32(log[k].1);
            && 0 <= AtePos(Zms, k, size) && AtePos(Zms, k, size) + 4 * size <= SETTINGS_SECTOR_SIZE
            && BlockAt(ReadBytes(ih, base, SETTINGS_SECTOR_SIZE), AtePos(Zms, k, size), size, FIRST_CYCLE, crc32) ==
               if damaged then Skip else Add((log[k].0, found))
  {
    hide ReadBytes, AtePos, DataEnd, AteZms.Serialize, Deserialize, AteZms.IsValid;
    var size := ZmsAteSize(w);
    var (id, data) := log[k];
    var off := DataEnd(Zms, log[..k], w);
    EntryPlace(log, k, w);
    SliceOfSector(ih, base, AtePos(Zms, k, size), ATE_SIZE);
    BlockIs(ReadBytes(ih, base, SETTINGS_SECTOR_SIZE), AtePos(Zms, k, size), size, EntryFor(id, data, off, crc32));
    if !IsSmall(data) {
      SliceOfSector(ih, base, off, |data|);
    }
  }

  /** A written entry adds its record. */
  lemma EntryEffect(ih: Hex, base: int, log: seq<Record>, k: nat, w: nat, crc32: Checksum)
    requires w > 0 && k < |log| && Fits(Zms, log, w) && RecordAt(ih, base, log, k, w, crc32)
    ensures var size := ZmsAteSize(w);
            && 0 <= AtePos(Zms, k, size) && AtePos(Zms, k, size) + 4 * size <= SETTINGS_SECTOR_SIZE
            && BlockAt(ReadBytes(ih, base, SETTINGS_SECTOR_SIZE), AtePos(Zms, k, size), size, FIRST_CYCLE, crc32) ==
               Add(log[k])
  {
    assert EntryAt(ih, base, log, k, w, crc32, log[k].1) by {
      hide ReadBytes, AtePos, DataEnd, AteZms.Serialize, EntryFor;
    }
    hide ReadBytes, AtePos, DataEnd, ZmsAteSize, BlockAt, EntryAt;
    EntryEffectFor(ih, base, log, k, w, crc32, log[k].1);
  }

  lemma ErasedEffect(sector: seq<byte>, ptr: nat, size: nat, crc32: Checksum)
    requires size >= ATE_SIZE && ptr + size <= |sector|
    requires sector[ptr..ptr + size] == Erased(size)
    ensures BlockAt(sector, ptr, size, FIRST_CYCLE, crc32) == Skip
  {
    hide Deserialize;
    ErasedZmsAte(size);
  }

  /** Parsing one more written entry adds its record. */
  lemma ParseEntry(ih: Hex, base: int, log: seq<Record>, k: nat, w: nat, size: nat, crc32: Checksum,
                   from: int, to: int, records: Records, next: Records)
    requires w > 0 && size == ZmsAteSize(w) && Holds(ih, base, log, w, crc32) && k < |log|
    requires to == AtePos(Zms, k, size) && from == to + size && next == Put(records, log[k].0, log[k].1)
    ensures from + 3 * size <= SETTINGS_SECTOR_SIZE
    ensures ParseAtes(ReadBytes(ih, base, SETTINGS_SECTOR_SIZE), size, from, FIRST_CYCLE, crc32, records) ==
            ParseAtes(ReadBytes(ih, base, SETTINGS_SECTOR_SIZE), size, to, FIRST_CYCLE, crc32, next)
  {
    hide BlockAt, Put, ReadBytes, ZmsAteSize, AtePos, Holds, RecordAt, Fits;
    HoldsRecord(ih, base, log, k, w, crc32);
    EntryEffect(ih, base, log, k, w, crc32);
    assert from - size == to;
  }

  /** The walk from the `k`-th entry on, after the entries before it. */
  function WalkFrom(sector: seq<byte>, log: seq<Record>, k: nat, size: nat, crc32: Checksum): Option<Records>
    requires size >= ATE_SIZE && 4 * size <= |sector| == SETTINGS_SECTOR_SIZE && k <= |log|
  {
    AtePosTop(Zms, k, size);
    ParseAtes(sector, size, AtePos(Zms, k, size) + size, FIRST_CYCLE, crc32, PutAll([], log[..k]))
  }

  lemma AtePosNext(k: nat, size: nat)
    ensures AtePos(Zms, k + 1, size) + size == AtePos(Zms, k, size)
  {
  }

  lemma WalkStep(ih: Hex, base: int, log: seq<Record>, k: nat, w: nat, size: nat, crc32: Checksum)
    requires w > 0 && size == ZmsAteSize(w) && Holds(ih, base, log, w, crc32) && k < |log|
    requires 4 * size <= SETTINGS_SECTOR_SIZE
    ensures var sector := ReadBytes(ih, base, SETTINGS_SECTOR_SIZE);
            WalkFrom(sector, log, k, size, crc32) == WalkFrom(sector, log, k + 1, size, crc32)
  {
    hide ParseAtes, Put, PutAll, ReadBytes, ZmsAteSize, Holds, AtePos;
    AtePosNext(k, size);
    PutAllNext(log, k);
    ParseEntry(ih, base, log, k, w, size, crc32, AtePos(Zms, k, size) + size, AtePos(Zms, k + 1, size) + size,
               PutAll([], log[..k]), PutAll([], log[..k + 1]));
  }

  /** The data entries are read back; the walk goes on below them. */
  lemma {:induction false} ParseWritten(ih: Hex, base: int, log: seq<Record>, k: nat, w: nat, size: nat,
                                        crc32: Checksum)
    requires w > 0 && size == ZmsAteSize(w) && Holds(ih, base, log, w, crc32) && k <= |log|
    requires 4 * size <= SETTINGS_SECTOR_SIZE
    ensures var sector := ReadBytes(ih, base, SETTINGS_SECTOR_SIZE);
            WalkFrom(sector, log, k, size, crc32) == WalkFrom(sector, log, |log|, size, crc32)
    decreases |log| - k
  {
    hide WalkFrom, ReadBytes, ZmsAteSize, Holds;
    if k < |log| {
      WalkStep(ih, base, log, k, w, size, crc32);
      ParseWritten(ih, base, log, k + 1, w, size, crc32);
    }
  }

  /** What the walk makes of the blocks below the entries: the data area. */
  function DataAreaWalk(sector: seq<byte>, log: seq<Record>, w: nat, crc32: Checksum): Option<Records>
    requires w > 0 && |sector| == SETTINGS_SECTOR_SIZE
  {
    AtePosTop(Zms, |log|, ZmsAteSize(w));
    ParseAtes(sector, ZmsAteSize(w), AtePos(Zms, |log|, ZmsAteSize(w)) + ZmsAteSize(w), FIRST_CYCLE, crc32,
              PutAll([], log))
  }

  /** The three fixed slots at the end of a written sector. */
  ghost predicate Header(sector: seq<byte>, size: nat) {
    && |sector| == SETTINGS_SECTOR_SIZE && ATE_SIZE <= size && 4 * size <= SETTINGS_SECTOR_SIZE
    && sector != Erased(SETTINGS_SECTOR_SIZE)
    && Deserialize(sector[SETTINGS_SECTOR_SIZE - size..]) == EmptyAte(FIRST_CYCLE)
    && sector[SETTINGS_SECTOR_SIZE - 2 * size..SETTINGS_SECTOR_SIZE - size] == Erased(size)
    && sector[SETTINGS_SECTOR_SIZE - 3 * size..SETTINGS_SECTOR_SIZE - 2 * size] == Erased(size)
  }

  lemma FreeSlot(ih: Hex, base: int, log: seq<Record>, w: nat, size: nat, lo: nat)
    requires w > 0 && size == ZmsAteSize(w) && RestErased(ih, base, log, w)
    requires DataEnd(Zms, log, w) <= SETTINGS_SECTOR_SIZE - 3 * size <= lo && lo + size <= SETTINGS_SECTOR_SIZE - size
    ensures ReadBytes(ih, base, SETTINGS_SECTOR_SIZE)[lo..lo + size] == Erased(size)
  {
    hide ReadBytes, AtePos, DataEnd, ZmsAteSize;
    SliceOfSector(ih, base, lo, size);
    ErasedRead(ih, base + lo, size);
  }

  lemma HeaderSlots(ih: Hex, base: int, log: seq<Record>, w: nat)
    requires w > 0 && Framed(ih, base, log, w)
    ensures Header(ReadBytes(ih, base, SETTINGS_SECTOR_SIZE), ZmsAteSize(w))
  {
    hide AteZms.Serialize, Deserialize, ReadBytes, RestErased, AtePos, DataEnd, ZmsAteSize, EmptyAte;
    var size := ZmsAteSize(w);
    var last := SETTINGS_SECTOR_SIZE - size;
    AtePosTop(Zms, |log|, size);
    SliceOfSector(ih, base, last, ATE_SIZE);
    BlockIsEmptyAte(ReadBytes(ih, base, SETTINGS_SECTOR_SIZE), last, size);
    FreeSlot(ih, base, log, w, size, last - size);
    FreeSlot(ih, base, log, w, size, last - 2 * size);
  }

  lemma BlockIsEmptyAte(sector: seq<byte>, last: nat, size: nat)
    requires size >= ATE_SIZE && last + size == |sector|
    requires sector[last..last + ATE_SIZE] == EmptyAte(FIRST_CYCLE).Serialize()
    ensures Deserialize(sector[last..]) == EmptyAte(FIRST_CYCLE)
    ensures sector != Erased(|sector|)
  {
    hide AteZms.Serialize, Deserialize;
    BlockIs(sector, last, size, EmptyAte(FIRST_CYCLE));
    assert sector[last..last + size] == sector[last..];
    ErasedZmsAte(size);
    assert Erased(|sector|)[last..] == Erased(size);
  }

  lemma ParseSectorByParts(sector: seq<byte>, size: nat, crc32: Checksum)
    requires Header(sector, size)
    ensures ParseSector(sector, size, crc32) == Some(
              SectorFromWalk(ParseAtes(sector, size, SETTINGS_SECTOR_SIZE - 3 * size, FIRST_CYCLE, crc32, [])))
  {
    hide Deserialize, AteZms.IsValidCrc8, BlockAt, Put;
    ErasedZmsAte(size);
    ErasedEffect(sector, SETTINGS_SECTOR_SIZE - 3 * size, size, crc32);
    assert EmptyAte(FIRST_CYCLE).IsValid(FIRST_CYCLE);
    var p := SETTINGS_SECTOR_SIZE - 2 * size;
    assert ParseAtes(sector, size, p, FIRST_CYCLE, crc32, []) ==
           ParseAtes(sector, size, p - size, FIRST_CYCLE, crc32, []);
  }

  lemma WalkFromTop(sector: seq<byte>, log: seq<Record>, w: nat, crc32: Checksum)
    requires w > 0 && 4 * ZmsAteSize(w) <= |sector| == SETTINGS_SECTOR_SIZE
    ensures DataAreaWalk(sector, log, w, crc32) == WalkFrom(sector, log, |log|, ZmsAteSize(w), crc32)
    ensures AtePos(Zms, |log|, ZmsAteSize(w)) + 4 * ZmsAteSize(w) <= SETTINGS_SECTOR_SIZE
    ensures DataAreaWalk(sector, log, w, crc32) ==
            ParseAtes(sector, ZmsAteSize(w), AtePos(Zms, |log|, ZmsAteSize(w)) + ZmsAteSize(w), FIRST_CYCLE, crc32,
                      PutAll([], log))
  {
    AtePosTop(Zms, |log|, ZmsAteSize(w));
    assert log[..|log|] == log;
    hide ParseAtes, AtePos, PutAll, ZmsAteSize;
  }

  lemma WalkStart(sector: seq<byte>, log: seq<Record>, size: nat, crc32: Checksum)
    requires size >= ATE_SIZE && 4 * size <= |sector| == SETTINGS_SECTOR_SIZE
    ensures WalkFrom(sector, log, 0, size, crc32) ==
            ParseAtes(sector, size, SETTINGS_SECTOR_SIZE - 3 * size, FIRST_CYCLE, crc32, [])
  {
    assert AtePos(Zms, 0, size) == SETTINGS_SECTOR_SIZE - 4 * size;
    assert log[..0] == [] && PutAll([], log[..0]) == [];
    hide ParseAtes, AtePos, PutAll;
  }

  /** The sector that the parser reports for the records of the walk. */
  function SectorFromWalk(walk: Option<Records>): Sector {
    match walk
    case None => Sector(NA, None)
    case Some(records) => if records == [] then Sector(ERASED, None) else Sector(OPEN, Some(records))
  }

  /**
   The exact result of parsing a written sector: the consolidated log, changed by
   whatever the walk finds in the data area.
   */
  lemma WrittenSectorParsed(ih: Hex, base: int, log: seq<Record>, w: nat, crc32: Checksum)
    requires w > 0 && Holds(ih, base, log, w, crc32)
    ensures 2 * ZmsAteSize(w) <= SETTINGS_SECTOR_SIZE
    ensures ParseSector(ReadBytes(ih, base, SETTINGS_SECTOR_SIZE), ZmsAteSize(w), crc32) ==
            Some(SectorFromWalk(DataAreaWalk(ReadBytes(ih, base, SETTINGS_SECTOR_SIZE), log, w, crc32)))
  {
    hide ZmsAteSize, ReadBytes, Holds, Framed, Header, ParseSector, ParseAtes, DataAreaWalk, WalkFrom;
    var size := ZmsAteSize(w);
    var sector := ReadBytes(ih, base, SETTINGS_SECTOR_SIZE);
    HoldsFrame(ih, base, log, w, crc32);
    HeaderSlots(ih, base, log, w);
    RoomFor(ih, base, log, w);
    ParseSectorByParts(sector, size, crc32);
    WalkStart(sector, log, size, crc32);
    ParseWritten(ih, base, log, 0, w, size, crc32);
    WalkFromTop(sector, log, w, crc32);
  }

  /** No entry-aligned block of the data area passes for an entry of the first cycle. */
  ghost predicate NoFakeEntries(sector: seq<byte>, log: seq<Record>, w: nat)
    requires w > 0 && |sector| == SETTINGS_SECTOR_SIZE
  {
    var size := ZmsAteSize(w);
    forall k: nat ::
      |log| <= k && 0 <= AtePos(Zms, k, size) < DataEnd(Zms, log, w)
          && AtePos(Zms, k, size) + size <= SETTINGS_SECTOR_SIZE ==>
      !Deserialize(sector[AtePos(Zms, k, size)..AtePos(Zms, k, size) + size]).IsValid(FIRST_CYCLE)
  }

  /** Between entries and data the sector is erased. */
  lemma GapErased(ih: Hex, base: int, log: seq<Record>, k: nat, w: nat, size: nat)
    requires w > 0 && size == ZmsAteSize(w) && RestErased(ih, base, log, w)
    requires |log| <= k && DataEnd(Zms, log, w) <= AtePos(Zms, k, size)
    ensures AtePos(Zms, k, size) >= 0 && AtePos(Zms, k, size) + 4 * size <= SETTINGS_SECTOR_SIZE
    ensures ReadBytes(ih, base + AtePos(Zms, k, size), size) == Erased(size)
  {
    AtePosTop(Zms, k, size);
    if |log| < k {
      AtePosBounds(Zms, |log|, k, size);
    }
    hide AtePos, DataEnd, ReadBytes, Erased, ZmsAteSize;
    ErasedRead(ih, base + AtePos(Zms, k, size), size);
  }

  lemma GapEffect(ih: Hex, base: int, log: seq<Record>, k: nat, w: nat, crc32: Checksum)
    requires w > 0 && Framed(ih, base, log, w)
    requires |log| <= k && DataEnd(Zms, log, w) <= AtePos(Zms, k, ZmsAteSize(w))
    ensures AtePos(Zms, k, ZmsAteSize(w)) + ZmsAteSize(w) <= SETTINGS_SECTOR_SIZE
    ensures var sector := ReadBytes(ih, base, SETTINGS_SECTOR_SIZE);
            BlockAt(sector, AtePos(Zms, k, ZmsAteSize(w)), ZmsAteSize(w), FIRST_CYCLE, crc32) == Skip
  {
    hide *;
    var size := ZmsAteSize(w);
    NothingElse(ih, base, log, w);
    GapErased(ih, base, log, k, w, size);
    ErasedBlockAt(ih, base, AtePos(Zms, k, size), size, crc32);
  }

  lemma ErasedBlockAt(ih: Hex, base: int, ptr: nat, size: nat, crc32: Checksum)
    requires size >= ATE_SIZE && ptr + size <= SETTINGS_SECTOR_SIZE && ReadBytes(ih, base + ptr, size) == Erased(size)
    ensures BlockAt(ReadBytes(ih, base, SETTINGS_SECTOR_SIZE), ptr, size, FIRST_CYCLE, crc32) == Skip
  {
    hide ReadBytes, Erased, BlockAt;
    SliceOfSector(ih, base, ptr, size);
    ErasedEffect(ReadBytes(ih, base, SETTINGS_SECTOR_SIZE), ptr, size, crc32);
  }

  lemma NothingElse(ih: Hex, base: int, log: seq<Record>, w: nat)
    requires w > 0 && Framed(ih, base, log, w)
    ensures RestErased(ih, base, log, w)
  {
    hide RestErased, ReadBytes;
  }

  /** All blocks from the `k`-th down to the start of the sector change nothing. */
  ghost predicate AllSkipped(sector: seq<byte>, k: nat, size: nat, crc32: Checksum)
    requires size >= ATE_SIZE
  {
    forall j: nat :: k <= j && 0 <= AtePos(Zms, j, size) ==>
      AtePos(Zms, j, size) + size <= |sector| && BlockAt(sector, AtePos(Zms, j, size), size, FIRST_CYCLE, crc32) == Skip
  }

  lemma {:induction false} WalkSkipped(sector: seq<byte>, k: nat, size: nat, crc32: Checksum, records: Records)
    requires size >= ATE_SIZE && AtePos(Zms, k, size) + 2 * size <= |sector|
    requires AllSkipped(sector, k, size, crc32)
    ensures ParseAtes(sector, size, AtePos(Zms, k, size) + size, FIRST_CYCLE, crc32, records) == Some(records)
    decreases AtePos(Zms, k, size) + size
  {
    hide BlockAt, Put;
    assert AtePos(Zms, k + 1, size) == AtePos(Zms, k, size) - size;
    if AtePos(Zms, k, size) >= 0 {
      hide AtePos;
      assert BlockAt(sector, AtePos(Zms, k, size), size, FIRST_CYCLE, crc32) == Skip;
      WalkSkipped(sector, k + 1, size, crc32, records);
    }
  }

  lemma InvalidSkips(sector: seq<byte>, ptr: nat, size: nat, crc32: Checksum)
    requires size >= ATE_SIZE && ptr + size <= |sector|
    requires !Deserialize(sector[ptr..ptr + size]).IsValid(FIRST_CYCLE)
    ensures BlockAt(sector, ptr, size, FIRST_CYCLE, crc32) == Skip
  {
    hide Deserialize, AteZms.IsValid;
  }

  lemma BelowSkipped(ih: Hex, base: int, log: seq<Record>, j: nat, w: nat, size: nat, crc32: Checksum)
    requires w > 0 && size == ZmsAteSize(w) && Framed(ih, base, log, w)
    requires NoFakeEntries(ReadBytes(ih, base, SETTINGS_SECTOR_SIZE), log, w)
    requires |log| <= j && 0 <= AtePos(Zms, j, size)
    ensures AtePos(Zms, j, size) + 4 * size <= SETTINGS_SECTOR_SIZE
    ensures BlockAt(ReadBytes(ih, base, SETTINGS_SECTOR_SIZE), AtePos(Zms, j, size), size, FIRST_CYCLE, crc32) == Skip
  {
    hide AtePos, DataEnd, ReadBytes, ZmsAteSize, Deserialize, Framed, AteZms.IsValid, BlockAt;
    AtePosTop(Zms, j, size);
    if DataEnd(Zms, log, w) <= AtePos(Zms, j, size) {
      GapEffect(ih, base, log, j, w, crc32);
    } else {
      InvalidSkips(ReadBytes(ih, base, SETTINGS_SECTOR_SIZE), AtePos(Zms, j, size), size, crc32);
    }
  }

  /** Without fake entries all blocks below the entries change nothing. */
  lemma NothingBelow(ih: Hex, base: int, log: seq<Record>, w: nat, crc32: Checksum)
    requires w > 0 && Framed(ih, base, log, w)
    requires NoFakeEntries(ReadBytes(ih, base, SETTINGS_SECTOR_SIZE), log, w)
    ensures AllSkipped(ReadBytes(ih, base, SETTINGS_SECTOR_SIZE), |log|, ZmsAteSize(w), crc32)
  {
    hide AtePos, ReadBytes, ZmsAteSize, Framed, NoFakeEntries, BlockAt;
    var size := ZmsAteSize(w);
    var sector := ReadBytes(ih, base, SETTINGS_SECTOR_SIZE);
    forall j: nat | |log| <= j && 0 <= AtePos(Zms, j, size)
      ensures AtePos(Zms, j, size) + size <= |sector|
              && BlockAt(sector, AtePos(Zms, j, size), size, FIRST_CYCLE, crc32) == Skip
    {
      BelowSkipped(ih, base, log, j, w, size, crc32);
    }
  }

  lemma WalkUnchanged(ih: Hex, base: int, log: seq<Record>, w: nat, crc32: Checksum)
    requires w > 0 && Holds(ih, base, log, w, crc32)
    requires NoFakeEntries(ReadBytes(ih, base, SETTINGS_SECTOR_SIZE), log, w)
    ensures DataAreaWalk(ReadBytes(ih, base, SETTINGS_SECTOR_SIZE), log, w, crc32) == Some(PutAll([], log))
  {
    hide AtePos, ReadBytes, ZmsAteSize, PutAll, Holds, Framed, ParseAtes, NoFakeEntries, AllSkipped, DataAreaWalk;
    var sector := ReadBytes(ih, base, SETTINGS_SECTOR_SIZE);
    HoldsFrame(ih, base, log, w, crc32);
    RoomFor(ih, base, log, w);
    NothingBelow(ih, base, log, w, crc32);
    WalkFromTop(sector, log, w, crc32);
    WalkSkipped(sector, |log|, ZmsAteSize(w), crc32, PutAll([], log));
  }

  // ----- Round trip -----------------------------------------------------------

  predicate KvFits(kv: Settings, w: nat)
    requires w > 0
  {
    |kv| < SETTINGS_SECTOR_SIZE && Fits(Zms, KvLog(IDS, kv), w)
  }

  lemma {:induction false} ParseErasedSectors(ih: Hex, base: int, n: nat, count: nat, size: nat, crc32: Checksum,
                                              first: Sector)
    requires ATE_SIZE <= size && 2 * size <= SETTINGS_SECTOR_SIZE
    requires 1 <= n <= count
    requires ParseSector(ReadBytes(ih, base, SETTINGS_SECTOR_SIZE), size, crc32) == Some(first)
    requires forall a :: a in ih ==> a < base + SETTINGS_SECTOR_SIZE
    ensures var m := ParseSectorsUpTo(ReadBytes(ih, base, SETTINGS_SECTOR_SIZE * count), size, crc32, n);
            && m.Some? && |m.value| == n && m.value[0] == first
            && forall i :: 0 < i < n ==> m.value[i].records.None?
  {
    hide ParseSector;
    var bin := ReadBytes(ih, base, SETTINGS_SECTOR_SIZE * count);
    ReadWithin(ih, base, SETTINGS_SECTOR_SIZE * count, SETTINGS_SECTOR_SIZE * (n - 1), SETTINGS_SECTOR_SIZE * n);
    if n == 1 {
      assert ParseSectorsUpTo(bin, size, crc32, 0) == Some([]);
    } else {
      ParseErasedSectors(ih, base, n - 1, count, size, crc32, first);
      ErasedRead(ih, base + SETTINGS_SECTOR_SIZE * (n - 1), SETTINGS_SECTOR_SIZE);
      ErasedSectorParsed(size, crc32);
    }
  }

  lemma ErasedSectorParsed(size: nat, crc32: Checksum)
    requires ATE_SIZE <= size && 2 * size <= SETTINGS_SECTOR_SIZE
    ensures ParseSector(Erased(SETTINGS_SECTOR_SIZE), size, crc32) == Some(Sector(ERASED, None))
  {
  }

  lemma WrittenBelow(ih: Hex, base: int, log: seq<Record>, w: nat)
    requires w > 0 && Framed(ih, base, log, w)
    ensures forall a :: a in ih ==> a < base + SETTINGS_SECTOR_SIZE
  {
    AtePosTop(Zms, |log|, ZmsAteSize(w));
  }

  /** `read` of an image with `extra` erased sectors behind the first. */
  function ReadImage(ih: Hex, base: int, w: nat, crc32: Checksum, extra: nat): ReadResult
    requires w > 0 && 2 * ZmsAteSize(w) <= SETTINGS_SECTOR_SIZE
  {
    Read(ReadBytes(ih, base, SETTINGS_SECTOR_SIZE * (1 + extra)), ZmsAteSize(w), crc32)
  }

  /** The records found in the first sector of an image. */
  function WalkImage(ih: Hex, base: int, log: seq<Record>, w: nat, crc32: Checksum): Option<Records>
    requires w > 0
  {
    DataAreaWalk(ReadBytes(ih, base, SETTINGS_SECTOR_SIZE), log, w, crc32)
  }

  lemma FirstSectorOnly(m: seq<Sector>, walk: Option<Records>)
    requires m != [] && m[0] == SectorFromWalk(walk)
    requires forall i :: 0 < i < |m| ==> m[i].records.None?
    ensures ParseSettings(IDS, OrderSectors(m)) ==
            if walk.None? || walk.value == [] then None else Some(SettingsOf(IDS, PutAll([], walk.value)))
  {
    hide SettingsOf, PutAll, OrderSectors;
    if walk.None? || walk.value == [] {
      NoneAtAll(m);
      NoOrder(m);
    } else {
      OneSectorRead(IDS, m, walk.value);
    }
  }

  lemma NoOrder(m: seq<Sector>)
    requires FirstRecordSector(m) == None
    ensures OrderSectors(m) == None
  {
  }

  /** What is read from a first sector whose walk is known. */
  lemma ReadByWalk(ih: Hex, base: int, log: seq<Record>, w: nat, crc32: Checksum, extra: nat, walk: Option<Records>)
    requires w > 0 && Framed(ih, base, log, w) && 2 * ZmsAteSize(w) <= SETTINGS_SECTOR_SIZE
    requires ParseSector(ReadBytes(ih, base, SETTINGS_SECTOR_SIZE), ZmsAteSize(w), crc32) == Some(SectorFromWalk(walk))
    ensures ReadImage(ih, base, w, crc32, extra) ==
            Returns(if walk.None? || walk.value == [] then None else Some(SettingsOf(IDS, PutAll([], walk.value))))
  {
    hide ParseSector, SettingsOf, PutAll, ReadBytes, ZmsAteSize, Framed, OrderSectors, ParseSectorsUpTo, ParseSettings;
    hide SectorFromWalk;
    WrittenBelow(ih, base, log, w);
    ParseErasedSectors(ih, base, 1 + extra, 1 + extra, ZmsAteSize(w), crc32, SectorFromWalk(walk));
    var m := ParseSectorsUpTo(ReadBytes(ih, base, SETTINGS_SECTOR_SIZE * (1 + extra)), ZmsAteSize(w), crc32,
                              1 + extra).value;
    FirstSectorOnly(m, walk);
  }

  /** The settings that `read` returns for the image of `log`, exactly. */
  lemma ZmsReadExactly(ih: Hex, base: int, log: seq<Record>, w: nat, crc32: Checksum, extra: nat)
    requires w > 0 && Holds(ih, base, log, w, crc32)
    ensures 2 * ZmsAteSize(w) <= SETTINGS_SECTOR_SIZE
    ensures ReadImage(ih, base, w, crc32, extra) ==
            var walk := WalkImage(ih, base, log, w, crc32);
            Returns(if walk.None? || walk.value == [] then None else Some(SettingsOf(IDS, PutAll([], walk.value))))
  {
    hide ParseSector, DataAreaWalk, SettingsOf, PutAll, ReadBytes, ZmsAteSize, Holds, Framed, ReadImage, SectorFromWalk;
    HoldsFrame(ih, base, log, w, crc32);
    WrittenSectorParsed(ih, base, log, w, crc32);
    ReadByWalk(ih, base, log, w, crc32, extra, WalkImage(ih, base, log, w, crc32));
  }

  /**
   Reading back the image of any dictionary that fits one sector gives the
   dictionary without its empty names and values, unless its data imitates an
   entry (see FakeEntryChangesSettings).
   */
  lemma ZmsRoundTrip(ih: Hex, base: int, kv: Settings, w: nat, crc32: Checksum, extra: nat)
    requires w > 0 && DistinctKeys(kv) && KvFits(kv, w)
    requires Holds(ih, base, KvLog(IDS, kv), w, crc32)
    requires NoFakeEntries(ReadBytes(ih, base, SETTINGS_SECTOR_SIZE), KvLog(IDS, kv), w)
    ensures 2 * ZmsAteSize(w) <= SETTINGS_SECTOR_SIZE
    ensures ReadImage(ih, base, w, crc32, extra) == Returns(if kv == [] then None else Some(Readable(kv)))
  {
    var log := KvLog(IDS, kv);
    assert kv == [] ==> PutAll([], log) == [];
    hide ReadImage, SettingsOf, ReadBytes, Holds, Readable, NoFakeEntries, DataAreaWalk, PutAll, KvLog, ZmsAteSize;
    WalkUnchanged(ih, base, log, w, crc32);
    ZmsReadExactly(ih, base, log, w, crc32, extra);
    if kv != [] {
      PutAllGrows([], log);
      PutAllDistinct([], log);
      CopyDict(PutAll([], log));
      SettingsSurvive(IDS, kv);
    }
  }
}
