/** The ZMS image writer: `SettingsZMS` with its two moving offsets. */
module ZmsWriter {
  import opened Wrappers
  import opened Bytes
  import opened OrderedDict
  import opened HexImage
  import opened SectorLayout
  import opened SettingsCore
  import opened SettingsTheorems
  import opened ZmsAte
  import opened ZmsSettings
  import Crc8

  /** The image after the entry `ate` was written at `addr`. */
  function WithEntry(ih: Hex, addr: int, ate: AteZms, w: nat): Hex
    requires w > 0 && ate.InRange()
  {
    FromBytes(ih, Padded(ate.Serialize(), w), addr)
  }

  /** The image after writing one record behind `log`. */
  function WithRecord(ih: Hex, base: int, log: seq<Record>, id: int, data: seq<byte>, w: nat, crc32: Checksum): Hex
    requires w > 0 && 0 <= id < HEAD_ID && |data| < TWO_16 && DataEnd(Zms, log, w) < TWO_32
  {
    var h := WithEntry(ih, base + AtePos(Zms, |log|, ZmsAteSize(w)), EntryFor(id, data, DataEnd(Zms, log, w), crc32),
                       w);
    if IsSmall(data) then h else FromBytes(h, Padded(data, w), base + DataEnd(Zms, log, w))
  }

  /**
   What a record that does not fit leaves behind: nothing for a field out of range;
   the entry of big data if that already runs into the data; else all that it has.
   */
  function Rejected(ih: Hex, base: int, log: seq<Record>, id: int, data: seq<byte>, w: nat, crc32: Checksum): Hex
    requires w > 0 && 0 <= id < HEAD_ID
  {
    if |data| >= TWO_16 || DataEnd(Zms, log, w) >= TWO_32 then ih
    else if AtePos(Zms, |log| + 1, ZmsAteSize(w)) < DataEnd(Zms, log, w) then
      WithEntry(ih, base + AtePos(Zms, |log|, ZmsAteSize(w)), EntryFor(id, data, DataEnd(Zms, log, w), crc32), w)
    else WithRecord(ih, base, log, id, data, w, crc32)
  }

  lemma EntryBytesLen(ate: AteZms, w: nat)
    requires w > 0 && ate.InRange()
    ensures |Padded(ate.Serialize(), w)| == ZmsAteSize(w)
  {
  }

  lemma ReadEntry(ih: Hex, addr: int, ate: AteZms, w: nat)
    requires w > 0 && ate.InRange()
    ensures ReadBytes(WithEntry(ih, addr, ate, w), addr, ATE_SIZE) == ate.Serialize()
  {
    hide ReadBytes, FromBytes, AteZms.Serialize, AlignedLen;
    ReadPadded(ih, ate.Serialize(), addr, w);
  }

  /** The data length that counts in the data area. */
  function BigLen(data: seq<byte>, w: nat): (n: nat)
    requires w > 0
    ensures IsSmall(data) ==> n == 0
    ensures !IsSmall(data) ==> n == AlignedLen(|data|, w) >= |data|
  {
    if IsSmall(data) then 0 else AlignedLen(|data|, w)
  }

  lemma NextOffsets(log: seq<Record>, id: int, data: seq<byte>, w: nat)
    requires w > 0
    ensures DataEnd(Zms, log + [(id, data)], w) == DataEnd(Zms, log, w) + BigLen(data, w)
    ensures AtePos(Zms, |log| + 1, ZmsAteSize(w)) == AtePos(Zms, |log|, ZmsAteSize(w)) - ZmsAteSize(w)
  {
    assert (log + [(id, data)])[..|log|] == log;
    hide AlignedLen;
  }

  lemma NewBelow(log: seq<Record>, id: int, data: seq<byte>, w: nat)
    requires w > 0 && Fits(Zms, log + [(id, data)], w)
    ensures DataEnd(Zms, log, w) + BigLen(data, w) == DataEnd(Zms, log + [(id, data)], w)
    ensures DataEnd(Zms, log, w) + BigLen(data, w) <= AtePos(Zms, |log|, ZmsAteSize(w)) - ZmsAteSize(w)
    ensures AtePos(Zms, |log|, ZmsAteSize(w)) <= SETTINGS_SECTOR_SIZE - 4 * ZmsAteSize(w)
    ensures |data| < TWO_16 && DataEnd(Zms, log, w) < TWO_16 && Fits(Zms, log, w)
  {
    hide AlignedLen, ZmsAteSize, AtePos, DataEnd, BigLen;
    AtePosTop(Zms, |log|, ZmsAteSize(w));
    NextOffsets(log, id, data, w);
    assert |log + [(id, data)]| == |log| + 1;
  }

  /** Bytes above the new entry or below the new data. */
  predicate Apart(base: int, log: seq<Record>, w: nat, at: int, n: nat)
    requires w > 0
  {
    base + AtePos(Zms, |log|, ZmsAteSize(w)) + ZmsAteSize(w) <= at
        || (base <= at && at + n <= base + DataEnd(Zms, log, w))
  }

  lemma UntouchedByEntry(ih: Hex, base: int, log: seq<Record>, ate: AteZms, w: nat, at: int, n: nat)
    requires w > 0 && ate.InRange() && Apart(base, log, w, at, n)
    requires DataEnd(Zms, log, w) <= AtePos(Zms, |log|, ZmsAteSize(w))
    ensures ReadBytes(WithEntry(ih, base + AtePos(Zms, |log|, ZmsAteSize(w)), ate, w), at, n) == ReadBytes(ih, at, n)
  {
    hide ReadBytes, FromBytes, AtePos, DataEnd, Padded, AteZms.Serialize, ZmsAteSize;
    EntryBytesLen(ate, w);
    ReadElsewhere(ih, Padded(ate.Serialize(), w), base + AtePos(Zms, |log|, ZmsAteSize(w)), at, n);
  }

  /** Bytes that neither the entry nor the data of a new record touch. */
  lemma Untouched(ih: Hex, base: int, log: seq<Record>, id: int, data: seq<byte>, w: nat, crc32: Checksum, at: int,
                  n: nat)
    requires w > 0 && 0 <= id < HEAD_ID && |data| < TWO_16 && DataEnd(Zms, log, w) < TWO_32
    requires Fits(Zms, log + [(id, data)], w) && Apart(base, log, w, at, n)
    ensures ReadBytes(WithRecord(ih, base, log, id, data, w, crc32), at, n) == ReadBytes(ih, at, n)
  {
    hide ReadBytes, FromBytes, AtePos, DataEnd, Padded, EntryFor, Fits, ZmsAteSize, WithEntry, BigLen;
    NewBelow(log, id, data, w);
    var ate := EntryFor(id, data, DataEnd(Zms, log, w), crc32);
    UntouchedByEntry(ih, base, log, ate, w, at, n);
    if !IsSmall(data) {
      ReadElsewhere(WithEntry(ih, base + AtePos(Zms, |log|, ZmsAteSize(w)), ate, w), Padded(data, w),
                    base + DataEnd(Zms, log, w), at, n);
    }
  }

  lemma NewRecordAt(ih: Hex, base: int, log: seq<Record>, id: int, data: seq<byte>, w: nat, crc32: Checksum)
    requires w > 0 && 0 <= id < HEAD_ID && |data| < TWO_16 && DataEnd(Zms, log, w) < TWO_32
    requires Fits(Zms, log + [(id, data)], w)
    ensures RecordAt(WithRecord(ih, base, log, id, data, w, crc32), base, log + [(id, data)], |log|, w, crc32)
  {
    hide ReadBytes, FromBytes, AtePos, DataEnd, AlignedLen, Padded, EntryFor, AteZms.Serialize, Fits, ZmsAteSize,
      WithEntry;
    assert (log + [(id, data)])[..|log|] == log;
    NewBelow(log, id, data, w);
    var addr := base + AtePos(Zms, |log|, ZmsAteSize(w));
    var ate := EntryFor(id, data, DataEnd(Zms, log, w), crc32);
    var h := WithEntry(ih, addr, ate, w);
    ReadEntry(ih, addr, ate, w);
    if !IsSmall(data) {
      ReadElsewhere(h, Padded(data, w), base + DataEnd(Zms, log, w), addr, ATE_SIZE);
      ReadPadded(h, data, base + DataEnd(Zms, log, w), w);
    }
  }

  lemma OldRecordAt(ih: Hex, base: int, log: seq<Record>, id: int, data: seq<byte>, w: nat, crc32: Checksum, k: nat)
    requires w > 0 && 0 <= id < HEAD_ID && |data| < TWO_16 && DataEnd(Zms, log, w) < TWO_32
    requires Fits(Zms, log + [(id, data)], w)
    requires k < |log| && RecordAt(ih, base, log, k, w, crc32)
    ensures RecordAt(WithRecord(ih, base, log, id, data, w, crc32), base, log + [(id, data)], k, w, crc32)
  {
    hide ReadBytes, AtePos, DataEnd, EntryFor, AteZms.Serialize, Fits, ZmsAteSize, WithRecord;
    var log' := log + [(id, data)];
    assert log'[..k] == log[..k] && log'[k] == log[k];
    AtePosBounds(Zms, k, |log|, ZmsAteSize(w));
    DataEndBounds(Zms, log, k, w);
    Untouched(ih, base, log, id, data, w, crc32, base + AtePos(Zms, k, ZmsAteSize(w)), ATE_SIZE);
    if !IsSmall(log[k].1) {
      Untouched(ih, base, log, id, data, w, crc32, base + DataEnd(Zms, log[..k], w), |log[k].1|);
    }
  }

  lemma RestStaysErased(ih: Hex, base: int, log: seq<Record>, id: int, data: seq<byte>, w: nat, crc32: Checksum)
    requires w > 0 && 0 <= id < HEAD_ID && |data| < TWO_16 && DataEnd(Zms, log, w) < TWO_32
    requires Fits(Zms, log + [(id, data)], w) && RestErased(ih, base, log, w)
    ensures RestErased(WithRecord(ih, base, log, id, data, w, crc32), base, log + [(id, data)], w)
  {
    hide EntryFor, AteZms.Serialize, Padded, AlignedLen, Fits, AtePos, DataEnd, ZmsAteSize;
    NewBelow(log, id, data, w);
    NextOffsets(log, id, data, w);
    EntryBytesLen(EntryFor(id, data, DataEnd(Zms, log, w), crc32), w);
  }

  /** Writing one more record extends what the image holds. */
  lemma HoldsExtends(ih: Hex, base: int, log: seq<Record>, id: int, data: seq<byte>, w: nat, crc32: Checksum)
    requires w > 0 && Holds(ih, base, log, w, crc32)
    requires 0 <= id < HEAD_ID && Fits(Zms, log + [(id, data)], w)
    ensures |data| < TWO_16 && DataEnd(Zms, log, w) < TWO_32
    ensures Holds(WithRecord(ih, base, log, id, data, w, crc32), base, log + [(id, data)], w, crc32)
  {
    hide WithRecord, RecordAt, RestErased, AtePos, DataEnd, ZmsAteSize, EmptyAte, ReadBytes;
    NewBelow(log, id, data, w);
    NewRecordAt(ih, base, log, id, data, w, crc32);
    RestStaysErased(ih, base, log, id, data, w, crc32);
    Untouched(ih, base, log, id, data, w, crc32, base + SETTINGS_SECTOR_SIZE - ZmsAteSize(w), ATE_SIZE);
    forall k | 0 <= k < |log|
      ensures RecordAt(WithRecord(ih, base, log, id, data, w, crc32), base, log + [(id, data)], k, w, crc32)
    {
      OldRecordAt(ih, base, log, id, data, w, crc32, k);
    }
  }

  /** The image with the empty entry only. */
  lemma InitHolds(base: int, w: nat, crc32: Checksum)
    requires w > 0 && Fits(Zms, [], w)
    ensures Holds(WithEntry(map[], base + SETTINGS_SECTOR_SIZE - ZmsAteSize(w), EmptyAte(FIRST_CYCLE), w), base, [],
                  w, crc32)
  {
    hide EmptyAte, AteZms.Serialize, AlignedLen, ZmsAteSize;
    EntryBytesLen(EmptyAte(FIRST_CYCLE), w);
    ReadEntry(map[], base + SETTINGS_SECTOR_SIZE - ZmsAteSize(w), EmptyAte(FIRST_CYCLE), w);
  }

  lemma UpToDate(ate: AteZms)
    requires ate.InRange() && ate.IsValidCrc8()
    ensures ate.(crc8 := Crc8.Crc8(ate.Body())) == ate
  {
    hide Crc8.Crc8, AteZms.Body;
  }

  lemma InitOffsets(w: nat)
    requires w > 0
    ensures AtePos(Zms, 0, ZmsAteSize(w)) == SETTINGS_SECTOR_SIZE - ZmsAteSize(w) - ZmsAteSize(w) - 2 * ZmsAteSize(w)
    ensures DataEnd(Zms, [], w) == 0
    ensures Fits(Zms, [], w) <==> AtePos(Zms, 0, ZmsAteSize(w)) >= 0
  {
    hide ZmsAteSize;
  }

  class SettingsZms {
    const base: int
    const writeBlockSize: nat
    const crc32: Checksum

    var ih: Hex
    var ateOffset: int
    var dataOffset: nat

    /** The records written so far. */
    ghost var log: seq<Record>

    ghost predicate Formatted()
      reads this
    {
      && writeBlockSize > 0
      && ateOffset == AtePos(Zms, |log|, ZmsAteSize(writeBlockSize))
      && dataOffset == DataEnd(Zms, log, writeBlockSize)
      && Holds(ih, base, log, writeBlockSize, crc32)
    }

    ghost predicate Blank()
      reads this
    {
      && writeBlockSize > 0
      && ih == map[] && log == []
      && ateOffset == SETTINGS_SECTOR_SIZE - ZmsAteSize(writeBlockSize)
      && dataOffset == 0
    }

    constructor (base: int, writeBlockSize: nat, crc32: Checksum)
      requires writeBlockSize > 0
      ensures Blank() && this.base == base && this.writeBlockSize == writeBlockSize && this.crc32 == crc32
    {
      this.base := base;
      this.writeBlockSize := writeBlockSize;
      this.crc32 := crc32;
      ih := map[];
      ateOffset := SETTINGS_SECTOR_SIZE - ZmsAteSize(writeBlockSize);
      dataOffset := 0;
      log := [];
    }

    /** Writes an entry and moves below it; false if it runs into the data. */
    method WriteZmsAte(ate: AteZms) returns (ok: bool)
      requires writeBlockSize > 0 && ate.InRange() && ate.IsValidCrc8()
      modifies this`ih, this`ateOffset
      ensures ih == WithEntry(old(ih), base + old(ateOffset), ate, writeBlockSize)
      ensures ateOffset == old(ateOffset) - ZmsAteSize(writeBlockSize)
      ensures ok <==> ateOffset >= dataOffset
    {
      hide ZmsAteSize, AlignedLen, Padded, FromBytes, AteZms.Serialize;
      EntryBytesLen(ate, writeBlockSize);
      UpToDate(ate);
      var serialized := SerializeAteZms(ate);
      serialized := AlignData(serialized, writeBlockSize);
      ih := FromBytes(ih, serialized, base + ateOffset);
      ateOffset := ateOffset - |serialized|;
      ok := ateOffset >= dataOffset;
    }

    /** The empty entry, then room for the close and the GC-done entry. */
    method WriteSectorInitRecords() returns (ok: bool)
      requires Blank()
      modifies this
      ensures ok <==> Fits(Zms, [], writeBlockSize)
      ensures ok ==> Formatted() && log == []
    {
      hide ZmsAteSize, Holds, EmptyAte, WithEntry, AteZms.IsValidCrc8;
      InitOffsets(writeBlockSize);
      if Fits(Zms, [], writeBlockSize) {
        InitHolds(base, writeBlockSize, crc32);
      }
      hide AtePos, DataEnd, Fits;
      EmptyAteValid();
      ok := WriteZmsAte(EmptyAte(FIRST_CYCLE));
      if !ok {
        return;
      }
      ateOffset := ateOffset - 2 * ZmsAteSize(writeBlockSize);
      ok := ateOffset >= dataOffset;
    }

    /** Big data goes to the data area, small data into the entry itself. */
    method WriteSingleDataRecord(recordId: int, data: seq<byte>) returns (ok: bool)
      requires Formatted() && 0 <= recordId < HEAD_ID
      modifies this
      ensures ok <==> Fits(Zms, old(log) + [(recordId, data)], writeBlockSize)
      ensures ok ==> Formatted() && log == old(log) + [(recordId, data)]
      ensures !ok ==> log == old(log)
      ensures !ok ==> ih == Rejected(old(ih), base, old(log), recordId, data, writeBlockSize, crc32)
    {
      hide Holds, DataEnd, AtePos, Padded, AlignedLen, FromBytes, ZmsAteSize, WithEntry;
      ghost var log' := log + [(recordId, data)];
      NextOffsets(log, recordId, data, writeBlockSize);
      if Fits(Zms, log', writeBlockSize) {
        NewBelow(log, recordId, data, writeBlockSize);
        HoldsExtends(ih, base, log, recordId, data, writeBlockSize, crc32);
      }
      if |data| >= TWO_16 || dataOffset >= TWO_32 {
        return false;
      }
      if |data| > MAX_SMALL {
        var content := DataInfo(dataOffset, crc32(data));
        ok := WriteZmsAte(MakeAte(FIRST_CYCLE, |data|, recordId, content));
        if !ok {
          return;
        }
        var alignedData := AlignData(data, writeBlockSize);
        ih := FromBytes(ih, alignedData, base + dataOffset);
        dataOffset := dataOffset + |alignedData|;
        ok := ateOffset >= dataOffset;
      } else {
        var content := SmallData(data + Erased(MAX_SMALL - |data|));
        ok := WriteZmsAte(MakeAte(FIRST_CYCLE, |data|, recordId, content));
      }
      if ok {
        log := log';
      }
    }

    method WriteSingleKvRecord(i: nat, name: seq<byte>, value: seq<byte>) returns (ok: bool)
      requires Formatted() && i < SETTINGS_SECTOR_SIZE
      modifies this
      ensures ok <==> Fits(Zms, old(log) + KvRecords(IDS, i, name, value), writeBlockSize)
      ensures ok ==> Formatted() && log == old(log) + KvRecords(IDS, i, name, value)
    {
      hide Holds, DataEnd, AtePos, Fits, Le32;
      var keyRecordId := IDS.namecnt + 1 + i;
      ghost var r := KvRecords(IDS, i, name, value);
      ghost var log0 := log;
      assert log0 + r == log0 + [r[0]] + [r[1]] + [r[2]];
      PrefixesFit(Zms, log0, r, writeBlockSize);
      ok := WriteSingleDataRecord(keyRecordId + IDS.nameIdOffset, value);
      if ok {
        ok := WriteSingleDataRecord(keyRecordId, name);
      }
      if ok {
        ok := WriteSingleDataRecord(IDS.namecnt, Le32(keyRecordId));
      }
    }

    /**
     `write`: succeeds exactly for settings that fit one sector; then the image
     holds their records, which ZmsRoundTrip turns back into the settings.
     */
    method Write(kv: Settings) returns (ok: bool)
      requires Blank() && DistinctKeys(kv)
      modifies this
      ensures ok <==> KvFits(kv, writeBlockSize)
      ensures ok ==> Formatted() && log == KvLog(IDS, kv)
    {
      hide Fits, KvLog, RestErased, RecordAt, DataEnd, AtePos, ZmsAteSize, EmptyAte, ReadBytes;
      assert KvLog(IDS, []) == [] && kv[..0] == [] by { EmptyLog(IDS); }
      ok := WriteSectorInitRecords();
      if !ok {
        if |kv| < SETTINGS_SECTOR_SIZE {
          PrefixNotFitting(Zms, IDS, kv, 0, writeBlockSize);
        }
        return false;
      }
      for i := 0 to |kv|
        invariant Formatted() && i < SETTINGS_SECTOR_SIZE
        invariant log == KvLog(IDS, kv[..i])
      {
        KvLogNext(IDS, kv, i);
        ok := WriteSingleKvRecord(i, kv[i].0, kv[i].1);
        if !ok {
          if |kv| < SETTINGS_SECTOR_SIZE {
            PrefixNotFitting(Zms, IDS, kv, i + 1, writeBlockSize);
          }
          return false;
        }
        FewRecords(Zms, log, writeBlockSize);
      }
      assert kv[..|kv|] == kv;
      ok := true;
    }
  }

  lemma EmptyAteValid()
    ensures EmptyAte(FIRST_CYCLE).IsValidCrc8()
  {
    assert EmptyAte(FIRST_CYCLE).IsValid(FIRST_CYCLE);
  }
}
