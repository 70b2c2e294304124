/** The NVS image writer: `SettingsNVS` with its two moving offsets. */
module NvsWriter {
  import opened Bytes
  import opened OrderedDict
  import opened HexImage
  import opened SectorLayout
  import opened SettingsCore
  import opened SettingsTheorems
  import opened NvsAte
  import opened NvsSettings

  /** The image after writing the entry of one record behind `log`, but not its data. */
  function WithEntry(ih: Hex, base: int, log: seq<Record>, id: int, data: seq<byte>, w: nat): Hex
    requires w > 0 && 0 <= id < TWO_16 && |data| < TWO_16 && DataEnd(Nvs, log, w) < TWO_16
  {
    FromBytes(ih, Serialize(id, DataEnd(Nvs, log, w), |data|, AteSize(w)), base + AtePos(Nvs, |log|, AteSize(w)))
  }

  /** The image after writing one record behind `log`. */
  function WithRecord(ih: Hex, base: int, log: seq<Record>, id: int, data: seq<byte>, w: nat): Hex
    requires w > 0 && 0 <= id < TWO_16 && |data| < TWO_16 && DataEnd(Nvs, log, w) < TWO_16
  {
    FromBytes(WithEntry(ih, base, log, id, data, w), Padded(data, w), base + DataEnd(Nvs, log, w))
  }

  /**
   What a record that does not fit leaves behind: nothing for a field out of range;
   the entry if that already runs into the data; else entry and data.
   */
  function Rejected(ih: Hex, base: int, log: seq<Record>, id: int, data: seq<byte>, w: nat): Hex
    requires w > 0
  {
    if !(0 <= id < TWO_16) || |data| >= TWO_16 || DataEnd(Nvs, log, w) >= TWO_16 then ih
    else if AtePos(Nvs, |log| + 1, AteSize(w)) < DataEnd(Nvs, log, w) then WithEntry(ih, base, log, id, data, w)
    else WithRecord(ih, base, log, id, data, w)
  }

  /** The record just written is in place. */
  lemma NewRecordAt(ih: Hex, base: int, log: seq<Record>, id: int, data: seq<byte>, w: nat)
    requires w > 0 && 0 <= id < TWO_16 && Fits(Nvs, log + [(id, data)], w)
    requires |data| < TWO_16 && DataEnd(Nvs, log, w) < TWO_16
    ensures RecordAt(WithRecord(ih, base, log, id, data, w), base, log + [(id, data)], |log|, w)
  {
    hide Serialize, Padded, ReadBytes, FromBytes, AlignedLen, AtePos, DataEnd;
    var size := AteSize(w);
    var log' := log + [(id, data)];
    assert log'[..|log|] == log;
    var ate := Serialize(id, DataEnd(Nvs, log, w), |data|, size);
    var h := FromBytes(ih, ate, base + AtePos(Nvs, |log|, size));
    EntryPlace(log', |log|, w);
    ReadWritten(ih, ate, base + AtePos(Nvs, |log|, size));
    NewDataBelow(log, id, data, w);
    ReadElsewhere(h, Padded(data, w), base + DataEnd(Nvs, log, w), base + AtePos(Nvs, |log|, size), size);
    ReadPadded(h, data, base + DataEnd(Nvs, log, w), w);
  }

  lemma NextOffsets(log: seq<Record>, id: int, data: seq<byte>, w: nat)
    requires w > 0
    ensures DataEnd(Nvs, log + [(id, data)], w) == DataEnd(Nvs, log, w) + AlignedLen(|data|, w)
    ensures AtePos(Nvs, |log| + 1, AteSize(w)) == AtePos(Nvs, |log|, AteSize(w)) - AteSize(w)
  {
    assert (log + [(id, data)])[..|log|] == log;
  }

  lemma NewDataBelow(log: seq<Record>, id: int, data: seq<byte>, w: nat)
    requires w > 0 && Fits(Nvs, log + [(id, data)], w)
    ensures var end := DataEnd(Nvs, log, w) + AlignedLen(|data|, w);
            end == DataEnd(Nvs, log + [(id, data)], w) && end <= AtePos(Nvs, |log|, AteSize(w)) - AteSize(w)
  {
    NextOffsets(log, id, data, w);
  }

  /** Records written earlier stay in place. */
  lemma OldRecordAt(ih: Hex, base: int, log: seq<Record>, id: int, data: seq<byte>, w: nat, k: nat)
    requires w > 0 && 0 <= id < TWO_16 && Fits(Nvs, log, w) && Fits(Nvs, log + [(id, data)], w)
    requires |data| < TWO_16 && DataEnd(Nvs, log, w) < TWO_16
    requires k < |log| && RecordAt(ih, base, log, k, w)
    ensures RecordAt(WithRecord(ih, base, log, id, data, w), base, log + [(id, data)], k, w)
  {
    hide Serialize, Padded, ReadBytes, FromBytes, AlignedLen, AtePos, DataEnd;
    var size := AteSize(w);
    var log' := log + [(id, data)];
    assert log'[..k] == log[..k];
    var ate := Serialize(id, DataEnd(Nvs, log, w), |data|, size);
    var newAte, newData := base + AtePos(Nvs, |log|, size), base + DataEnd(Nvs, log, w);
    var h := FromBytes(ih, ate, newAte);
    var oldAte, oldData := base + AtePos(Nvs, k, size), base + DataEnd(Nvs, log[..k], w);
    AtePosBounds(Nvs, k, |log|, size);
    DataEndBounds(Nvs, log, k, w);
    EntryPlace(log, k, w);
    NewDataBelow(log, id, data, w);
    ReadElsewhere(ih, ate, newAte, oldAte, size);
    ReadElsewhere(ih, ate, newAte, oldData, |log[k].1|);
    ReadElsewhere(h, Padded(data, w), newData, oldAte, size);
    ReadElsewhere(h, Padded(data, w), newData, oldData, |log[k].1|);
  }

  lemma RestStaysErased(ih: Hex, base: int, log: seq<Record>, id: int, data: seq<byte>, w: nat)
    requires w > 0 && 0 <= id < TWO_16 && Fits(Nvs, log + [(id, data)], w)
    requires |data| < TWO_16 && DataEnd(Nvs, log, w) < TWO_16
    requires RestErased(ih, base, log, w)
    ensures RestErased(WithRecord(ih, base, log, id, data, w), base, log + [(id, data)], w)
  {
    hide Serialize, Padded, AlignedLen;
    NewDataBelow(log, id, data, w);
    AtePosTop(Nvs, |log|, AteSize(w));
  }

  /** Writing one more record extends what the image holds. */
  lemma HoldsExtends(ih: Hex, base: int, log: seq<Record>, id: int, data: seq<byte>, w: nat)
    requires w > 0 && Holds(ih, base, log, w)
    requires 0 <= id < TWO_16 && Fits(Nvs, log + [(id, data)], w)
    ensures |data| < TWO_16 && DataEnd(Nvs, log, w) < TWO_16
    ensures Holds(WithRecord(ih, base, log, id, data, w), base, log + [(id, data)], w)
  {
    hide WithRecord, RecordAt, RestErased;
    NewDataBelow(log, id, data, w);
    AtePosTop(Nvs, |log|, AteSize(w));
    NewRecordAt(ih, base, log, id, data, w);
    RestStaysErased(ih, base, log, id, data, w);
    forall k | 0 <= k < |log|
      ensures RecordAt(WithRecord(ih, base, log, id, data, w), base, log + [(id, data)], k, w)
    {
      OldRecordAt(ih, base, log, id, data, w, k);
    }
  }

  lemma TooLong(log: seq<Record>, id: int, data: seq<byte>, w: nat)
    requires w > 0
    requires Fits(Nvs, log + [(id, data)], w)
    ensures |data| < TWO_16 && Fits(Nvs, log, w) && DataEnd(Nvs, log, w) < TWO_16
  {
    var log' := log + [(id, data)];
    assert log'[..|log|] == log;
    FitsPrefix(Nvs, log', |log|, w);
    NewDataBelow(log, id, data, w);
    AtePosTop(Nvs, |log|, AteSize(w));
  }

  class SettingsNvs {
    const base: int
    const writeBlockSize: nat

    var ih: Hex
    var ateOffset: int
    var dataOffset: nat

    /** The records written so far. */
    ghost var log: seq<Record>

    ghost predicate Formatted()
      reads this
    {
      && writeBlockSize > 0
      && ateOffset == AtePos(Nvs, |log|, AteSize(writeBlockSize))
      && dataOffset == DataEnd(Nvs, log, writeBlockSize)
      && Holds(ih, base, log, writeBlockSize)
    }

    ghost predicate Blank()
      reads this
    {
      && writeBlockSize > 0
      && ih == map[] && log == []
      && ateOffset == SETTINGS_SECTOR_SIZE - AteSize(writeBlockSize)
      && dataOffset == 0
    }

    constructor (base: int, writeBlockSize: nat)
      requires writeBlockSize > 0
      ensures Blank() && this.base == base && this.writeBlockSize == writeBlockSize
    {
      this.base := base;
      this.writeBlockSize := writeBlockSize;
      ih := map[];
      ateOffset := SETTINGS_SECTOR_SIZE - AteSize(writeBlockSize);
      dataOffset := 0;
      log := [];
    }

    /** Leaves the last entry of the sector free for the close entry. */
    method WriteSectorInitRecords() returns (ok: bool)
      requires Blank()
      modifies this
      ensures ok <==> Fits(Nvs, [], writeBlockSize)
      ensures ok ==> Formatted() && log == []
    {
      ateOffset := ateOffset - AteSize(writeBlockSize);
      ok := ateOffset >= dataOffset;
    }

    /** `ok` is false where the source raises: a bad field, or a full sector. */
    method WriteSingleDataRecord(recordId: int, data: seq<byte>) returns (ok: bool)
      requires Formatted()
      modifies this
      ensures ok <==> 0 <= recordId < TWO_16 && Fits(Nvs, old(log) + [(recordId, data)], writeBlockSize)
      ensures ok ==> Formatted() && log == old(log) + [(recordId, data)]
      ensures !ok ==> log == old(log) && ih == Rejected(old(ih), base, old(log), recordId, data, writeBlockSize)
    {
      hide Holds, DataEnd, AtePos, Serialize, Padded, AlignedLen, FromBytes, AteSize;
      ghost var log' := log + [(recordId, data)];
      NextOffsets(log, recordId, data, writeBlockSize);
      if Fits(Nvs, log', writeBlockSize) {
        TooLong(log, recordId, data, writeBlockSize);
        if 0 <= recordId < TWO_16 {
          HoldsExtends(ih, base, log, recordId, data, writeBlockSize);
        }
      }
      if !(0 <= recordId < TWO_16) || dataOffset >= TWO_16 || |data| >= TWO_16 {
        return false;
      }
      var ate := SerializeAte(recordId, dataOffset, |data|, AteSize(writeBlockSize));
      ih := FromBytes(ih, ate, base + ateOffset);
      ateOffset := ateOffset - |ate|;
      if ateOffset < dataOffset {
        return false;
      }
      var alignedData := AlignData(data, writeBlockSize);
      ih := FromBytes(ih, alignedData, base + dataOffset);
      dataOffset := dataOffset + |alignedData|;
      if ateOffset < dataOffset {
        return false;
      }
      log := log';
      ok := true;
    }

    /** Value, name and largest name ID, in this order. */
    method WriteSingleKvRecord(i: nat, name: seq<byte>, value: seq<byte>) returns (ok: bool)
      requires Formatted() && i < SETTINGS_SECTOR_SIZE
      modifies this
      ensures ok <==> Fits(Nvs, old(log) + KvRecords(IDS, i, name, value), writeBlockSize)
      ensures ok ==> Formatted() && log == old(log) + KvRecords(IDS, i, name, value)
    {
      hide Holds, DataEnd, AtePos, Fits, Le32;
      var keyRecordId := IDS.namecnt + 1 + i;
      ghost var r := KvRecords(IDS, i, name, value);
      ghost var log0 := log;
      assert log0 + r == log0 + [r[0]] + [r[1]] + [r[2]];
      PrefixesFit(Nvs, log0, r, writeBlockSize);
      ok := WriteSingleDataRecord(keyRecordId + IDS.nameIdOffset, value);
      if ok {
        ok := WriteSingleDataRecord(keyRecordId, name);
      }
      if ok {
        ok := WriteSingleDataRecord(IDS.namecnt, Le32(keyRecordId));
      }
    }

    /**
     `write`: succeeds exactly for settings that fit one sector; then the image
     holds their records, and reading it back gives the settings again.
     */
    method Write(kv: Settings) returns (ok: bool)
      requires Blank() && DistinctKeys(kv)
      modifies this
      ensures ok <==> KvFits(kv, writeBlockSize)
      ensures ok ==> Formatted() && log == KvLog(IDS, kv)
      ensures ok ==> AteSize(writeBlockSize) <= SETTINGS_SECTOR_SIZE
                     && forall extra: nat :: ReadsBack(ih, base, kv, writeBlockSize, extra)
    {
      hide Fits, KvLog, RestErased, RecordAt, ReadsBack, DataEnd, AtePos, AteSize;
      assert KvLog(IDS, []) == [] && kv[..0] == [] by { EmptyLog(IDS); }
      ok := WriteSectorInitRecords();
      if !ok {
        if |kv| < SETTINGS_SECTOR_SIZE {
          PrefixNotFitting(Nvs, IDS, kv, 0, writeBlockSize);
        }
        return false;
      }
      for i := 0 to |kv|
        invariant Formatted() && i < SETTINGS_SECTOR_SIZE
        invariant log == KvLog(IDS, kv[..i])
      {
        KvLogNext(IDS, kv, i);
        ok := WriteSingleKvRecord(i, kv[i].0, kv[i].1);
        if !ok {
          if |kv| < SETTINGS_SECTOR_SIZE {
            PrefixNotFitting(Nvs, IDS, kv, i + 1, writeBlockSize);
          }
          return false;
        }
        FewRecords(Nvs, log, writeBlockSize);
      }
      assert kv[..|kv|] == kv;
      NvsRoundTrip(ih, base, kv, writeBlockSize, 0);
      forall extra: nat
        ensures ReadsBack(ih, base, kv, writeBlockSize, extra)
      {
        NvsRoundTrip(ih, base, kv, writeBlockSize, extra);
      }
      ok := true;
    }
  }
}
