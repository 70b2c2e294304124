/**
 When the ZMS image of a dictionary is read back as the dictionary, exactly: the
 reader takes blocks of the data area for entries, and what those add decides.
 */
module ZmsExact {
  import opened Wrappers
  import opened Bytes
  import opened OrderedDict
  import opened HexImage
  import opened SectorLayout
  import opened SettingsCore
  import opened SettingsTheorems
  import opened SettingsReading
  import opened ZmsAte
  import opened ZmsSettings

  /**
   The records that the blocks from the `k`-th down to the start of the sector add, in
   their order; None if one of them makes the reader give the sector up.
   */
  function AddedFrom(sector: seq<byte>, k: nat, size: nat, crc32: Checksum): Option<seq<Record>>
    requires size >= ATE_SIZE && AtePos(Zms, k, size) + size <= |sector|
    decreases AtePos(Zms, k, size) + size
  {
    if AtePos(Zms, k, size) < 0 then Some([])
    else
      match BlockAt(sector, AtePos(Zms, k, size), size, FIRST_CYCLE, crc32)
      case Skip => AddedFrom(sector, k + 1, size, crc32)
      case Abort => None
      case Add(r) =>
        match AddedFrom(sector, k + 1, size, crc32)
        case None => None
        case Some(rest) => Some([r] + rest)
  }

  /** The records that the data area adds to those of the image. */
  function Added(ih: Hex, base: int, log: seq<Record>, w: nat, crc32: Checksum): Option<seq<Record>>
    requires w > 0
  {
    AtePosTop(Zms, |log|, ZmsAteSize(w));
    AddedFrom(ReadBytes(ih, base, SETTINGS_SECTOR_SIZE), |log|, ZmsAteSize(w), crc32)
  }

  lemma {:induction false} WalkAdds(sector: seq<byte>, k: nat, size: nat, crc32: Checksum, records: Records)
    requires size >= ATE_SIZE && AtePos(Zms, k, size) + 2 * size <= |sector|
    ensures ParseAtes(sector, size, AtePos(Zms, k, size) + size, FIRST_CYCLE, crc32, records) ==
            match AddedFrom(sector, k, size, crc32)
            case None => None
            case Some(added) => Some(PutAll(records, added))
    decreases AtePos(Zms, k, size) + size
  {
    hide BlockAt, Put;
    assert AtePos(Zms, k + 1, size) == AtePos(Zms, k, size) - size;
    if AtePos(Zms, k, size) >= 0 {
      hide AtePos;
      match BlockAt(sector, AtePos(Zms, k, size), size, FIRST_CYCLE, crc32)
      case Skip => WalkAdds(sector, k + 1, size, crc32, records);
      case Abort =>
      case Add(r) =>
        WalkAdds(sector, k + 1, size, crc32, Put(records, r.0, r.1));
        if AddedFrom(sector, k + 1, size, crc32).Some? {
          var rest := AddedFrom(sector, k + 1, size, crc32).value;
          assert ([r] + rest)[1..] == rest;
        }
    }
  }

  /** The walk over a written image leaves its records and the added ones, the last write winning. */
  lemma WalkIs(ih: Hex, base: int, log: seq<Record>, w: nat, crc32: Checksum)
    requires w > 0 && Holds(ih, base, log, w, crc32)
    ensures WalkImage(ih, base, log, w, crc32) ==
            match Added(ih, base, log, w, crc32)
            case None => None
            case Some(added) => Some(PutAll([], log + added))
  {
    hide Holds, Framed, AddedFrom, ParseAtes, PutAll, ReadBytes, ZmsAteSize, AtePos;
    var sector := ReadBytes(ih, base, SETTINGS_SECTOR_SIZE);
    HoldsFrame(ih, base, log, w, crc32);
    RoomFor(ih, base, log, w);
    WalkFromTop(sector, log, w, crc32);
    WalkAdds(sector, |log|, ZmsAteSize(w), crc32, PutAll([], log));
    if Added(ih, base, log, w, crc32).Some? {
      PutAllAppend([], log, Added(ih, base, log, w, crc32).value);
    }
  }

  /** What is read, for every written image. */
  lemma ReadsAll(ih: Hex, base: int, log: seq<Record>, w: nat, crc32: Checksum, extra: nat)
    requires w > 0 && Holds(ih, base, log, w, crc32)
    ensures 2 * ZmsAteSize(w) <= SETTINGS_SECTOR_SIZE
    ensures ReadImage(ih, base, w, crc32, extra) ==
            match Added(ih, base, log, w, crc32)
            case None => Returns(None)
            case Some(added) =>
              Returns(if log + added == [] then None else Some(SettingsOf(IDS, PutAll([], log + added))))
  {
    ZmsReadExactly(ih, base, log, w, crc32, extra);
    hide Holds, PutAll, ReadImage, WalkImage, Added, SettingsOf, ZmsAteSize;
    WalkIs(ih, base, log, w, crc32);
    if Added(ih, base, log, w, crc32).Some? {
      var all := log + Added(ih, base, log, w, crc32).value;
      NothingPut();
      PutAllDistinct([], all);
      CopyDict(PutAll([], all));
      if all != [] {
        PutAllGrows([], all);
      }
    }
  }

  lemma NothingPut()
    ensures PutAll<int, seq<byte>>([], []) == []
  {
  }

  /** The result is a dictionary with the readable settings. */
  ghost predicate ReadsBack(r: ReadResult, kv: Settings) {
    r.Returns? && r.settings.Some? && SameDict(r.settings.value, Readable(kv))
  }

  /** What the data area adds to the records of a dictionary. */
  function AddedTo(ih: Hex, base: int, kv: Settings, w: nat, crc32: Checksum): Option<seq<Record>>
    requires w > 0 && KvFits(kv, w)
  {
    Added(ih, base, KvLog(IDS, kv), w, crc32)
  }

  lemma ReadsKv(ih: Hex, base: int, kv: Settings, w: nat, crc32: Checksum, extra: nat)
    requires w > 0 && KvFits(kv, w) && kv != [] && Holds(ih, base, KvLog(IDS, kv), w, crc32)
    ensures 2 * ZmsAteSize(w) <= SETTINGS_SECTOR_SIZE
    ensures ReadImage(ih, base, w, crc32, extra) ==
            match AddedTo(ih, base, kv, w, crc32)
            case None => Returns(None)
            case Some(added) => Returns(Some(SettingsOf(IDS, PutAll([], KvLog(IDS, kv) + added))))
  {
    hide Holds, PutAll, ReadImage, Added, SettingsOf, ZmsAteSize, KvLog, Fits;
    ReadsAll(ih, base, KvLog(IDS, kv), w, crc32, extra);
  }

  /**
   The round trip for every dictionary that fits: it is read back exactly if no block
   of the data area makes the reader give up, and the readable settings are the
   winners among the records of the dictionary and those the data area adds.
   */
  lemma ReadsBackIff(ih: Hex, base: int, kv: Settings, w: nat, crc32: Checksum, extra: nat)
    requires w > 0 && DistinctKeys(kv) && KvFits(kv, w) && kv != []
    requires Holds(ih, base, KvLog(IDS, kv), w, crc32)
    ensures 2 * ZmsAteSize(w) <= SETTINGS_SECTOR_SIZE
    ensures ReadsBack(ReadImage(ih, base, w, crc32, extra), kv) <==>
            var added := AddedTo(ih, base, kv, w, crc32);
            && added.Some?
            && forall name, value :: Wins(IDS, KvLog(IDS, kv) + added.value, name, value) <==>
               IsReadable(kv, name, value)
  {
    ReadsKv(ih, base, kv, w, crc32, extra);
    hide Holds, PutAll, ReadImage, AddedTo, SettingsOf, ZmsAteSize, KvLog, Fits, Wins, IsReadable, Readable, SameDict;
    var added := AddedTo(ih, base, kv, w, crc32);
    if added.Some? {
      ReadBackIff(IDS, kv, added.value);
    }
  }

  /**
   If moreover the data area gives no name of the dictionary to another id, then the
   dictionary is read back exactly if no id's name and value are disturbed; and then
   in its order.
   */
  lemma ReadsBackUndisturbed(ih: Hex, base: int, kv: Settings, w: nat, crc32: Checksum, extra: nat)
    requires w > 0 && DistinctKeys(kv) && KvFits(kv, w) && kv != []
    requires Holds(ih, base, KvLog(IDS, kv), w, crc32)
    ensures 2 * ZmsAteSize(w) <= SETTINGS_SECTOR_SIZE
    ensures var added := AddedTo(ih, base, kv, w, crc32);
            added.Some? && Undisturbed(IDS, kv, added.value) ==>
              ReadImage(ih, base, w, crc32, extra) == Returns(Some(Readable(kv)))
    ensures var added := AddedTo(ih, base, kv, w, crc32);
            added.Some? && NotMoved(IDS, kv, added.value) ==>
              (ReadsBack(ReadImage(ih, base, w, crc32, extra), kv) <==> Undisturbed(IDS, kv, added.value))
  {
    ReadsKv(ih, base, kv, w, crc32, extra);
    hide Holds, PutAll, ReadImage, AddedTo, SettingsOf, ZmsAteSize, KvLog, Fits, Undisturbed, NotMoved, Readable,
      SameDict;
    var added := AddedTo(ih, base, kv, w, crc32);
    if added.Some? {
      if Undisturbed(IDS, kv, added.value) {
        UndisturbedReads(IDS, kv, added.value);
      }
      if NotMoved(IDS, kv, added.value) {
        UndisturbedIff(IDS, kv, added.value);
      }
    }
  }

  /** Without settings there is no data area: nothing is read. */
  lemma EmptyReadsNothing(ih: Hex, base: int, w: nat, crc32: Checksum, extra: nat)
    requires w > 0 && Holds(ih, base, [], w, crc32)
    ensures 2 * ZmsAteSize(w) <= SETTINGS_SECTOR_SIZE
    ensures ReadImage(ih, base, w, crc32, extra) == Returns(None)
  {
    hide Holds, PutAll, ReadImage, SettingsOf, ZmsAteSize, NoFakeEntries, AteZms.IsValid, Deserialize;
    EmptyData(ReadBytes(ih, base, SETTINGS_SECTOR_SIZE), w);
    WalkUnchanged(ih, base, [], w, crc32);
    NothingPut();
    ZmsReadExactly(ih, base, [], w, crc32, extra);
  }

  lemma EmptyData(sector: seq<byte>, w: nat)
    requires w > 0 && |sector| == SETTINGS_SECTOR_SIZE
    ensures NoFakeEntries(sector, [], w)
  {
    assert DataEnd(Zms, [], w) == 0;
    hide AtePos, Deserialize, AteZms.IsValid, ZmsAteSize;
  }
}
