/**
 A wrapped NVS partition, down to its bytes: closed sectors around an open one are
 read as the log of all their records in chronological order.
 */
module NvsRing {
  import opened Wrappers
  import opened Bytes
  import opened OrderedDict
  import opened HexImage
  import opened SectorLayout
  import opened SettingsCore
  import opened SettingsTheorems
  import opened SettingsReading
  import opened NvsAte
  import opened NvsSettings

  /** A sector with the records of a log; a closed one has a close entry with an offset. */
  datatype Stored = Stored(ih: Hex, log: seq<Record>, close: Option<nat>)

  /** The last entry: the close entry, or erased flash. */
  function LastEntry(s: Stored, size: nat): (entry: seq<byte>)
    requires size >= ATE_LEN_MIN && (s.close.Some? ==> s.close.value < TWO_16)
    ensures |entry| == size
  {
    match s.close
    case None => Erased(size)
    case Some(offset) => Serialize(0xffff, offset, 0, size)
  }

  /** The sector holds its records, and its close entry refers to an entry of the sector. */
  ghost predicate Proper(s: Stored, w: nat)
    requires w > 0
  {
    && Holds(s.ih, 0, s.log, w) && PlainIds(s.log)
    && (s.close.Some? ==>
          && s.close.value < SETTINGS_SECTOR_SIZE - AteSize(w)
          && (SETTINGS_SECTOR_SIZE - s.close.value) % AteSize(w) == 0)
  }

  lemma SizeFits(s: Stored, w: nat)
    requires w > 0 && Proper(s, w)
    ensures 2 * AteSize(w) <= SETTINGS_SECTOR_SIZE
  {
    AtePosTop(Nvs, |s.log|, AteSize(w));
    hide AtePos, DataEnd, AteSize;
  }

  /** The bytes of the sector. */
  ghost function SectorOf(s: Stored, w: nat): (sector: seq<byte>)
    requires w > 0 && Proper(s, w)
    ensures |sector| == SETTINGS_SECTOR_SIZE
  {
    SizeFits(s, w);
    ReadBytes(s.ih, 0, SETTINGS_SECTOR_SIZE - AteSize(w)) + LastEntry(s, AteSize(w))
  }

  lemma SliceAgrees(a: seq<byte>, b: seq<byte>, n: nat, lo: nat, hi: nat)
    requires |a| == |b| && lo <= hi <= n <= |a| && a[..n] == b[..n]
    ensures a[lo..hi] == b[lo..hi]
  {
    assert a[lo..hi] == a[..n][lo..hi] && b[lo..hi] == b[..n][lo..hi];
  }

  /** The entries below the last one do not depend on it. */
  lemma {:induction false} SameWalk(a: seq<byte>, b: seq<byte>, size: nat, atePtr: int, dataPtr: nat, records: Records)
    requires size >= ATE_LEN_MIN && atePtr + size <= |a| == |b| && (atePtr >= 0 ==> a[..atePtr] == b[..atePtr])
    ensures ParseAtes(a, size, atePtr, dataPtr, records) == ParseAtes(b, size, atePtr, dataPtr, records)
    decreases atePtr + size
  {
    hide Deserialize, Ate.IsValid, Ate.IsPopulated, Put;
    var ptr := atePtr - size;
    if atePtr >= 0 && ptr >= dataPtr {
      SliceAgrees(a, b, atePtr, ptr, ptr + size);
      SliceAgrees(a, b, atePtr, 0, ptr);
      var ate := Deserialize(a[ptr..ptr + size]);
      if ate.IsPopulated() {
        if !ate.IsValid() {
          SameWalk(a, b, size, ptr, dataPtr, records);
        } else if dataPtr <= ate.dataOffset && ate.dataOffset + ate.dataLen < ptr {
          var end := ate.dataOffset + ate.dataLen;
          SliceAgrees(a, b, atePtr, ate.dataOffset, end);
          SameWalk(a, b, size, ptr, end, Put(records, ate.recordId, a[ate.dataOffset..end]));
        }
      }
    }
  }

  /** The last entry, and below it what the image holds. */
  lemma SectorParts(s: Stored, w: nat)
    requires w > 0 && Proper(s, w)
    ensures 2 * AteSize(w) <= SETTINGS_SECTOR_SIZE
    ensures var last := SETTINGS_SECTOR_SIZE - AteSize(w);
            && SectorOf(s, w)[last..] == LastEntry(s, AteSize(w))
            && SectorOf(s, w)[..last] == ReadBytes(s.ih, 0, SETTINGS_SECTOR_SIZE)[..last]
  {
    SizeFits(s, w);
    hide Proper, LastEntry, ReadBytes, AteSize;
    ReadWithin(s.ih, 0, SETTINGS_SECTOR_SIZE, 0, SETTINGS_SECTOR_SIZE - AteSize(w));
  }

  lemma CloseEntry(offset: nat, size: nat)
    requires ATE_LEN_MIN <= size <= SETTINGS_SECTOR_SIZE
    requires offset < SETTINGS_SECTOR_SIZE - size && (SETTINGS_SECTOR_SIZE - offset) % size == 0
    ensures IsCloseAte(Deserialize(Serialize(0xffff, offset, 0, size)))
    ensures Serialize(0xffff, offset, 0, size) != Erased(size)
  {
    AteRoundTrip(0xffff, offset, 0, size);
    LastSlotErased(size);
    hide Serialize, Ate.IsValid;
  }

  /** A closed sector is parsed to its records, the last write winning. */
  lemma ClosedSectorParsed(s: Stored, w: nat)
    requires w > 0 && Proper(s, w) && s.close.Some?
    ensures AteSize(w) <= SETTINGS_SECTOR_SIZE
    ensures ParseSector(SectorOf(s, w), AteSize(w)) == Sector(CLOSED, Some(PutAll([], s.log)))
  {
    var size := AteSize(w);
    hide SectorOf, Serialize, ReadBytes, AteSize, PutAll, ParseAtes, IsCloseAte, Deserialize, ParseSector;
    CloseEntry(s.close.value, size) by { SizeFits(s, w); }
    SectorParts(s, w);
    hide LastEntry;
    ClosedWalk(s, w);
    hide Proper;
    ClosedByParts(SectorOf(s, w), size, PutAll([], s.log), LastEntry(s, size));
  }

  lemma ClosedWalk(s: Stored, w: nat)
    requires w > 0 && Proper(s, w)
    ensures 2 * AteSize(w) <= SETTINGS_SECTOR_SIZE
    ensures ParseAtes(SectorOf(s, w), AteSize(w), SETTINGS_SECTOR_SIZE - AteSize(w), 0, []) == Some(PutAll([], s.log))
  {
    hide SectorOf, LastEntry, ReadBytes, AteSize, PutAll, ParseAtes, Holds, PlainIds, WalkFrom;
    var size := AteSize(w);
    var plain := ReadBytes(s.ih, 0, SETTINGS_SECTOR_SIZE);
    SectorParts(s, w);
    ParseWritten(s.ih, 0, s.log, 0, w, size);
    WalkStart(plain, s.log, w);
    SameWalk(SectorOf(s, w), plain, size, SETTINGS_SECTOR_SIZE - size, 0, []);
  }

  lemma ClosedByParts(sector: seq<byte>, size: nat, records: Records, last: seq<byte>)
    requires |sector| == SETTINGS_SECTOR_SIZE && ATE_LEN_MIN <= size <= SETTINGS_SECTOR_SIZE
    requires sector[SETTINGS_SECTOR_SIZE - size..] == last && last != Erased(size)
    requires IsCloseAte(Deserialize(last))
    requires ParseAtes(sector, size, SETTINGS_SECTOR_SIZE - size, 0, []) == Some(records)
    ensures ParseSector(sector, size) == Sector(CLOSED, Some(records))
  {
    hide ParseAtes, IsCloseAte, Deserialize, Ate.IsPopulated;
    assert Erased(SETTINGS_SECTOR_SIZE)[SETTINGS_SECTOR_SIZE - size..] == Erased(size);
  }

  /** A sector that is not closed is what the writer leaves. */
  lemma OpenSectorParsed(s: Stored, w: nat)
    requires w > 0 && Proper(s, w) && s.close.None?
    ensures AteSize(w) <= SETTINGS_SECTOR_SIZE
    ensures ParseSector(SectorOf(s, w), AteSize(w)) ==
            if s.log == [] then Sector(ERASED, None) else Sector(OPEN, Some(PutAll([], s.log)))
  {
    var size := AteSize(w);
    SizeFits(s, w);
    SectorParts(s, w);
    AtePosTop(Nvs, |s.log|, size);
    var sector, plain := SectorOf(s, w), ReadBytes(s.ih, 0, SETTINGS_SECTOR_SIZE);
    var last := SETTINGS_SECTOR_SIZE - size;
    assert plain[last..] == Erased(size) by {
      hide ReadBytes, AtePos, DataEnd, AteSize;
      SliceOfSector(s.ih, 0, last, size);
      ErasedRead(s.ih, last, size);
      assert plain[last..last + size] == plain[last..];
    }
    assert sector == plain by {
      hide ReadBytes, AteSize, SectorOf;
      assert plain == plain[..last] + plain[last..] && sector == sector[..last] + sector[last..];
    }
    hide SectorOf, ReadBytes, AteSize, PutAll, Holds, PlainIds, ParseSector;
    WrittenSectorParsed(s.ih, 0, s.log, w);
  }

  // ----- Rings --------------------------------------------------------------------------

  /** Sector `p` is open, all other sectors are closed or erased, and the one before it is closed. */
  ghost predicate IsRing(ring: seq<Stored>, p: nat, w: nat)
    requires w > 0
  {
    && 2 <= |ring| && p < |ring|
    && (forall i :: 0 <= i < |ring| ==> Proper(ring[i], w))
    && (forall i :: 0 <= i < |ring| ==> (ring[i].close.None? && ring[i].log != [] <==> i == p))
    && ring[Previous(|ring|, p)].close.Some?
  }

  /** The sectors' records, one sector after the other. */
  function RawLog(ring: seq<Stored>): seq<Record> {
    if ring == [] then [] else ring[0].log + RawLog(ring[1..])
  }

  /** What the parser makes of a sector. */
  function ParsedSector(s: Stored): Sector {
    if s.close.Some? then Sector(CLOSED, Some(PutAll([], s.log)))
    else if s.log == [] then Sector(ERASED, None)
    else Sector(OPEN, Some(PutAll([], s.log)))
  }

  function ParsedRing(ring: seq<Stored>): seq<Sector> {
    seq(|ring|, i requires 0 <= i < |ring| => ParsedSector(ring[i]))
  }

  lemma SectorParsedAs(s: Stored, w: nat)
    requires w > 0 && Proper(s, w)
    ensures AteSize(w) <= SETTINGS_SECTOR_SIZE
    ensures ParseSector(SectorOf(s, w), AteSize(w)) == ParsedSector(s)
  {
    hide ParseSector, SectorOf, AteSize, Proper, PutAll;
    if s.close.Some? {
      ClosedSectorParsed(s, w);
    } else {
      OpenSectorParsed(s, w);
    }
  }

  lemma RingIsWrapped(ring: seq<Stored>, p: nat, w: nat)
    requires w > 0 && IsRing(ring, p, w)
    ensures IsWrappedLog(ParsedRing(ring), p)
  {
    hide Proper, PutAll;
  }

  /** Consolidating the sectors first does not matter. */
  lemma {:induction false} RawIsConsolidated(d: Records, ring: seq<Stored>)
    ensures PutAll(d, AllRecords(ParsedRing(ring))) == PutAll(d, RawLog(ring))
    decreases ring
  {
    hide PutAll;
    if ring == [] {
      assert ParsedRing(ring) == [];
    } else {
      var s, rest := ring[0], ring[1..];
      var r := match ParsedSector(s).records case None => [] case Some(x) => x;
      assert ParsedRing(ring)[0] == ParsedSector(s) && ParsedRing(ring)[1..] == ParsedRing(rest);
      assert AllRecords(ParsedRing(ring)) == r + AllRecords(ParsedRing(rest));
      PutAllAppend(d, r, AllRecords(ParsedRing(rest)));
      PutAllAppend(d, s.log, RawLog(rest));
      ConsolidateFirst(d, s.log);
      if ParsedSector(s).records.None? {
        assert s.log == [];
      }
      RawIsConsolidated(PutAll(d, s.log), rest);
    }
  }

  lemma RotatedRing(ring: seq<Stored>, p: nat)
    requires p < |ring|
    ensures Chronological(ParsedRing(ring), p) == ParsedRing(ring[p + 1..] + ring[..p + 1])
  {
    hide ParsedSector;
  }

  /** The partition is the ring, sector by sector. */
  ghost predicate StoredIn(bin: seq<byte>, ring: seq<Stored>, w: nat)
    requires w > 0 && forall i :: 0 <= i < |ring| ==> Proper(ring[i], w)
  {
    && |bin| == SETTINGS_SECTOR_SIZE * |ring|
    && forall i :: 0 <= i < |ring| ==> SectorBytes(bin, i) == SectorOf(ring[i], w)
  }

  lemma RingParsed(bin: seq<byte>, ring: seq<Stored>, p: nat, w: nat)
    requires w > 0 && IsRing(ring, p, w) && StoredIn(bin, ring, w)
    ensures AteSize(w) <= SETTINGS_SECTOR_SIZE && |bin| % SETTINGS_SECTOR_SIZE == 0
    ensures ParseSectors(bin, AteSize(w)) == ParsedRing(ring)
  {
    hide ParseSector, SectorOf, AteSize, Proper, ParsedSector;
    SectorParsedAs(ring[0], w);
    forall i | 0 <= i < |ring| ensures ParseSectors(bin, AteSize(w))[i] == ParsedSector(ring[i]) {
      SectorParsedAs(ring[i], w);
    }
  }

  /**
   Reading a wrapped partition: whatever sector is open, the settings are those of all
   records from the oldest sector to the open one, and a name has the value of the
   last-introduced id that these records leave it.
   */
  lemma RingReadsChronologically(bin: seq<byte>, ring: seq<Stored>, p: nat, w: nat)
    requires w > 0 && IsRing(ring, p, w) && StoredIn(bin, ring, w)
    ensures AteSize(w) <= SETTINGS_SECTOR_SIZE && |bin| % SETTINGS_SECTOR_SIZE == 0
    ensures var log := RawLog(ring[p + 1..] + ring[..p + 1]);
            var settings := Read(bin, AteSize(w));
            && settings == Some(SettingsOf(IDS, PutAll([], log)))
            && forall name, value :: Get(settings.value, name) == Some(value) <==> Wins(IDS, log, name, value)
  {
    hide ParseSector, SectorOf, AteSize, Proper, ParsedSector, PutAll, SettingsOf, Wins, Get, ParseSettings,
      OrderSectors, ParsedRing;
    var log := RawLog(ring[p + 1..] + ring[..p + 1]);
    RingParsed(bin, ring, p, w);
    RingIsWrapped(ring, p, w);
    RotatedRing(ring, p);
    RawIsConsolidated([], ring[p + 1..] + ring[..p + 1]);
    WrappedLogReadsChronologically(IDS, ParsedRing(ring), p);
    forall name, value
      ensures Get(SettingsOf(IDS, PutAll([], log)), name) == Some(value) <==> Wins(IDS, log, name, value)
    {
      ReadMeans(IDS, log, name, value);
    }
  }
}
