/** What a sector is taken for, told by the bytes of its last entries, for every sector. */
module SectorStatuses {
  import opened Wrappers
  import opened Bytes
  import opened HexImage
  import opened OrderedDict
  import opened SettingsCore
  import Crc8
  import NvsAte
  import NvsSettings
  import ZmsAte
  import ZmsSettings

  predicate AllErased(s: seq<byte>) {
    forall i :: 0 <= i < |s| ==> s[i] == 0xff
  }

  lemma AllErasedIs(s: seq<byte>)
    ensures AllErased(s) <==> s == Erased(|s|)
  {
  }

  // ----- NVS ---------------------------------------------------------------------------

  /** A close entry: a right CRC, ID 0xffff, no data, and the offset of an entry of the sector. */
  predicate NvsClose(s: seq<byte>) {
    && |s| >= 8 && s[7] == Crc8.Crc8(s[..7]) && FromLe16(s[..2]) == 0xffff && FromLe16(s[4..6]) == 0
    && FromLe16(s[2..4]) < 0x1000 - |s| && (0x1000 - FromLe16(s[2..4])) % |s| == 0
  }

  /**
   The status of every NVS sector, and its records. A sector is CLOSED if its last entry
   is a close entry, and OPEN if that is erased and there are records; one whose entries
   contradict each other is given up.
   */
  lemma NvsStatus(sector: seq<byte>, size: nat)
    requires |sector| == SETTINGS_SECTOR_SIZE && NvsAte.ATE_LEN_MIN <= size <= |sector|
    ensures var last := sector[|sector| - size..];
            NvsSettings.ParseSector(sector, size) ==
            if AllErased(sector) then Sector(ERASED, None)
            else if !NvsClose(last) && !AllErased(last) then Sector(NA, None)
            else
              match NvsSettings.ParseAtes(sector, size, |sector| - size, 0, [])
              case None => Sector(NA, None)
              case Some(records) =>
                if NvsClose(last) then Sector(CLOSED, Some(records))
                else if records == [] then Sector(NA, None)
                else Sector(OPEN, Some(records))
  {
    var last := sector[|sector| - size..];
    AllErasedIs(sector);
    AllErasedIs(last);
    NvsCloseIs(last);
    hide NvsSettings.ParseAtes, NvsSettings.IsCloseAte, NvsClose, AllErased, NvsAte.Ate.IsPopulated;
    assert NvsAte.Deserialize(last).IsPopulated() <==> last != Erased(|last|) by { NvsPopulated(last); }
    hide NvsAte.Deserialize;
  }

  lemma NvsPopulated(s: seq<byte>)
    requires |s| >= 8
    ensures NvsAte.Deserialize(s).IsPopulated() <==> s != Erased(|s|)
  {
  }

  lemma NvsCloseIs(s: seq<byte>)
    requires 8 <= |s| <= SETTINGS_SECTOR_SIZE
    ensures NvsSettings.IsCloseAte(NvsAte.Deserialize(s)) <==> NvsClose(s)
  {
    hide Crc8.Crc8;
  }

  // ----- ZMS ---------------------------------------------------------------------------

  /** An empty entry: a right CRC, the ID of the head, length 0xffff, offset 0 and the format's metadata. */
  predicate ZmsEmpty(e: ZmsAte.AteZms)
    requires e.InRange()
  {
    e.IsValidCrc8() && e.id == 0xffff_ffff && e.len == 0xffff && e.content == ZmsAte.SpecialInfo(0, 0x4201)
  }

  /** A close entry: a right CRC, the ID of the head, length 0, and the offset of an entry from the end. */
  predicate ZmsClose(e: ZmsAte.AteZms, size: nat)
    requires e.InRange() && size > 0
  {
    && e.IsValidCrc8() && e.id == 0xffff_ffff && e.len == 0
    && e.content.SpecialInfo? && e.content.metadata == 0xffff_ffff && (0x1000 - e.content.offset) % size == 0
  }

  lemma MadeIs(e: ZmsAte.AteZms, cycle: byte, len: nat, id: nat, content: ZmsAte.Content)
    requires e.InRange() && e.IsValidCrc8() && ZmsAte.AteZms(cycle, len, id, content, 0).InRange()
    ensures ZmsAte.MakeAte(cycle, len, id, content) == e <==>
            e.cycleCnt == cycle && e.len == len && e.id == id && e.content == content
  {
    var made := ZmsAte.MakeAte(cycle, len, id, content);
    if e.cycleCnt == cycle && e.len == len && e.id == id && e.content == content {
      assert made.Body() == e.Body();
    }
    hide Crc8.Crc8, ZmsAte.AteZms.Body, ZmsAte.MakeAte;
  }

  lemma ZmsEmptyIs(e: ZmsAte.AteZms)
    requires e.InRange()
    ensures ZmsSettings.IsEmptyAte(e) <==> ZmsEmpty(e)
  {
    hide ZmsAte.AteZms.IsValidCrc8, ZmsAte.MakeAte;
    if e.IsValidCrc8() {
      MadeIs(e, e.cycleCnt, 0xffff, 0xffff_ffff, ZmsAte.SpecialInfo(0, 0x4201));
    }
  }

  lemma ZmsCloseIs(e: ZmsAte.AteZms, size: nat)
    requires e.InRange() && size > 0 && !e.content.SmallData?
    ensures ZmsSettings.IsCloseAte(e, SETTINGS_SECTOR_SIZE, size) <==> ZmsClose(e, size)
  {
    hide ZmsAte.AteZms.IsValidCrc8, ZmsAte.MakeAte;
    if e.IsValidCrc8() {
      MadeIs(e, e.cycleCnt, 0, 0xffff_ffff, ZmsAte.SpecialInfo(e.content.offset, 0xffff_ffff));
    }
  }

  /** A valid entry with data of its own in the place of the close entry, at which the reader raises. */
  predicate ZmsInline(e: ZmsAte.AteZms)
    requires e.InRange()
  {
    e.IsValidCrc8() && e.id != 0xffff_ffff && e.len <= 8
  }

  lemma ZmsInlineIs(bytes: seq<byte>)
    requires |bytes| >= ZmsAte.ATE_SIZE
    ensures var e := ZmsAte.Deserialize(bytes);
            && (e.IsValidCrc8() && e.content.SmallData? <==> ZmsInline(e))
            && (e.content.SmallData? ==> e.id != 0xffff_ffff)
  {
    hide ZmsAte.AteZms.IsValidCrc8;
  }

  /**
   What the two last entries and the records found make of a ZMS sector: it needs an
   empty entry at its end, and is CLOSED if a close entry of the same cycle is before
   that. None where the reader raises.
   */
  function ZmsVerdict(empty: ZmsAte.AteZms, close: ZmsAte.AteZms, size: nat, walk: Option<Records>): Option<Sector>
    requires empty.InRange() && close.InRange() && size > 0
  {
    if !ZmsEmpty(empty) then Some(Sector(NA, None))
    else if ZmsInline(close) then None
    else
      match walk
      case None => Some(Sector(NA, None))
      case Some(records) =>
        if ZmsClose(close, size) && close.cycleCnt == empty.cycleCnt then Some(Sector(CLOSED, Some(records)))
        else if records == [] then Some(Sector(ERASED, None))
        else Some(Sector(OPEN, Some(records)))
  }

  function EmptyOf(sector: seq<byte>, size: nat): (ate: ZmsAte.AteZms)
    requires ZmsAte.ATE_SIZE <= size && 2 * size <= |sector|
    ensures ate.InRange()
  {
    ZmsAte.Deserialize(sector[|sector| - size..])
  }

  function CloseOf(sector: seq<byte>, size: nat): (ate: ZmsAte.AteZms)
    requires ZmsAte.ATE_SIZE <= size && 2 * size <= |sector|
    ensures ate.InRange()
  {
    ZmsAte.Deserialize(sector[|sector| - size - size..|sector| - size])
  }

  lemma ZmsCloseOrNot(sector: seq<byte>, size: nat)
    requires |sector| == SETTINGS_SECTOR_SIZE && ZmsAte.ATE_SIZE <= size && 2 * size <= |sector|
    ensures var close := CloseOf(sector, size);
            && (close.IsValidCrc8() && close.content.SmallData? <==> ZmsInline(close))
            && (!close.content.SmallData? && ZmsSettings.IsCloseAte(close, SETTINGS_SECTOR_SIZE, size) <==>
                ZmsClose(close, size))
  {
    var close := CloseOf(sector, size);
    ZmsInlineIs(sector[|sector| - size - size..|sector| - size]);
    if !close.content.SmallData? {
      ZmsCloseIs(close, size);
    }
    hide ZmsAte.AteZms.IsValidCrc8, ZmsAte.Deserialize, ZmsSettings.IsCloseAte;
  }

  /** The status of every ZMS sector that is not erased, and its records. */
  lemma ZmsStatus(sector: seq<byte>, size: nat, crc32: ZmsAte.Checksum)
    requires |sector| == SETTINGS_SECTOR_SIZE && ZmsAte.ATE_SIZE <= size && 2 * size <= |sector|
    ensures ZmsSettings.ParseSector(sector, size, crc32) ==
            if AllErased(sector) then Some(Sector(ERASED, None))
            else ZmsVerdict(EmptyOf(sector, size), CloseOf(sector, size), size,
                            ZmsSettings.ParseAtes(sector, size, |sector| - size - size,
                                                  EmptyOf(sector, size).cycleCnt, crc32, []))
  {
    AllErasedIs(sector);
    ZmsEmptyIs(EmptyOf(sector, size));
    ZmsCloseOrNot(sector, size);
    hide ZmsSettings.ParseAtes, ZmsSettings.IsCloseAte, ZmsSettings.IsEmptyAte, ZmsAte.AteZms.IsValidCrc8,
      ZmsAte.Deserialize, ZmsEmpty, ZmsClose, ZmsInline, AllErased;
  }
}
