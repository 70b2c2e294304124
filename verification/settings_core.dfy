/**
 The storage-independent half of the settings tool: the numbering of the
 records, the order of the sectors of a wrapped log, the consolidation of
 their records and the mapping from names to values.
 */
module SettingsCore {
  import opened Wrappers
  import opened Bytes
  import opened OrderedDict

  type Record = (int, seq<byte>)
  type Records = Dict<int, seq<byte>>

  /** Names and values; a name is its UTF-8 encoding. */
  type Settings = Dict<seq<byte>, seq<byte>>

  /** The record numbering of a back end. */
  datatype Ids = Ids(namecnt: nat, nameIdOffset: nat)

  datatype SectorStatus = ERASED | OPEN | CLOSED | NA

  datatype Sector = Sector(status: SectorStatus, records: Option<Records>) {
    /** What the sector parsers of both back ends guarantee. */
    predicate WellParsed() {
      (status.OPEN? || status.CLOSED?) <==> records.Some?
    }
  }

  // ----- Writing ---------------------------------------------------------

  /** The three records of the `i`-th setting: value, name, largest name ID. */
  function KvRecords(ids: Ids, i: nat, name: seq<byte>, value: seq<byte>): (log: seq<Record>)
    requires ids.namecnt + 1 + i < TWO_32
  {
    var id := ids.namecnt + 1 + i;
    [(id + ids.nameIdOffset, value), (id, name), (ids.namecnt, Le32(id))]
  }

  /** Everything that is written for the settings `kv`, in order. */
  function KvLog(ids: Ids, kv: Settings): (log: seq<Record>)
    requires ids.namecnt + |kv| < TWO_32
    ensures |log| == 3 * |kv|
  {
    if kv == [] then []
    else
      var n := |kv| - 1;
      KvLog(ids, kv[..n]) + KvRecords(ids, n, kv[n].0, kv[n].1)
  }

  // ----- Reading: names to values ----------------------------------------

  predicate IsNameId(ids: Ids, id: int) {
    ids.namecnt < id < ids.namecnt + ids.nameIdOffset
  }

  function AddSetting(ids: Ids, all: Records, acc: Settings, record: Record): Settings {
    if !IsNameId(ids, record.0) || record.1 == [] then acc
    else
      match Get(all, record.0 + ids.nameIdOffset)
      case None => acc
      case Some(value) => if value == [] then acc else Put(acc, record.1, value)
  }

  function AddSettings(ids: Ids, all: Records, acc: Settings, entries: seq<Record>): Settings
    decreases entries
  {
    if entries == [] then acc
    else AddSettings(ids, all, AddSetting(ids, all, acc, entries[0]), entries[1..])
  }

  /** The settings a consolidated record dictionary stands for. */
  function SettingsOf(ids: Ids, all: Records): Settings {
    AddSettings(ids, all, [], all)
  }

  // ----- Reading: the order of the sectors -------------------------------

  function AllRecords(sectors: seq<Sector>): (log: seq<Record>) {
    if sectors == [] then []
    else (match sectors[0].records case None => [] case Some(r) => r) + AllRecords(sectors[1..])
  }

  function RecordSectorCount(m: seq<Sector>): nat {
    if m == [] then 0
    else RecordSectorCount(m[..|m| - 1]) + if m[|m| - 1].records.Some? then 1 else 0
  }

  function FirstRecordSector(m: seq<Sector>): Option<nat> {
    if m == [] then None
    else
      match FirstRecordSector(m[..|m| - 1])
      case Some(i) => Some(i)
      case None => if m[|m| - 1].records.Some? then Some(|m| - 1) else None
  }

  /** `(i + 1) % n`, see ModNext. */
  function NextIndex(i: nat, n: nat): (r: nat)
    requires i < n
    ensures r < n
  {
    if i + 1 == n then 0 else i + 1
  }

  lemma ModNext(i: nat, n: nat)
    requires i < n
    ensures (i + 1) % n == NextIndex(i, n)
  {
  }

  predicate ClosedToOpen(m: seq<Sector>, idx: nat)
    requires idx < |m|
  {
    m[idx].status.CLOSED? && m[NextIndex(idx, |m|)].status.OPEN?
  }

  /** The largest `idx < n` at which a CLOSED sector is followed by an OPEN one. */
  function LastTransition(m: seq<Sector>, n: nat): (r: Option<nat>)
    requires n <= |m|
    ensures r.Some? ==> r.value < n && ClosedToOpen(m, r.value)
    ensures r.None? ==> forall i: nat :: i < n ==> !ClosedToOpen(m, i)
  {
    if n == 0 then None
    else if ClosedToOpen(m, n - 1) then Some(n - 1)
    else LastTransition(m, n - 1)
  }

  function NewestSectorId(m: seq<Sector>): (r: nat)
    requires m != []
    ensures r < |m|
  {
    match LastTransition(m, |m|)
    case Some(i) => NextIndex(i, |m|)
    case None => |m| - 1
  }

  function SettingsRange(m: seq<Sector>): (r: Option<(nat, nat)>)
    ensures r.Some? ==> r.value.0 < r.value.1 <= |m|
  {
    match FirstRecordSector(m)
    case None => None
    case Some(first) =>
      FirstRecordSectorMeaning(m);
      if RecordSectorCount(m) == 1 then Some((first, first + 1)) else Some((first, |m|))
  }

  function Rotate(m: seq<Sector>, k: nat): seq<Sector>
    requires k <= |m|
  {
    m[k..] + m[..k]
  }

  function OrderSectors(m: seq<Sector>): Option<seq<Sector>> {
    if m == [] then None
    else
      match SettingsRange(m)
      case None => None
      case Some((lo, hi)) =>
        Some(OldestFirst(m[lo..hi]))
  }

  function OldestFirst(m: seq<Sector>): seq<Sector> {
    if |m| > 1 then Rotate(m, NextIndex(NewestSectorId(m), |m|)) else m
  }

  /** The result of `_parse_settings` on ordered sectors. */
  function ParseSettings(ids: Ids, ordered: Option<seq<Sector>>): Option<Settings> {
    match ordered
    case None => None
    case Some(sectors) => Some(SettingsOf(ids, PutAll([], AllRecords(sectors))))
  }

  lemma {:induction false} FirstRecordSectorMeaning(m: seq<Sector>)
    ensures match FirstRecordSector(m)
            case None => forall i :: 0 <= i < |m| ==> m[i].records.None?
            case Some(f) => f < |m| && m[f].records.Some? && forall i :: 0 <= i < f ==> m[i].records.None?
    ensures FirstRecordSector(m).None? <==> RecordSectorCount(m) == 0
  {
    if m != [] {
      FirstRecordSectorMeaning(m[..|m| - 1]);
    }
  }

  // ----- The loops of the source -----------------------------------------

  method GetSectorsAdditionalMetadata(m: seq<Sector>) returns (count: nat, first: Option<nat>)
    ensures count == RecordSectorCount(m) && first == FirstRecordSector(m)
  {
    count, first := 0, None;
    for idx := 0 to |m|
      invariant count == RecordSectorCount(m[..idx]) && first == FirstRecordSector(m[..idx])
    {
      assert m[..idx + 1][..idx] == m[..idx];
      if m[idx].records.Some? {
        if first.None? {
          first := Some(idx);
        }
        count := count + 1;
      }
    }
    assert m[..|m|] == m;
  }

  method FindNewestSectorId(m: seq<Sector>) returns (newest: nat)
    requires m != []
    ensures newest == NewestSectorId(m)
  {
    var newestIdx: Option<nat> := None;
    for idx := 0 to |m|
      invariant newestIdx == match LastTransition(m, idx) case None => None case Some(i) => Some(NextIndex(i, |m|))
    {
      ModNext(idx, |m|);
      if m[idx].status.CLOSED? && m[(idx + 1) % |m|].status.OPEN? {
        newestIdx := Some((idx + 1) % |m|);
      }
    }
    newest := if newestIdx.None? then |m| - 1 else newestIdx.value;
  }

  method OrderSectorsInPlace(m: seq<Sector>) returns (ordered: Option<seq<Sector>>)
    ensures ordered == OrderSectors(m)
  {
    if |m| == 0 {
      return None;
    }
    var count, first := GetSectorsAdditionalMetadata(m);
    FirstRecordSectorMeaning(m);
    if count == 0 {
      return None;
    }
    var lo, hi := first.value, |m|;
    if count == 1 {
      hi := first.value + 1;
    }
    var metadata := m[lo..hi];
    if |metadata| > 1 {
      var idx := FindNewestSectorId(metadata);
      ModNext(idx, |metadata|);
      idx := (idx + 1) % |metadata|;
      metadata := metadata[idx..] + metadata[..idx];
    }
    ordered := Some(metadata);
  }

  method ParseSettingsLoop(ids: Ids, ordered: Option<seq<Sector>>) returns (settings: Option<Settings>)
    ensures settings == ParseSettings(ids, ordered)
  {
    if ordered.None? {
      return None;
    }
    var sectors := ordered.value;
    var consolidated: Records := [];
    for s := 0 to |sectors|
      invariant PutAll([], AllRecords(sectors)) == PutAll(consolidated, AllRecords(sectors[s..]))
    {
      var before := consolidated;
      assert sectors[s..][0] == sectors[s] && sectors[s..][1..] == sectors[s + 1..];
      if sectors[s].records.Some? {
        var records := sectors[s].records.value;
        for r := 0 to |records|
          invariant PutAll(before, records) == PutAll(consolidated, records[r..])
        {
          assert records[r..][0] == records[r] && records[r..][1..] == records[r + 1..];
          consolidated := Put(consolidated, records[r].0, records[r].1);
        }
        PutAllAppend(before, records, AllRecords(sectors[s + 1..]));
      } else {
        assert AllRecords(sectors[s..]) == [] + AllRecords(sectors[s + 1..]) == AllRecords(sectors[s + 1..]);
      }
    }
    var result: Settings := [];
    for c := 0 to |consolidated|
      invariant SettingsOf(ids, consolidated) == AddSettings(ids, consolidated, result, consolidated[c..])
    {
      var (recordId, value) := consolidated[c];
      assert consolidated[c..][1..] == consolidated[c + 1..];
      if recordId <= ids.namecnt || recordId >= ids.namecnt + ids.nameIdOffset {
        continue;
      }
      if |value| == 0 {
        continue;
      }
      var settingsValue := Get(consolidated, recordId + ids.nameIdOffset);
      if settingsValue.None? || |settingsValue.value| == 0 {
        continue;
      }
      result := Put(result, value, settingsValue.value);
    }
    settings := Some(result);
  }
}
