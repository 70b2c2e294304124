/**
 What the settings reader promises independently of the storage format: a
 wrapped log is read in chronological order, and the records written for a
 dictionary give that dictionary back.
 */
module SettingsTheorems {
  import opened Wrappers
  import opened Bytes
  import opened OrderedDict
  import opened SettingsCore

  // ----- Wrapped logs ------------------------------------------------------

  function Previous(n: nat, p: nat): (r: nat)
    requires p < n
    ensures r < n && NextIndex(r, n) == p
  {
    if p == 0 then n - 1 else p - 1
  }

  /** A ring of parsed sectors whose only OPEN sector, `p`, follows a CLOSED one. */
  ghost predicate IsWrappedLog(m: seq<Sector>, p: nat) {
    && 2 <= |m| && p < |m|
    && (forall i :: 0 <= i < |m| ==> m[i].WellParsed())
    && (forall i :: 0 <= i < |m| ==> (m[i].status.OPEN? <==> i == p))
    && m[Previous(|m|, p)].status.CLOSED?
  }

  /** The sectors of the ring from the oldest to the newest. */
  function Chronological(m: seq<Sector>, p: nat): seq<Sector>
    requires p < |m|
  {
    Rotate(m, p + 1)
  }

  lemma {:induction false} TwoRecordSectors(m: seq<Sector>, i: nat, j: nat)
    requires i < j < |m|
    requires m[i].records.Some? && m[j].records.Some?
    ensures RecordSectorCount(m) >= 2
  {
    var n := |m| - 1;
    if j < n {
      TwoRecordSectors(m[..n], i, j);
    } else {
      FirstRecordSectorMeaning(m[..n]);
      assert m[..n][i].records.Some?;
    }
  }

  lemma TransitionUnique(m: seq<Sector>, p: nat, f: nat, i: nat)
    requires IsWrappedLog(m, p)
    requires f <= p && f <= Previous(|m|, p)
    requires i < |m| - f
    ensures ClosedToOpen(m[f..], i) <==> i == if p == 0 then |m| - 1 else p - 1 - f
  {
    var n := |m| - f;
    assert m[f..][i] == m[f + i];
    assert m[f..][NextIndex(i, n)] == m[f + NextIndex(i, n)];
  }

  lemma OneTransition(m: seq<Sector>, p: nat, f: nat)
    requires IsWrappedLog(m, p)
    requires f <= p && f <= Previous(|m|, p)
    ensures NewestSectorId(m[f..]) == p - f
  {
    var n := |m| - f;
    var t := if p == 0 then |m| - 1 else p - 1 - f;
    TransitionUnique(m, p, f, t);
    var last := LastTransition(m[f..], n);
    if last.Some? {
      TransitionUnique(m, p, f, last.value);
    }
  }

  lemma RingStart(m: seq<Sector>, p: nat)
    requires IsWrappedLog(m, p)
    ensures var first := FirstRecordSector(m);
            && first.Some? && first.value <= p && first.value <= Previous(|m|, p)
            && (forall i :: 0 <= i < first.value ==> m[i].records.None?)
    ensures RecordSectorCount(m) >= 2
  {
    var q := Previous(|m|, p);
    FirstRecordSectorMeaning(m);
    assert m[p].WellParsed() && m[q].WellParsed();
    if q < p {
      TwoRecordSectors(m, q, p);
    } else {
      TwoRecordSectors(m, p, q);
    }
  }

  lemma RotateToEnd(m: seq<Sector>, p: nat, f: nat)
    requires f <= p < |m|
    ensures Rotate(m[f..], NextIndex(p - f, |m| - f)) == m[p + 1..] + m[f..p + 1]
  {
    var sub := m[f..];
    if p == |m| - 1 {
      assert sub[0..] + sub[..0] == m[p + 1..] + m[f..p + 1];
    } else {
      assert sub[p - f + 1..] == m[p + 1..] && sub[..p - f + 1] == m[f..p + 1];
    }
  }

  lemma OrderSectorsFrom(m: seq<Sector>, f: nat)
    requires FirstRecordSector(m) == Some(f) && f + 1 < |m|
    requires RecordSectorCount(m) >= 2
    ensures OrderSectors(m) == Some(Rotate(m[f..], NextIndex(NewestSectorId(m[f..]), |m| - f)))
  {
    assert SettingsRange(m) == Some((f, |m|));
    assert m[f..|m|] == m[f..];
    assert OrderSectors(m) == Some(OldestFirst(m[f..]));
  }

  /** The reader ends with the OPEN sector and drops record-free sectors only. */
  lemma OrderSectorsIsRotation(m: seq<Sector>, p: nat)
    requires IsWrappedLog(m, p)
    ensures var first := FirstRecordSector(m);
            && first.Some? && first.value <= p
            && (forall i :: 0 <= i < first.value ==> m[i].records.None?)
            && OrderSectors(m) == Some(m[p + 1..] + m[first.value..p + 1])
  {
    RingStart(m, p);
    var f := FirstRecordSector(m).value;
    OrderSectorsFrom(m, f);
    OneTransition(m, p, f);
    RotateToEnd(m, p, f);
  }

  lemma {:induction false} AllRecordsAppend(a: seq<Sector>, b: seq<Sector>)
    ensures AllRecords(a + b) == AllRecords(a) + AllRecords(b)
    decreases a
  {
    if a == [] {
      assert a + b == b;
    } else {
      assert (a + b)[0] == a[0] && (a + b)[1..] == a[1..] + b;
      AllRecordsAppend(a[1..], b);
    }
  }

  lemma {:induction false} NoRecords(m: seq<Sector>)
    requires forall i :: 0 <= i < |m| ==> m[i].records.None?
    ensures AllRecords(m) == []
  {
    if m != [] {
      NoRecords(m[1..]);
    }
  }

  lemma ChronologicalRecords(m: seq<Sector>, p: nat, f: nat)
    requires f <= p < |m|
    requires forall i :: 0 <= i < f ==> m[i].records.None?
    ensures AllRecords(Chronological(m, p)) == AllRecords(m[p + 1..] + m[f..p + 1])
  {
    assert m[..p + 1] == m[..f] + m[f..p + 1];
    AllRecordsAppend(m[p + 1..], m[..p + 1]);
    AllRecordsAppend(m[..f], m[f..p + 1]);
    AllRecordsAppend(m[p + 1..], m[f..p + 1]);
    NoRecords(m[..f]);
    assert [] + AllRecords(m[f..p + 1]) == AllRecords(m[f..p + 1]);
  }

  /**
   The settings read from a wrapped log are those of its records in
   chronological order, and for every record ID the last record wins.
   */
  lemma WrappedLogReadsChronologically(ids: Ids, m: seq<Sector>, p: nat)
    requires IsWrappedLog(m, p)
    ensures var log := AllRecords(Chronological(m, p));
            && ParseSettings(ids, OrderSectors(m)) == Some(SettingsOf(ids, PutAll([], log)))
            && forall id :: Get(PutAll([], log), id) == LastWrite(log, id)
  {
    OrderSectorsIsRotation(m, p);
    var f := FirstRecordSector(m).value;
    ChronologicalRecords(m, p, f);
    var log := AllRecords(Chronological(m, p));
    forall id ensures Get(PutAll([], log), id) == LastWrite(log, id) {
      LastWriteWins(log, id);
    }
  }

  /** One written sector followed by erased ones. */
  lemma OneSectorRead(ids: Ids, m: seq<Sector>, records: Records)
    requires m != [] && m[0] == Sector(OPEN, Some(records))
    requires forall i :: 0 < i < |m| ==> m[i].records.None?
    ensures ParseSettings(ids, OrderSectors(m)) == Some(SettingsOf(ids, PutAll([], records)))
  {
    OnlyFirst(m);
    assert AllRecords([m[0]]) == records + AllRecords([]);
    assert [m[0]][1..] == [];
    assert m[0..1] == [m[0]];
    assert records + [] == records;
  }

  lemma {:induction false} OnlyFirst(m: seq<Sector>)
    requires m != [] && m[0].records.Some?
    requires forall i :: 0 < i < |m| ==> m[i].records.None?
    ensures RecordSectorCount(m) == 1 && FirstRecordSector(m) == Some(0)
  {
    var n := |m| - 1;
    if n == 0 {
      assert m[..n] == [];
    } else {
      OnlyFirst(m[..n]);
    }
  }

  lemma {:induction false} NoneAtAll(m: seq<Sector>)
    requires forall i :: 0 <= i < |m| ==> m[i].records.None?
    ensures FirstRecordSector(m) == None
  {
    if m != [] {
      NoneAtAll(m[..|m| - 1]);
    }
  }

  // ----- Names and values --------------------------------------------------

  /** The settings the reader can represent: both name and value non-empty. */
  function Readable(kv: Settings): Settings {
    if kv == [] then []
    else
      var n := |kv| - 1;
      var (name, value) := kv[n];
      Readable(kv[..n]) + if name == [] || value == [] then [] else [kv[n]]
  }

  /** The name records of a dictionary, in order. */
  function NameEntries(ids: Ids, entries: seq<Record>): seq<Record> {
    if entries == [] then []
    else if IsNameId(ids, entries[0].0) then [entries[0]] + NameEntries(ids, entries[1..])
    else NameEntries(ids, entries[1..])
  }

  /** The name records written for `kv`. */
  function Names(ids: Ids, kv: Settings): seq<Record> {
    seq(|kv|, i requires 0 <= i < |kv| => (ids.namecnt + 1 + i, kv[i].0))
  }

  /** What is left of `KvLog(ids, kv)` after consolidation. */
  function Consolidated(ids: Ids, kv: Settings): Records
    requires ids.namecnt + |kv| < TWO_32
  {
    PutAll([], KvLog(ids, kv))
  }

  /** Room for the name records between the largest-name record and the value records. */
  ghost predicate FitsIds(ids: Ids, kv: Settings) {
    |kv| < ids.nameIdOffset && ids.namecnt + |kv| < TWO_32
  }

  lemma {:induction false} NameEntriesPut(ids: Ids, d: Records, id: int, v: seq<byte>)
    ensures NameEntries(ids, Put(d, id, v)) ==
            if IsNameId(ids, id) then Put(NameEntries(ids, d), id, v) else NameEntries(ids, d)
  {
    if d == [] {
      assert [(id, v)][1..] == [];
    } else if d[0].0 == id {
      assert Put(d, id, v)[1..] == d[1..];
    } else {
      NameEntriesPut(ids, d[1..], id, v);
      assert Put(d, id, v)[1..] == Put(d[1..], id, v);
      if IsNameId(ids, d[0].0) {
        assert ([d[0]] + NameEntries(ids, d[1..]))[1..] == NameEntries(ids, d[1..]);
      }
    }
  }

  lemma ConsolidatedStep(ids: Ids, kv: Settings)
    requires kv != [] && ids.namecnt + |kv| < TWO_32
    ensures var n := |kv| - 1;
            var id := ids.namecnt + 1 + n;
            Consolidated(ids, kv) ==
            Put(Put(Put(Consolidated(ids, kv[..n]), id + ids.nameIdOffset, kv[n].1), id, kv[n].0), ids.namecnt,
                Le32(id))
  {
    hide Put, PutAll, Le32;
    var n := |kv| - 1;
    var d := Consolidated(ids, kv[..n]);
    var r := KvRecords(ids, n, kv[n].0, kv[n].1);
    PutAllAppend([], KvLog(ids, kv[..n]), r);
    assert r == [r[0]] + ([r[1]] + [r[2]]);
    PutAllAppend(d, [r[0]], [r[1]] + [r[2]]);
    PutAllOne(d, r[0]);
    var d1 := Put(d, r[0].0, r[0].1);
    PutAllAppend(d1, [r[1]], [r[2]]);
    PutAllOne(d1, r[1]);
    PutAllOne(Put(d1, r[1].0, r[1].1), r[2]);
  }

  lemma {:induction false} ConsolidatedNames(ids: Ids, kv: Settings)
    requires FitsIds(ids, kv)
    ensures NameEntries(ids, Consolidated(ids, kv)) == Names(ids, kv)
  {
    if kv != [] {
      hide Put, PutAll, KvLog, Le32, NameEntries, Consolidated;
      var n := |kv| - 1;
      var id := ids.namecnt + 1 + n;
      var d0 := Consolidated(ids, kv[..n]);
      var d1 := Put(d0, id + ids.nameIdOffset, kv[n].1);
      var d2 := Put(d1, id, kv[n].0);
      ConsolidatedStep(ids, kv);
      ConsolidatedNames(ids, kv[..n]);
      NameEntriesPut(ids, d0, id + ids.nameIdOffset, kv[n].1);
      assert NameEntries(ids, d1) == Names(ids, kv[..n]);
      NameEntriesPut(ids, d1, id, kv[n].0);
      assert IsNameId(ids, id);
      NameEntriesPut(ids, d2, ids.namecnt, Le32(id));
      NamesStep(ids, kv);
    }
  }

  lemma NamesStep(ids: Ids, kv: Settings)
    requires kv != []
    ensures var n := |kv| - 1;
            Names(ids, kv) == Put(Names(ids, kv[..n]), ids.namecnt + 1 + n, kv[n].0)
  {
    var n := |kv| - 1;
    PutNew(Names(ids, kv[..n]), ids.namecnt + 1 + n, kv[n].0);
    assert Names(ids, kv) == Names(ids, kv[..n]) + [(ids.namecnt + 1 + n, kv[n].0)];
  }

  lemma {:induction false} ConsolidatedValues(ids: Ids, kv: Settings, i: nat)
    requires FitsIds(ids, kv) && i < |kv|
    ensures Get(Consolidated(ids, kv), ids.namecnt + 1 + i + ids.nameIdOffset) == Some(kv[i].1)
  {
    hide Put, PutAll, KvLog, Le32, Consolidated;
    var n := |kv| - 1;
    var id := ids.namecnt + 1 + n;
    var j := ids.namecnt + 1 + i + ids.nameIdOffset;
    var d0 := Consolidated(ids, kv[..n]);
    var d1 := Put(d0, id + ids.nameIdOffset, kv[n].1);
    var d2 := Put(d1, id, kv[n].0);
    ConsolidatedStep(ids, kv);
    GetPut(d0, id + ids.nameIdOffset, kv[n].1, j);
    GetPut(d1, id, kv[n].0, j);
    GetPut(d2, ids.namecnt, Le32(id), j);
    if i < n {
      ConsolidatedValues(ids, kv[..n], i);
    }
  }

  lemma {:induction false} OnlyNamesMatter(ids: Ids, all: Records, acc: Settings, entries: seq<Record>)
    ensures AddSettings(ids, all, acc, entries) == AddSettings(ids, all, acc, NameEntries(ids, entries))
    decreases entries
  {
    if entries != [] {
      var rest := NameEntries(ids, entries[1..]);
      OnlyNamesMatter(ids, all, AddSetting(ids, all, acc, entries[0]), entries[1..]);
      if IsNameId(ids, entries[0].0) {
        assert ([entries[0]] + rest)[1..] == rest;
      }
    }
  }

  lemma {:induction false} AddSettingsAppend(ids: Ids, all: Records, acc: Settings, entries: seq<Record>, e: Record)
    ensures AddSettings(ids, all, acc, entries + [e]) ==
            AddSetting(ids, all, AddSettings(ids, all, acc, entries), e)
    decreases entries
  {
    if entries == [] {
      assert [] + [e] == [e] && [e][1..] == [];
    } else {
      assert (entries + [e])[1..] == entries[1..] + [e];
      AddSettingsAppend(ids, all, AddSetting(ids, all, acc, entries[0]), entries[1..], e);
    }
  }

  lemma {:induction false} ReadableMembers(kv: Settings, i: nat)
    requires i < |Readable(kv)|
    ensures exists j :: 0 <= j < |kv| && kv[j] == Readable(kv)[i]
  {
    var n := |kv| - 1;
    if i < |Readable(kv[..n])| {
      ReadableMembers(kv[..n], i);
      var j :| 0 <= j < n && kv[..n][j] == Readable(kv)[i];
      assert kv[j] == Readable(kv)[i];
    } else {
      assert kv[n] == Readable(kv)[i];
    }
  }

  /** Adding the next name record adds the next readable setting. */
  lemma AddNextSetting(ids: Ids, all: Records, kv: Settings)
    requires kv != [] && FitsIds(ids, kv) && DistinctKeys(kv)
    requires Get(all, ids.namecnt + |kv| + ids.nameIdOffset) == Some(kv[|kv| - 1].1)
    ensures AddSetting(ids, all, Readable(kv[..|kv| - 1]), (ids.namecnt + |kv|, kv[|kv| - 1].0)) == Readable(kv)
  {
    hide Put, Get;
    var n := |kv| - 1;
    var (name, value) := kv[n];
    var acc := Readable(kv[..n]);
    forall i | 0 <= i < |acc|
      ensures acc[i].0 != name
    {
      ReadableMembers(kv[..n], i);
    }
    PutNew(acc, name, value);
    assert IsNameId(ids, ids.namecnt + |kv|);
    if name == [] || value == [] {
      assert acc + [] == acc;
    }
  }

  lemma {:induction false} NamesGiveSettings(ids: Ids, all: Records, kv: Settings)
    requires FitsIds(ids, kv) && DistinctKeys(kv)
    requires forall i :: 0 <= i < |kv| ==> Get(all, ids.namecnt + 1 + i + ids.nameIdOffset) == Some(kv[i].1)
    ensures AddSettings(ids, all, [], Names(ids, kv)) == Readable(kv)
  {
    if kv != [] {
      hide AddSettings, AddSetting, Get, Readable;
      var n := |kv| - 1;
      var e := (ids.namecnt + 1 + n, kv[n].0);
      NamesGiveSettings(ids, all, kv[..n]);
      assert Names(ids, kv) == Names(ids, kv[..n]) + [e];
      AddSettingsAppend(ids, all, [], Names(ids, kv[..n]), e);
      AddNextSetting(ids, all, kv);
    }
  }

  /** Consolidating and mapping the records written for `kv` gives `kv` back. */
  lemma SettingsSurvive(ids: Ids, kv: Settings)
    requires FitsIds(ids, kv) && DistinctKeys(kv)
    ensures SettingsOf(ids, PutAll([], KvLog(ids, kv))) == Readable(kv)
  {
    var all := Consolidated(ids, kv);
    ConsolidatedNames(ids, kv);
    forall i | 0 <= i < |kv|
      ensures Get(all, ids.namecnt + 1 + i + ids.nameIdOffset) == Some(kv[i].1)
    {
      ConsolidatedValues(ids, kv, i);
    }
    OnlyNamesMatter(ids, all, [], all);
    NamesGiveSettings(ids, all, kv);
  }

  /** Exactly the dictionaries without empty names and values come back unchanged. */
  lemma {:induction false} ReadableIsAll(kv: Settings)
    ensures Readable(kv) == kv <==> forall i :: 0 <= i < |kv| ==> kv[i].0 != [] && kv[i].1 != []
    ensures |Readable(kv)| <= |kv|
  {
    if kv != [] {
      var n := |kv| - 1;
      ReadableIsAll(kv[..n]);
      assert kv == kv[..n] + [kv[n]];
      if Readable(kv) == kv {
        assert |Readable(kv)| == n + 1;
        assert Readable(kv[..n]) == kv[..n];
      }
      assert forall i :: 0 <= i < n ==> kv[..n][i] == kv[i];
    }
  }

  // ----- Growing logs ---------------------------------------------------------

  lemma EmptyLog(ids: Ids)
    requires ids.namecnt < TWO_32
    ensures KvLog(ids, []) == []
  {
  }

  /** The records of one more name and value. */
  lemma KvLogNext(ids: Ids, kv: Settings, i: nat)
    requires i < |kv| && ids.namecnt + i + 1 < TWO_32
    ensures KvLog(ids, kv[..i + 1]) == KvLog(ids, kv[..i]) + KvRecords(ids, i, kv[i].0, kv[i].1)
  {
    assert kv[..i + 1][..i] == kv[..i];
  }

  lemma {:induction false} KvLogPrefix(ids: Ids, kv: Settings, i: nat)
    requires i <= |kv| && ids.namecnt + |kv| < TWO_32
    ensures 3 * i <= |KvLog(ids, kv)| && KvLog(ids, kv)[..3 * i] == KvLog(ids, kv[..i])
  {
    if i == |kv| {
      assert kv[..i] == kv;
    } else {
      var n := |kv| - 1;
      KvLogPrefix(ids, kv[..n], i);
      assert kv[..n][..i] == kv[..i];
    }
  }
}
