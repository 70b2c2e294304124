/**
 What the settings reader makes of any log of records, said of the records
 themselves; and when records added to those of a dictionary leave it as it was.
 */
module SettingsReading {
  import opened Wrappers
  import opened Bytes
  import opened OrderedDict
  import opened SettingsCore
  import opened SettingsTheorems

  // ----- What an id stands for ------------------------------------------------------

  type Pair = (seq<byte>, seq<byte>)

  /** The name and the value that the log leaves under a name id: both written last, neither empty. */
  function Given(ids: Ids, log: seq<Record>, id: int): Option<Pair> {
    if !IsNameId(ids, id) then None
    else
      match LastWrite(log, id)
      case None => None
      case Some(name) =>
        match LastWrite(log, id + ids.nameIdOffset)
        case None => None
        case Some(value) => if name == [] || value == [] then None else Some((name, value))
  }

  /** The index of the first record with the id. */
  function First(log: seq<Record>, id: int): nat {
    if log == [] || log[0].0 == id then 0 else 1 + First(log[1..], id)
  }

  /** Of the ids that stand for a name, the one written last for the first time decides. */
  ghost predicate Wins(ids: Ids, log: seq<Record>, name: seq<byte>, value: seq<byte>) {
    exists id ::
      && Given(ids, log, id) == Some((name, value))
      && forall other :: Given(ids, log, other).Some? && Given(ids, log, other).value.0 == name && other != id ==>
                           First(log, other) < First(log, id)
  }

  // ----- Reading a dictionary of records ----------------------------------------------

  /** What one entry of the consolidated records adds. */
  function Gives(ids: Ids, all: Records, e: Record): Option<Pair> {
    if !IsNameId(ids, e.0) || e.1 == [] then None
    else
      match Get(all, e.0 + ids.nameIdOffset)
      case None => None
      case Some(value) => if value == [] then None else Some((e.1, value))
  }

  lemma AddIs(ids: Ids, all: Records, acc: Settings, e: Record)
    ensures AddSetting(ids, all, acc, e) ==
            match Gives(ids, all, e)
            case None => acc
            case Some(p) => Put(acc, p.0, p.1)
  {
  }

  /** The entry at `a` gives the name, and no later one does. */
  ghost predicate GivesLast(ids: Ids, all: Records, entries: seq<Record>, name: seq<byte>, value: seq<byte>, a: nat) {
    && a < |entries| && Gives(ids, all, entries[a]) == Some((name, value))
    && forall b :: a < b < |entries| ==>
         Gives(ids, all, entries[b]).None? || Gives(ids, all, entries[b]).value.0 != name
  }

  /** A name has the value that the last entry gives it. */
  lemma {:induction false} LastGivenRead(ids: Ids, all: Records, entries: seq<Record>, name: seq<byte>,
                                         value: seq<byte>)
    ensures Get(AddSettings(ids, all, [], entries), name) == Some(value) <==>
            exists a :: GivesLast(ids, all, entries, name, value, a)
  {
    if entries != [] {
      hide Gives, AddSetting, Put;
      var n := |entries| - 1;
      var init, e := entries[..n], entries[n];
      assert entries == init + [e];
      AddSettingsAppend(ids, all, [], init, e);
      LastGivenRead(ids, all, init, name, value);
      var acc := AddSettings(ids, all, [], init);
      AddIs(ids, all, acc, e);
      if Gives(ids, all, e).Some? {
        GetPut(acc, Gives(ids, all, e).value.0, Gives(ids, all, e).value.1, name);
      }
      if Gives(ids, all, e).Some? && Gives(ids, all, e).value.0 == name {
        assert Gives(ids, all, e) == Some((name, value)) ==> GivesLast(ids, all, entries, name, value, n);
      } else {
        GivesLastInit(ids, all, init, entries, name, value);
      }
    }
  }

  lemma GivesLastInit(ids: Ids, all: Records, init: seq<Record>, entries: seq<Record>, name: seq<byte>,
                      value: seq<byte>)
    requires entries != [] && init == entries[..|entries| - 1]
    requires var g := Gives(ids, all, entries[|entries| - 1]); g.None? || g.value.0 != name
    ensures (exists a :: GivesLast(ids, all, entries, name, value, a)) <==>
            exists a :: GivesLast(ids, all, init, name, value, a)
  {
    hide Gives;
    if a :| GivesLast(ids, all, entries, name, value, a) {
      assert GivesLast(ids, all, init, name, value, a);
    }
    if a :| GivesLast(ids, all, init, name, value, a) {
      assert GivesLast(ids, all, entries, name, value, a);
    }
  }

  // ----- The order of the records ------------------------------------------------------

  lemma {:induction false} GetMember<K, V>(d: Dict<K, V>, i: nat)
    requires DistinctKeys(d) && i < |d|
    ensures Get(d, d[i].0) == Some(d[i].1)
  {
    if i > 0 {
      assert d[1..][i - 1] == d[i];
      GetMember(d[1..], i - 1);
    }
  }

  lemma {:induction false} FirstAppend(log: seq<Record>, e: Record, id: int)
    ensures First(log, id) <= |log|
    ensures First(log, id) < |log| <==> LastWrite(log, id).Some?
    ensures First(log, id) < |log| ==> First(log + [e], id) == First(log, id)
    ensures First(log, id) == |log| && e.0 == id ==> First(log + [e], id) == |log|
  {
    FirstWritten(log, id);
    if log == [] {
      assert [] + [e] == [e];
    } else if log[0].0 == id {
      assert (log + [e])[0] == log[0];
    } else {
      assert (log + [e])[0] == log[0] && (log + [e])[1..] == log[1..] + [e];
      FirstAppend(log[1..], e, id);
    }
  }

  lemma {:induction false} FirstWritten(log: seq<Record>, id: int)
    ensures First(log, id) <= |log|
    ensures First(log, id) < |log| <==> exists k :: 0 <= k < |log| && log[k].0 == id
    ensures LastWrite(log, id).Some? <==> exists k :: 0 <= k < |log| && log[k].0 == id
  {
    WrittenSome(log, id);
    if log != [] && log[0].0 != id {
      FirstWritten(log[1..], id);
      if k :| 0 <= k < |log| && log[k].0 == id {
        assert log[1..][k - 1].0 == id;
      }
      if k :| 0 <= k < |log[1..]| && log[1..][k].0 == id {
        assert log[k + 1].0 == id;
      }
    }
  }

  lemma {:induction false} WrittenSome(log: seq<Record>, id: int)
    ensures LastWrite(log, id).Some? <==> exists k :: 0 <= k < |log| && log[k].0 == id
  {
    if log != [] {
      var n := |log| - 1;
      WrittenSome(log[..n], id);
      assert forall k :: 0 <= k < n ==> log[..n][k] == log[k];
    }
  }

  /** Assigning keeps all keys in their places. */
  lemma {:induction false} PutKeepsPlaces<K, V>(d: Dict<K, V>, k: K, v: V)
    ensures |d| <= |Put(d, k, v)| <= |d| + 1
    ensures forall i :: 0 <= i < |d| ==> Put(d, k, v)[i].0 == d[i].0
    ensures |Put(d, k, v)| == |d| + 1 ==> Put(d, k, v)[|d|].0 == k && Get(d, k).None?
  {
    if d != [] && d[0].0 != k {
      PutKeepsPlaces(d[1..], k, v);
      assert Put(d, k, v) == [d[0]] + Put(d[1..], k, v);
      forall i | 0 <= i < |d| ensures Put(d, k, v)[i].0 == d[i].0 {
        if i > 0 {
          assert d[1..][i - 1] == d[i];
        }
      }
    }
  }

  ghost predicate ByFirst(d: Records, log: seq<Record>) {
    forall a, b :: 0 <= a < b < |d| ==> First(log, d[a].0) < First(log, d[b].0)
  }

  /** The dictionary keeps the order in which the ids were written first. */
  lemma {:induction false} OrderOfIds(log: seq<Record>)
    ensures ByFirst(PutAll([], log), log)
  {
    if log != [] {
      hide Put, First, LastWrite;
      var n := |log| - 1;
      var init, e := log[..n], log[n];
      var d, d1 := PutAll([], init), PutAll([], log);
      OrderOfIds(init);
      assert log == init + [e] && log[..n + 1] == log;
      PutAllNext(log, n);
      hide PutAll;
      PutKeepsPlaces(d, e.0, e.1);
      forall a, b | 0 <= a < b < |d1| ensures First(log, d1[a].0) < First(log, d1[b].0) {
        KeyWritten(init, a);
        FirstAppend(init, e, d1[a].0);
        if b < |d| {
          KeyWritten(init, b);
        } else {
          LastWriteWins(init, e.0);
        }
        FirstAppend(init, e, d1[b].0);
      }
    }
  }

  lemma KeyWritten(log: seq<Record>, a: nat)
    requires a < |PutAll([], log)|
    ensures DistinctKeys(PutAll([], log))
    ensures LastWrite(log, PutAll([], log)[a].0) == Some(PutAll([], log)[a].1)
  {
    PutAllDistinct([], log);
    GetMember(PutAll([], log), a);
    LastWriteWins(log, PutAll([], log)[a].0);
  }

  lemma WrittenKey(log: seq<Record>, id: int) returns (a: nat)
    requires LastWrite(log, id).Some?
    ensures a < |PutAll([], log)| && PutAll([], log)[a].0 == id
  {
    LastWriteWins(log, id);
    HasKeyMeaning(PutAll([], log), id);
    a :| 0 <= a < |PutAll([], log)| && PutAll([], log)[a].0 == id;
  }

  /** What an entry of the consolidated records gives is what the log leaves under its id. */
  lemma EntryGives(ids: Ids, log: seq<Record>, a: nat)
    requires a < |PutAll([], log)|
    ensures var d := PutAll([], log); Gives(ids, d, d[a]) == Given(ids, log, d[a].0)
  {
    KeyWritten(log, a);
    LastWriteWins(log, PutAll([], log)[a].0 + ids.nameIdOffset);
    hide PutAll, Get, LastWrite;
  }

  /**
   The meaning of reading, for every log: a name has a value exactly if, of the ids
   that the log leaves this name, the one written last for the first time has the value.
   */
  lemma ReadMeans(ids: Ids, log: seq<Record>, name: seq<byte>, value: seq<byte>)
    ensures Get(SettingsOf(ids, PutAll([], log)), name) == Some(value) <==> Wins(ids, log, name, value)
  {
    var d := PutAll([], log);
    LastGivenRead(ids, d, d, name, value);
    OrderOfIds(log);
    hide PutAll, Get, Gives, Given, First, SettingsOf, AddSettings;
    assert SettingsOf(ids, d) == AddSettings(ids, d, [], d) by { SettingsOfIs(ids, d); }
    if a :| GivesLast(ids, d, d, name, value, a) {
      LastWins(ids, log, name, value, a);
    }
    if Wins(ids, log, name, value) {
      WinsLast(ids, log, name, value);
    }
  }

  lemma SettingsOfIs(ids: Ids, all: Records)
    ensures SettingsOf(ids, all) == AddSettings(ids, all, [], all)
  {
  }

  lemma GivenIsKey(ids: Ids, log: seq<Record>, id: int) returns (a: nat)
    requires Given(ids, log, id).Some?
    ensures a < |PutAll([], log)| && PutAll([], log)[a].0 == id
  {
    a := WrittenKey(log, id);
  }

  lemma LastWins(ids: Ids, log: seq<Record>, name: seq<byte>, value: seq<byte>, a: nat)
    requires GivesLast(ids, PutAll([], log), PutAll([], log), name, value, a) && ByFirst(PutAll([], log), log)
    ensures Wins(ids, log, name, value)
  {
    hide PutAll, Gives, Given, First;
    var d := PutAll([], log);
    var id := d[a].0;
    EntryGives(ids, log, a);
    forall other | Given(ids, log, other).Some? && Given(ids, log, other).value.0 == name && other != id
      ensures First(log, other) < First(log, id)
    {
      var b := GivenIsKey(ids, log, other);
      EntryGives(ids, log, b);
    }
  }

  lemma WinsLast(ids: Ids, log: seq<Record>, name: seq<byte>, value: seq<byte>)
    requires Wins(ids, log, name, value) && ByFirst(PutAll([], log), log)
    ensures exists a :: GivesLast(ids, PutAll([], log), PutAll([], log), name, value, a)
  {
    hide PutAll, Gives, Given, First;
    var d := PutAll([], log);
    var id :| Given(ids, log, id) == Some((name, value))
      && forall other :: Given(ids, log, other).Some? && Given(ids, log, other).value.0 == name && other != id ==>
                           First(log, other) < First(log, id);
    var a := GivenIsKey(ids, log, id);
    EntryGives(ids, log, a);
    forall b | a < b < |d| ensures Gives(ids, d, d[b]).None? || Gives(ids, d, d[b]).value.0 != name {
      EntryGives(ids, log, b);
    }
    assert GivesLast(ids, d, d, name, value, a);
  }

  // ----- Records behind those of a dictionary -------------------------------------------

  ghost predicate SameDict(a: Settings, b: Settings) {
    forall name :: Get(a, name) == Get(b, name)
  }

  /** The added records leave every id the name and value that it had, or none. */
  ghost predicate Undisturbed(ids: Ids, kv: Settings, added: seq<Record>)
    requires ids.namecnt + |kv| < TWO_32
  {
    forall id :: Given(ids, KvLog(ids, kv) + added, id) == Given(ids, KvLog(ids, kv), id)
  }

  /** No added record gives a name of the dictionary to another id. */
  ghost predicate NotMoved(ids: Ids, kv: Settings, added: seq<Record>) {
    forall k, j :: 0 <= k < |added| && 0 <= j < |kv| && IsNameId(ids, added[k].0) && added[k].1 == kv[j].0 ==>
      added[k].0 == ids.namecnt + 1 + j
  }

  lemma {:induction false} NameEntriesPutAll(ids: Ids, d: Records, added: seq<Record>)
    ensures NameEntries(ids, PutAll(d, added)) == PutAll(NameEntries(ids, d), NameEntries(ids, added))
    decreases added
  {
    if added != [] {
      var e := added[0];
      var rest := NameEntries(ids, added[1..]);
      NameEntriesPut(ids, d, e.0, e.1);
      NameEntriesPutAll(ids, Put(d, e.0, e.1), added[1..]);
      if IsNameId(ids, e.0) {
        assert ([e] + rest)[1..] == rest;
      }
    }
  }

  lemma {:induction false} PutAllKeepsPlaces<K, V>(d: Dict<K, V>, entries: seq<(K, V)>)
    ensures |d| <= |PutAll(d, entries)|
    ensures forall i :: 0 <= i < |d| ==> PutAll(d, entries)[i].0 == d[i].0
    decreases entries
  {
    if entries != [] {
      PutKeepsPlaces(d, entries[0].0, entries[0].1);
      PutAllKeepsPlaces(Put(d, entries[0].0, entries[0].1), entries[1..]);
    }
  }

  lemma {:induction false} NameEntriesMember(ids: Ids, entries: seq<Record>, i: nat) returns (j: nat)
    requires i < |NameEntries(ids, entries)|
    ensures j < |entries| && entries[j] == NameEntries(ids, entries)[i] && IsNameId(ids, entries[j].0)
  {
    if IsNameId(ids, entries[0].0) {
      if i == 0 {
        j := 0;
      } else {
        assert NameEntries(ids, entries)[i] == NameEntries(ids, entries[1..])[i - 1];
        j := NameEntriesMember(ids, entries[1..], i - 1);
        j := j + 1;
      }
    } else {
      j := NameEntriesMember(ids, entries[1..], i);
      j := j + 1;
    }
  }

  /** The names among the consolidated records of any log. */
  function NamesOf(ids: Ids, log: seq<Record>): seq<Record> {
    NameEntries(ids, PutAll([], log))
  }

  lemma NameGives(ids: Ids, log: seq<Record>, i: nat)
    requires i < |NamesOf(ids, log)|
    ensures Gives(ids, PutAll([], log), NamesOf(ids, log)[i]) == Given(ids, log, NamesOf(ids, log)[i].0)
  {
    var j := NameEntriesMember(ids, PutAll([], log), i);
    EntryGives(ids, log, j);
  }

  /** Entries that give the same add the same. */
  lemma {:induction false} SameFold(ids: Ids, all: Records, entries: seq<Record>, all1: Records, entries1: seq<Record>)
    requires |entries| <= |entries1|
    requires forall i :: 0 <= i < |entries| ==> Gives(ids, all1, entries1[i]) == Gives(ids, all, entries[i])
    requires forall i :: |entries| <= i < |entries1| ==> Gives(ids, all1, entries1[i]).None?
    ensures AddSettings(ids, all1, [], entries1) == AddSettings(ids, all, [], entries)
    decreases |entries1|
  {
    if entries1 != [] {
      hide Gives, AddSetting;
      var n := |entries1| - 1;
      var init1, e1 := entries1[..n], entries1[n];
      assert entries1 == init1 + [e1];
      AddSettingsAppend(ids, all1, [], init1, e1);
      AddIs(ids, all1, AddSettings(ids, all1, [], init1), e1);
      if n < |entries| {
        var init, e := entries[..n], entries[n];
        assert entries == init + [e];
        AddSettingsAppend(ids, all, [], init, e);
        AddIs(ids, all, AddSettings(ids, all, [], init), e);
        SameFold(ids, all, init, all1, init1);
      } else {
        SameFold(ids, all, entries, all1, init1);
      }
    }
  }

  lemma NamesFirst(ids: Ids, kv: Settings, added: seq<Record>)
    requires FitsIds(ids, kv)
    ensures NamesOf(ids, KvLog(ids, kv)) == Names(ids, kv)
    ensures var names := NamesOf(ids, KvLog(ids, kv) + added);
            && |kv| <= |names| && DistinctKeys(names)
            && forall i :: 0 <= i < |kv| ==> names[i].0 == ids.namecnt + 1 + i
  {
    ConsolidatedNames(ids, kv);
    PutAllAppend([], KvLog(ids, kv), added);
    NameEntriesPutAll(ids, PutAll([], KvLog(ids, kv)), added);
    PutAllKeepsPlaces(Names(ids, kv), NameEntries(ids, added));
    PutAllDistinct(Names(ids, kv), NameEntries(ids, added));
    hide PutAll, NameEntries, KvLog;
  }

  /** What the log of a dictionary gives: its readable names and values, each under its id. */
  lemma GivenOfKv(ids: Ids, kv: Settings, id: int)
    requires FitsIds(ids, kv)
    ensures var j := id - ids.namecnt - 1;
            Given(ids, KvLog(ids, kv), id) ==
            if 0 <= j < |kv| && kv[j].0 != [] && kv[j].1 != [] then Some((kv[j].0, kv[j].1)) else None
  {
    hide LastWrite, KvLog;
    if IsNameId(ids, id) {
      NameOfKv(ids, kv, id);
      if 0 <= id - ids.namecnt - 1 < |kv| {
        ValueOfKv(ids, kv, id);
      }
    }
  }

  lemma NameOfKv(ids: Ids, kv: Settings, id: int)
    requires FitsIds(ids, kv) && IsNameId(ids, id)
    ensures var j := id - ids.namecnt - 1;
            LastWrite(KvLog(ids, kv), id) == if 0 <= j < |kv| then Some(kv[j].0) else None
  {
    hide PutAll, Get, LastWrite, KvLog, NameEntries, Names;
    var log := KvLog(ids, kv);
    ConsolidatedNames(ids, kv);
    GetName(ids, PutAll([], log), id);
    LastWriteWins(log, id);
    var j := id - ids.namecnt - 1;
    if 0 <= j < |kv| {
      GetMemberOfNames(ids, kv, j);
    } else {
      NoSuchName(ids, kv, id);
    }
  }

  lemma ValueOfKv(ids: Ids, kv: Settings, id: int)
    requires FitsIds(ids, kv) && 0 <= id - ids.namecnt - 1 < |kv|
    ensures LastWrite(KvLog(ids, kv), id + ids.nameIdOffset) == Some(kv[id - ids.namecnt - 1].1)
  {
    hide PutAll, Get, LastWrite, KvLog;
    LastWriteWins(KvLog(ids, kv), id + ids.nameIdOffset);
    ConsolidatedValues(ids, kv, id - ids.namecnt - 1);
  }

  lemma {:induction false} GetName(ids: Ids, d: Records, id: int)
    requires IsNameId(ids, id)
    ensures Get(d, id) == Get(NameEntries(ids, d), id)
  {
    if d != [] {
      GetName(ids, d[1..], id);
      if IsNameId(ids, d[0].0) {
        assert NameEntries(ids, d)[1..] == NameEntries(ids, d[1..]);
      }
    }
  }

  lemma GetMemberOfNames(ids: Ids, kv: Settings, j: nat)
    requires j < |kv|
    ensures Get(Names(ids, kv), ids.namecnt + 1 + j) == Some(kv[j].0)
  {
    GetMember(Names(ids, kv), j);
  }

  lemma NoSuchName(ids: Ids, kv: Settings, id: int)
    requires !(0 <= id - ids.namecnt - 1 < |kv|)
    ensures Get(Names(ids, kv), id).None?
  {
    HasKeyMeaning(Names(ids, kv), id);
  }

  lemma NothingMore(ids: Ids, kv: Settings, added: seq<Record>, i: nat)
    requires FitsIds(ids, kv) && Undisturbed(ids, kv, added)
    requires |kv| <= i < |NamesOf(ids, KvLog(ids, kv) + added)|
    ensures var log := KvLog(ids, kv) + added; Gives(ids, PutAll([], log), NamesOf(ids, log)[i]).None?
  {
    var log := KvLog(ids, kv) + added;
    hide PutAll, NameEntries, KvLog, Given, Gives;
    var names := NamesOf(ids, log);
    hide NamesOf;
    NamesFirst(ids, kv, added);
    NameGives(ids, log, i);
    GivenOfKv(ids, kv, names[i].0);
    NotInFront(names, |kv|, ids.namecnt + 1, i);
  }

  /** An id behind `n` others with the numbers from `base` on is none of them. */
  lemma {:induction false} NotInFront(names: seq<Record>, n: nat, base: int, i: nat)
    requires DistinctKeys(names) && n <= i < |names|
    requires forall j :: 0 <= j < n ==> names[j].0 == base + j
    ensures !(0 <= names[i].0 - base < n)
  {
    if n > 0 {
      NotInFront(names, n - 1, base, i);
      assert names[n - 1].0 != names[i].0;
    }
  }

  lemma SameInFront(ids: Ids, kv: Settings, added: seq<Record>, i: nat)
    requires FitsIds(ids, kv) && Undisturbed(ids, kv, added) && i < |kv|
    ensures var (log0, log) := (KvLog(ids, kv), KvLog(ids, kv) + added);
            && i < |NamesOf(ids, log0)| && i < |NamesOf(ids, log)|
            && Gives(ids, PutAll([], log), NamesOf(ids, log)[i]) == Gives(ids, PutAll([], log0), NamesOf(ids, log0)[i])
  {
    hide PutAll, NameEntries, KvLog, Given, Gives, NamesOf;
    NamesFirst(ids, kv, added);
    NameGives(ids, KvLog(ids, kv), i);
    NameGives(ids, KvLog(ids, kv) + added, i);
  }

  /** Undisturbed records read as the dictionary, in its order. */
  lemma UndisturbedReads(ids: Ids, kv: Settings, added: seq<Record>)
    requires FitsIds(ids, kv) && DistinctKeys(kv) && Undisturbed(ids, kv, added)
    ensures SettingsOf(ids, PutAll([], KvLog(ids, kv) + added)) == Readable(kv)
  {
    var log0 := KvLog(ids, kv);
    var log := log0 + added;
    var d0, d := PutAll([], log0), PutAll([], log);
    var names0, names := NamesOf(ids, log0), NamesOf(ids, log);
    NamesRead(ids, log0);
    NamesRead(ids, log);
    hide PutAll, NameEntries, KvLog, Given, Gives, AddSettings, Readable, NamesOf, SettingsOf, Undisturbed,
      DistinctKeys;
    SettingsSurvive(ids, kv);
    NamesFirst(ids, kv, added);
    forall i | 0 <= i < |names0| ensures Gives(ids, d, names[i]) == Gives(ids, d0, names0[i]) {
      SameInFront(ids, kv, added, i);
    }
    forall i | |names0| <= i < |names| ensures Gives(ids, d, names[i]).None? {
      NothingMore(ids, kv, added, i);
    }
    SameFold(ids, d0, names0, d, names);
  }

  lemma NamesRead(ids: Ids, log: seq<Record>)
    ensures SettingsOf(ids, PutAll([], log)) == AddSettings(ids, PutAll([], log), [], NamesOf(ids, log))
  {
    var d := PutAll([], log);
    OnlyNamesMatter(ids, d, [], d);
    hide PutAll, NameEntries, AddSettings;
  }

  /** A name that is left under some id is read. */
  lemma GivenIsRead(ids: Ids, log: seq<Record>, id: int)
    requires Given(ids, log, id).Some?
    ensures Get(SettingsOf(ids, PutAll([], log)), Given(ids, log, id).value.0).Some?
  {
    var d := PutAll([], log);
    var name := Given(ids, log, id).value.0;
    var a := GivenIsKey(ids, log, id);
    EntryGives(ids, log, a);
    hide PutAll, Given, Gives;
    var b := LastThatGives(ids, d, d, name, a);
    LastGivenRead(ids, d, d, name, Gives(ids, d, d[b]).value.1);
    assert GivesLast(ids, d, d, name, Gives(ids, d, d[b]).value.1, b);
    SettingsOfIs(ids, d);
    hide SettingsOf, Get, AddSettings;
  }

  lemma {:induction false} LastThatGives(ids: Ids, all: Records, entries: seq<Record>, name: seq<byte>, a: nat)
    returns (b: nat)
    requires a < |entries| && Gives(ids, all, entries[a]).Some? && Gives(ids, all, entries[a]).value.0 == name
    ensures b < |entries| && Gives(ids, all, entries[b]).Some?
    ensures GivesLast(ids, all, entries, name, Gives(ids, all, entries[b]).value.1, b)
    decreases |entries| - a
  {
    hide Gives;
    if c: nat :| a < c < |entries| && Gives(ids, all, entries[c]).Some? && Gives(ids, all, entries[c]).value.0 == name {
      b := LastThatGives(ids, all, entries, name, c);
    } else {
      b := a;
    }
  }

  /** A name that is read was left under some id. */
  lemma ReadIsGiven(ids: Ids, log: seq<Record>, name: seq<byte>, value: seq<byte>) returns (id: int)
    requires Get(SettingsOf(ids, PutAll([], log)), name) == Some(value)
    ensures Given(ids, log, id) == Some((name, value))
  {
    ReadMeans(ids, log, name, value);
    hide Given, First, SettingsOf, PutAll, Get;
    id :| Given(ids, log, id) == Some((name, value))
      && forall other :: Given(ids, log, other).Some? && Given(ids, log, other).value.0 == name && other != id ==>
                           First(log, other) < First(log, id);
  }

  // ----- When the dictionary is read back, exactly ----------------------------------------

  /** A setting that the reader can represent. */
  predicate IsReadable(kv: Settings, name: seq<byte>, value: seq<byte>) {
    name != [] && value != [] && (name, value) in kv
  }

  lemma {:induction false} ReadableGet(kv: Settings, name: seq<byte>, value: seq<byte>)
    requires DistinctKeys(kv)
    ensures Get(Readable(kv), name) == Some(value) <==> IsReadable(kv, name, value)
  {
    if kv != [] {
      var n := |kv| - 1;
      var init, e := kv[..n], kv[n];
      assert kv == init + [e];
      ReadableGet(init, name, value);
      forall i | 0 <= i < |Readable(init)| ensures Readable(init)[i].0 != e.0 {
        ReadableMembers(init, i);
      }
      if e.0 != [] && e.1 != [] {
        PutNew(Readable(init), e.0, e.1);
        GetPut(Readable(init), e.0, e.1, name);
      } else {
        assert Readable(init) + [] == Readable(init);
      }
    }
  }

  /**
   For any added records: the dictionary is read back, as a dictionary, exactly if
   the readable settings are the winners among all records.
   */
  lemma ReadBackIff(ids: Ids, kv: Settings, added: seq<Record>)
    requires FitsIds(ids, kv) && DistinctKeys(kv)
    ensures SameDict(SettingsOf(ids, PutAll([], KvLog(ids, kv) + added)), Readable(kv)) <==>
            forall name, value :: Wins(ids, KvLog(ids, kv) + added, name, value) <==> IsReadable(kv, name, value)
  {
    var log := KvLog(ids, kv) + added;
    var s := SettingsOf(ids, PutAll([], log));
    hide Wins, SettingsOf, PutAll, Get, Readable, KvLog, IsReadable;
    forall name, value
      ensures Get(s, name) == Some(value) <==> Wins(ids, log, name, value)
      ensures Get(Readable(kv), name) == Some(value) <==> IsReadable(kv, name, value)
    {
      ReadMeans(ids, log, name, value);
      ReadableGet(kv, name, value);
    }
    if forall name, value :: Wins(ids, log, name, value) <==> IsReadable(kv, name, value) {
      forall name ensures Get(s, name) == Get(Readable(kv), name) {
        SameAnswer(Get(s, name), Get(Readable(kv), name));
      }
    }
  }

  lemma SameAnswer<V>(a: Option<V>, b: Option<V>)
    requires forall value :: a == Some(value) <==> b == Some(value)
    ensures a == b
  {
    if a.Some? {
      assert a == Some(a.value);
    }
    if b.Some? {
      assert b == Some(b.value);
    }
  }

  lemma {:induction false} LastWriteAppend<K, V>(a: seq<(K, V)>, b: seq<(K, V)>, k: K)
    ensures LastWrite(a + b, k) == if LastWrite(b, k).Some? then LastWrite(b, k) else LastWrite(a, k)
    ensures LastWrite(b, k).Some? ==> (k, LastWrite(b, k).value) in b
  {
    if b == [] {
      assert a + b == a;
    } else {
      var n := |b| - 1;
      assert (a + b)[..|a + b| - 1] == a + b[..n];
      assert b == b[..n] + [b[n]];
      LastWriteAppend(a, b[..n], k);
    }
  }

  /** Where nothing is moved, a readable name is left under its own id only. */
  lemma GivenInPlace(ids: Ids, kv: Settings, added: seq<Record>, id: int, j: nat)
    requires FitsIds(ids, kv) && DistinctKeys(kv) && NotMoved(ids, kv, added)
    requires j < |kv| && Given(ids, KvLog(ids, kv) + added, id).Some?
    requires Given(ids, KvLog(ids, kv) + added, id).value.0 == kv[j].0
    ensures id == ids.namecnt + 1 + j
  {
    hide KvLog;
    var log := KvLog(ids, kv) + added;
    assert LastWrite(log, id) == Some(kv[j].0) && IsNameId(ids, id);
    hide Given, LastWrite;
    LastWriteAppend(KvLog(ids, kv), added, id);
    NameOfKv(ids, kv, id);
    if LastWrite(added, id).Some? {
      var k :| 0 <= k < |added| && added[k] == (id, kv[j].0);
    }
  }

  /** A readable setting that is read back stands under its own id. */
  lemma ReadInPlace(ids: Ids, kv: Settings, added: seq<Record>, j: nat)
    requires FitsIds(ids, kv) && DistinctKeys(kv) && NotMoved(ids, kv, added)
    requires SameDict(SettingsOf(ids, PutAll([], KvLog(ids, kv) + added)), Readable(kv))
    requires j < |kv| && kv[j].0 != [] && kv[j].1 != []
    ensures Given(ids, KvLog(ids, kv) + added, ids.namecnt + 1 + j) == Some((kv[j].0, kv[j].1))
  {
    hide Given, SettingsOf, PutAll, Get, Readable, KvLog;
    ReadableGet(kv, kv[j].0, kv[j].1);
    assert kv[j] in kv;
    var id := ReadIsGiven(ids, KvLog(ids, kv) + added, kv[j].0, kv[j].1);
    GivenInPlace(ids, kv, added, id, j);
  }

  lemma GivenIsReadable(ids: Ids, kv: Settings, added: seq<Record>, id: int) returns (j: nat)
    requires FitsIds(ids, kv) && DistinctKeys(kv)
    requires SameDict(SettingsOf(ids, PutAll([], KvLog(ids, kv) + added)), Readable(kv))
    requires Given(ids, KvLog(ids, kv) + added, id).Some?
    ensures j < |kv| && kv[j].0 == Given(ids, KvLog(ids, kv) + added, id).value.0 && kv[j].0 != [] && kv[j].1 != []
  {
    hide Given, SettingsOf, PutAll, Get, Readable, KvLog;
    var log := KvLog(ids, kv) + added;
    var name := Given(ids, log, id).value.0;
    GivenIsRead(ids, log, id);
    var value := Get(Readable(kv), name).value;
    ReadableGet(kv, name, value);
    j :| 0 <= j < |kv| && kv[j] == (name, value);
  }

  /**
   If no added record gives a name of the dictionary to another id, the dictionary is
   read back exactly if no id's name and value are disturbed.
   */
  lemma UndisturbedIff(ids: Ids, kv: Settings, added: seq<Record>)
    requires FitsIds(ids, kv) && DistinctKeys(kv) && NotMoved(ids, kv, added)
    ensures SameDict(SettingsOf(ids, PutAll([], KvLog(ids, kv) + added)), Readable(kv)) <==> Undisturbed(ids, kv, added)
  {
    var log := KvLog(ids, kv) + added;
    var s := SettingsOf(ids, PutAll([], log));
    hide Given, SettingsOf, PutAll, Get, Readable, KvLog, NotMoved;
    if Undisturbed(ids, kv, added) {
      UndisturbedReads(ids, kv, added);
    }
    if SameDict(s, Readable(kv)) {
      forall id ensures Given(ids, log, id) == Given(ids, KvLog(ids, kv), id) {
        GivenOfKv(ids, kv, id);
        if Given(ids, log, id).Some? {
          var j := GivenIsReadable(ids, kv, added, id);
          GivenInPlace(ids, kv, added, id, j);
        }
        var j := id - ids.namecnt - 1;
        if 0 <= j < |kv| && kv[j].0 != [] && kv[j].1 != [] {
          ReadInPlace(ids, kv, added, j);
        }
      }
    }
  }

  // ----- A pair that moved ------------------------------------------------------------

  lemma LastWriteNext(log: seq<Record>, e: Record, id: int)
    ensures LastWrite(log + [e], id) == if e.0 == id then Some(e.1) else LastWrite(log, id)
  {
    assert (log + [e])[..|log|] == log;
  }

  /** Three records that give the only setting of a dictionary to the next id, and its own id another value. */
  function Moving(ids: Ids, name: seq<byte>, value: seq<byte>, other: seq<byte>): (added: seq<Record>)
    ensures |added| == 3
  {
    var id := ids.namecnt + 1;
    [(id + ids.nameIdOffset, other)] + [(id + 1, name)] + [(id + 1 + ids.nameIdOffset, value)]
  }

  lemma {:induction false} FirstOrder(log: seq<Record>, added: seq<Record>, id: int, other: int)
    requires LastWrite(log, id).Some? && LastWrite(log, other).None?
    ensures First(log + added, id) < First(log + added, other)
    decreases log
  {
    FirstWritten(log, id);
    FirstWritten(log, other);
    if log[0].0 == id {
      assert (log + added)[0] == log[0];
    } else {
      assert (log + added)[0] == log[0] && (log + added)[1..] == log[1..] + added;
      FirstWritten(log[1..], id);
      FirstWritten(log[1..], other);
      forall k | 0 <= k < |log[1..]| ensures log[1..][k].0 != other {
        assert log[k + 1].0 != other;
      }
      FirstOrder(log[1..], added, id, other);
    }
  }

  /** What the log with the moved pair leaves under every id. */
  lemma MovedGiven(ids: Ids, name: seq<byte>, value: seq<byte>, other: seq<byte>, id: int)
    requires 3 <= ids.nameIdOffset && ids.namecnt + 1 < TWO_32 && name != [] && value != [] && other != []
    ensures Given(ids, KvLog(ids, [(name, value)]) + Moving(ids, name, value, other), id) ==
            if id == ids.namecnt + 1 then Some((name, other))
            else if id == ids.namecnt + 2 then Some((name, value))
            else None
  {
    var log := KvLog(ids, [(name, value)]);
    var first := ids.namecnt + 1;
    var a: Record, b: Record, c: Record :=
      (first + ids.nameIdOffset, other), (first + 1, name), (first + 1 + ids.nameIdOffset, value);
    assert log + Moving(ids, name, value, other) == log + [a] + [b] + [c];
    hide KvLog, LastWrite;
    if IsNameId(ids, id) {
      NameOfKv(ids, [(name, value)], id);
      if id == first {
        ValueOfKv(ids, [(name, value)], id);
      }
      LastWriteNext(log, a, id);
      LastWriteNext(log + [a], b, id);
      LastWriteNext(log + [a] + [b], c, id);
      LastWriteNext(log, a, id + ids.nameIdOffset);
      LastWriteNext(log + [a], b, id + ids.nameIdOffset);
      LastWriteNext(log + [a] + [b], c, id + ids.nameIdOffset);
    }
  }

  /**
   Without NotMoved the condition of UndisturbedIff is not necessary: a pair that
   moves to another id, while its own id gets another value, is read back all the same.
   */
  lemma MovedPairIsReadBack(ids: Ids, name: seq<byte>, value: seq<byte>, other: seq<byte>)
    requires 3 <= ids.nameIdOffset && ids.namecnt + 1 < TWO_32
    requires name != [] && value != [] && other != [] && other != value
    ensures var (kv, added) := ([(name, value)], Moving(ids, name, value, other));
            && SameDict(SettingsOf(ids, PutAll([], KvLog(ids, kv) + added)), Readable(kv))
            && !Undisturbed(ids, kv, added)
  {
    var kv, added := [(name, value)], Moving(ids, name, value, other);
    var log := KvLog(ids, kv) + added;
    var first := ids.namecnt + 1;
    hide KvLog, Given, Moving, Readable, SettingsOf, PutAll, First, Get;
    forall id
      ensures Given(ids, log, id) ==
              if id == first then Some((name, other)) else if id == first + 1 then Some((name, value)) else None
    {
      MovedGiven(ids, name, value, other, id);
    }
    GivenOfKv(ids, kv, first);
    NameOfKv(ids, kv, first);
    NameOfKv(ids, kv, first + 1);
    FirstOrder(KvLog(ids, kv), added, first, first + 1);
    ReadBackIff(ids, kv, added);
    forall n, v ensures Wins(ids, log, n, v) <==> IsReadable(kv, n, v) {
      if n == name && v == value {
        assert Given(ids, log, first + 1) == Some((n, v));
      }
    }
  }
}
