/** The settings that are left when one of the records of a dictionary is missing. */
module SettingsDamage {
  import opened Wrappers
  import opened Bytes
  import opened OrderedDict
  import opened SettingsCore
  import opened SettingsTheorems
  import opened SettingsReading

  function Without<T>(s: seq<T>, k: nat): seq<T>
    requires k < |s|
  {
    s[..k] + s[k + 1..]
  }

  /** The three records of setting `i`: value, name, and the largest name id. */
  function KvRecord(ids: Ids, kv: Settings, i: nat, part: nat): Record
    requires i < |kv| && part < 3 && ids.namecnt + |kv| < TWO_32
  {
    if part == 0 then (ids.namecnt + 1 + i + ids.nameIdOffset, kv[i].1)
    else if part == 1 then (ids.namecnt + 1 + i, kv[i].0)
    else (ids.namecnt, Le32(ids.namecnt + 1 + i))
  }

  /** The records of a dictionary, by their places. */
  lemma {:induction false} KvLogAt(ids: Ids, kv: Settings, i: nat, part: nat)
    requires ids.namecnt + |kv| < TWO_32 && i < |kv| && part < 3
    ensures KvLog(ids, kv)[3 * i + part] == KvRecord(ids, kv, i, part)
  {
    var n := |kv| - 1;
    hide Le32;
    if i < n {
      KvLogAt(ids, kv[..n], i, part);
    }
  }

  /** The log without record `k` writes the same, but for the id of that record. */
  lemma LastWriteWithout(log: seq<Record>, k: nat, id: int)
    requires k < |log|
    ensures id != log[k].0 ==> LastWrite(Without(log, k), id) == LastWrite(log, id)
    ensures (forall m :: 0 <= m < |log| && m != k ==> log[m].0 != id) ==> LastWrite(Without(log, k), id) == None
  {
    var a, b := log[..k], log[k + 1..];
    assert log == (a + [log[k]]) + b;
    LastWriteAppend(a, b, id);
    LastWriteAppend(a + [log[k]], b, id);
    LastWriteAppend(a, [log[k]], id);
    LastWriteAppend([], a, id);
    assert [] + a == a;
    assert LastWrite([log[k]], id) == if log[k].0 == id then Some(log[k].1) else None;
    hide LastWrite;
  }

  /** The ids of names and values are used once. */
  lemma IdOnce(ids: Ids, kv: Settings, i: nat, part: nat, m: nat)
    requires FitsIds(ids, kv) && i < |kv| && part < 2 && m < 3 * |kv| && m != 3 * i + part
    ensures KvLog(ids, kv)[m].0 != KvRecord(ids, kv, i, part).0
  {
    KvLogAt(ids, kv, m / 3, m % 3);
    hide KvLog, Le32;
  }

  /** Without a name or value nothing is written under its id, and under the others what was. */
  lemma IdLeft(ids: Ids, kv: Settings, i: nat, part: nat, id: int)
    requires FitsIds(ids, kv) && i < |kv| && part < 2
    ensures LastWrite(Without(KvLog(ids, kv), 3 * i + part), id) ==
            if id == KvRecord(ids, kv, i, part).0 then None else LastWrite(KvLog(ids, kv), id)
  {
    var log := KvLog(ids, kv);
    var k := 3 * i + part;
    KvLogAt(ids, kv, i, part);
    hide KvLog, LastWrite, Without, KvRecord;
    forall m | 0 <= m < |log| && m != k ensures log[m].0 != log[k].0 {
      IdOnce(ids, kv, i, part, m);
    }
    LastWriteWithout(log, k, id);
  }

  lemma GivenBut(ids: Ids, a: seq<Record>, b: seq<Record>, key: int, id: int)
    requires LastWrite(a, id) == if id == key then None else LastWrite(b, id)
    requires LastWrite(a, id + ids.nameIdOffset) ==
             if id + ids.nameIdOffset == key then None else LastWrite(b, id + ids.nameIdOffset)
    ensures Given(ids, a, id) == if id == key || id + ids.nameIdOffset == key then None else Given(ids, b, id)
  {
    hide LastWrite;
  }

  lemma KeyOf(ids: Ids, kv: Settings, i: nat, part: nat, id: int)
    requires FitsIds(ids, kv) && i < |kv| && part < 2 && IsNameId(ids, id)
    ensures var key := KvRecord(ids, kv, i, part).0;
            id == key || id + ids.nameIdOffset == key <==> id == ids.namecnt + 1 + i
  {
  }

  /** The id of a setting without name or value gives nothing, and the others give what they did. */
  lemma GivenWithout(ids: Ids, kv: Settings, i: nat, part: nat, id: int)
    requires FitsIds(ids, kv) && i < |kv| && part < 2 && IsNameId(ids, id)
    ensures Given(ids, Without(KvLog(ids, kv), 3 * i + part), id) ==
            if id == ids.namecnt + 1 + i then None else Given(ids, KvLog(ids, kv), id)
  {
    hide LastWrite, KvLog, Given, Without, KvRecord;
    IdLeft(ids, kv, i, part, id);
    IdLeft(ids, kv, i, part, id + ids.nameIdOffset);
    KeyOf(ids, kv, i, part, id);
    GivenBut(ids, Without(KvLog(ids, kv), 3 * i + part), KvLog(ids, kv), KvRecord(ids, kv, i, part).0, id);
  }

  lemma ReadableLeft(kv: Settings, i: nat, name: seq<byte>, value: seq<byte>)
    requires i < |kv|
    ensures IsReadable(Without(kv, i), name, value) <==>
            exists j :: 0 <= j < |kv| && j != i && kv[j] == (name, value) && name != [] && value != []
  {
    var left := Without(kv, i);
    forall j | 0 <= j < |kv| && j != i ensures kv[j] in left {
      assert left[if j < i then j else j - 1] == kv[j];
    }
    forall a | 0 <= a < |left| ensures exists j :: 0 <= j < |kv| && j != i && kv[j] == left[a] {
      assert kv[if a < i then a else a + 1] == left[a];
    }
  }

  lemma WinsWithout(ids: Ids, kv: Settings, i: nat, part: nat, name: seq<byte>, value: seq<byte>)
    requires FitsIds(ids, kv) && DistinctKeys(kv) && i < |kv| && part < 2
    ensures Wins(ids, Without(KvLog(ids, kv), 3 * i + part), name, value) <==> IsReadable(Without(kv, i), name, value)
  {
    var log := Without(KvLog(ids, kv), 3 * i + part);
    forall id
      ensures var j := id - ids.namecnt - 1;
              Given(ids, log, id) ==
              if 0 <= j < |kv| && j != i && kv[j].0 != [] && kv[j].1 != [] then Some((kv[j].0, kv[j].1)) else None
    {
      if IsNameId(ids, id) {
        GivenWithout(ids, kv, i, part, id);
      }
      GivenOfKv(ids, kv, id);
    }
    ReadableLeft(kv, i, name, value);
    hide Given, KvLog, First, Without, IsReadable;
    if IsReadable(Without(kv, i), name, value) {
      var j :| 0 <= j < |kv| && j != i && kv[j] == (name, value);
      assert Given(ids, log, ids.namecnt + 1 + j) == Some((name, value));
    }
  }

  /** The settings that are left when the name or the value of setting `i` is missing. */
  lemma OthersLeft(ids: Ids, kv: Settings, i: nat, part: nat)
    requires FitsIds(ids, kv) && DistinctKeys(kv) && i < |kv| && part < 2
    ensures SameDict(SettingsOf(ids, PutAll([], Without(KvLog(ids, kv), 3 * i + part))), Readable(Without(kv, i)))
  {
    var log, left := Without(KvLog(ids, kv), 3 * i + part), Without(kv, i);
    var s := SettingsOf(ids, PutAll([], log));
    assert DistinctKeys(left);
    hide Wins, SettingsOf, PutAll, Get, Readable, KvLog, IsReadable, Without, DistinctKeys;
    forall name ensures Get(s, name) == Get(Readable(left), name) {
      forall value ensures Get(s, name) == Some(value) <==> Get(Readable(left), name) == Some(value) {
        ReadMeans(ids, log, name, value);
        WinsWithout(ids, kv, i, part, name, value);
        ReadableGet(left, name, value);
      }
      SameAnswer(Get(s, name), Get(Readable(left), name));
    }
  }
}
