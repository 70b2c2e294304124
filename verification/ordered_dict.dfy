/**
 Python dictionaries: assigning to a new key appends it, assigning to a known
 key keeps its place. The settings reader iterates over such dictionaries, so
 their order matters.
 */
module OrderedDict {
  import opened Wrappers

  type Dict<K, V> = seq<(K, V)>

  function Get<K(==), V>(d: Dict<K, V>, k: K): Option<V> {
    if d == [] then None
    else if d[0].0 == k then Some(d[0].1)
    else Get(d[1..], k)
  }

  function Put<K(==), V>(d: Dict<K, V>, k: K, v: V): Dict<K, V> {
    if d == [] then [(k, v)]
    else if d[0].0 == k then [(k, v)] + d[1..]
    else [d[0]] + Put(d[1..], k, v)
  }

  /** Assigns the entries one after the other. */
  function PutAll<K(==), V>(d: Dict<K, V>, entries: seq<(K, V)>): Dict<K, V>
    decreases entries
  {
    if entries == [] then d
    else PutAll(Put(d, entries[0].0, entries[0].1), entries[1..])
  }

  ghost predicate DistinctKeys<K, V>(d: Dict<K, V>) {
    forall i, j :: 0 <= i < j < |d| ==> d[i].0 != d[j].0
  }

  /** The value of the last entry with key `k`, if there is one. */
  function LastWrite<K(==), V>(entries: seq<(K, V)>, k: K): Option<V> {
    if entries == [] then None
    else
      var last := entries[|entries| - 1];
      if last.0 == k then Some(last.1) else LastWrite(entries[..|entries| - 1], k)
  }

  lemma {:induction false} GetPut<K, V>(d: Dict<K, V>, k: K, v: V, j: K)
    ensures Get(Put(d, k, v), j) == if j == k then Some(v) else Get(d, j)
  {
    if d != [] {
      if d[0].0 == k {
        assert Put(d, k, v)[1..] == d[1..];
      } else {
        GetPut(d[1..], k, v, j);
        assert Put(d, k, v)[1..] == Put(d[1..], k, v);
      }
    }
  }

  lemma {:induction false} PutAllAppend<K, V>(d: Dict<K, V>, a: seq<(K, V)>, b: seq<(K, V)>)
    ensures PutAll(d, a + b) == PutAll(PutAll(d, a), b)
    decreases a
  {
    if a == [] {
      assert a + b == b;
    } else {
      assert (a + b)[0] == a[0] && (a + b)[1..] == a[1..] + b;
      PutAllAppend(Put(d, a[0].0, a[0].1), a[1..], b);
    }
  }

  lemma PutAllOne<K, V>(d: Dict<K, V>, e: (K, V))
    ensures PutAll(d, [e]) == Put(d, e.0, e.1)
  {
    assert [e][1..] == [];
  }

  /** A dictionary filled by assignments answers with the last write. */
  lemma {:induction false} LastWriteWins<K, V>(entries: seq<(K, V)>, k: K)
    ensures Get(PutAll([], entries), k) == LastWrite(entries, k)
  {
    if entries != [] {
      var n := |entries| - 1;
      var init, last := entries[..n], entries[n];
      assert entries == init + [last];
      PutAllAppend([], init, [last]);
      PutAllOne(PutAll([], init), last);
      GetPut(PutAll([], init), last.0, last.1, k);
      LastWriteWins(init, k);
    }
  }

  /** Assigning to a new key appends. */
  lemma {:induction false} PutNew<K, V>(d: Dict<K, V>, k: K, v: V)
    requires forall i :: 0 <= i < |d| ==> d[i].0 != k
    ensures Put(d, k, v) == d + [(k, v)]
  {
    if d != [] {
      PutNew(d[1..], k, v);
      assert d == [d[0]] + d[1..];
    }
  }

  predicate HasKey<K(==), V>(d: Dict<K, V>, k: K) {
    Get(d, k).Some?
  }

  lemma {:induction false} HasKeyMeaning<K, V>(d: Dict<K, V>, k: K)
    ensures HasKey(d, k) <==> exists i :: 0 <= i < |d| && d[i].0 == k
  {
    if d != [] && d[0].0 != k {
      HasKeyMeaning(d[1..], k);
      if HasKey(d, k) {
        var i :| 0 <= i < |d[1..]| && d[1..][i].0 == k;
        assert d[i + 1].0 == k;
      } else {
        forall i | 0 <= i < |d| ensures d[i].0 != k {
          if i > 0 { assert d[i] == d[1..][i - 1]; }
        }
      }
    }
  }

  /** Assignments keep the keys distinct. */
  lemma {:induction false} PutKeepsDistinct<K, V>(d: Dict<K, V>, k: K, v: V)
    requires DistinctKeys(d)
    ensures DistinctKeys(Put(d, k, v))
    ensures forall i :: 0 <= i < |Put(d, k, v)| ==>
              Put(d, k, v)[i].0 == k || exists j :: 0 <= j < |d| && d[j].0 == Put(d, k, v)[i].0
  {
    if d != [] && d[0].0 != k {
      var rest := Put(d[1..], k, v);
      PutKeepsDistinct(d[1..], k, v);
      forall i | 0 <= i < |rest|
        ensures rest[i].0 != d[0].0
        ensures rest[i].0 == k || exists j :: 0 <= j < |d| && d[j].0 == rest[i].0
      {
        if rest[i].0 != k {
          var j :| 0 <= j < |d[1..]| && d[1..][j].0 == rest[i].0;
          assert d[j + 1].0 == rest[i].0;
        }
      }
      var all := Put(d, k, v);
      assert forall i :: 0 < i < |all| ==> all[i] == rest[i - 1];
    }
  }

  lemma {:induction false} PutAllDistinct<K, V>(d: Dict<K, V>, entries: seq<(K, V)>)
    requires DistinctKeys(d)
    ensures DistinctKeys(PutAll(d, entries))
    decreases entries
  {
    if entries != [] {
      PutKeepsDistinct(d, entries[0].0, entries[0].1);
      PutAllDistinct(Put(d, entries[0].0, entries[0].1), entries[1..]);
    }
  }

  /** Copying a dictionary entry by entry gives the same dictionary. */
  lemma {:induction false} CopyDict<K, V>(d: Dict<K, V>)
    requires DistinctKeys(d)
    ensures PutAll([], d) == d
  {
    if d != [] {
      var n := |d| - 1;
      assert d == d[..n] + [d[n]];
      CopyDict(d[..n]);
      PutAllAppend([], d[..n], [d[n]]);
      PutAllOne(d[..n], d[n]);
      PutNew(d[..n], d[n].0, d[n].1);
    }
  }

  lemma PutAllNext<K, V>(log: seq<(K, V)>, k: nat)
    requires k < |log|
    ensures PutAll([], log[..k + 1]) == Put(PutAll([], log[..k]), log[k].0, log[k].1)
  {
    assert log[..k + 1] == log[..k] + [log[k]];
    PutAllAppend([], log[..k], [log[k]]);
    PutAllOne(PutAll([], log[..k]), log[k]);
  }

  lemma {:induction false} PutAllGrows<K, V>(d: Dict<K, V>, entries: seq<(K, V)>)
    requires d != [] || entries != []
    ensures PutAll(d, entries) != []
    decreases entries
  {
    if entries != [] {
      PutAllGrows(Put(d, entries[0].0, entries[0].1), entries[1..]);
    }
  }

  // ----- Consolidating before copying ----------------------------------------------

  lemma {:induction false} PutSame<K, V>(d: Dict<K, V>, k: K, u: V, v: V)
    ensures Put(Put(d, k, u), k, v) == Put(d, k, v)
  {
    if d != [] {
      if d[0].0 == k {
        assert Put(d, k, u)[1..] == d[1..];
      } else {
        PutSame(d[1..], k, u, v);
        assert Put(d, k, u)[1..] == Put(d[1..], k, u);
      }
    }
  }

  /** Assigning to a known key commutes with assigning to another one. */
  lemma {:induction false} PutSwap<K, V>(d: Dict<K, V>, k: K, v: V, j: K, u: V)
    requires HasKey(d, k) && j != k
    ensures Put(Put(d, k, v), j, u) == Put(Put(d, j, u), k, v)
  {
    if d[0].0 == k {
      assert Put(d, k, v)[1..] == d[1..] && Put(d, j, u)[1..] == Put(d[1..], j, u);
    } else {
      assert Put(d, k, v)[1..] == Put(d[1..], k, v);
      if d[0].0 == j {
        assert Put(d, j, u)[1..] == d[1..];
      } else {
        PutSwap(d[1..], k, v, j, u);
        assert Put(d, j, u)[1..] == Put(d[1..], j, u);
      }
    }
  }

  lemma {:induction false} PutPast<K, V>(d: Dict<K, V>, entries: seq<(K, V)>, k: K, v: V)
    requires HasKey(d, k) && forall i :: 0 <= i < |entries| ==> entries[i].0 != k
    ensures PutAll(Put(d, k, v), entries) == Put(PutAll(d, entries), k, v)
    decreases entries
  {
    if entries != [] {
      var (j, u) := entries[0];
      PutSwap(d, k, v, j, u);
      GetPut(d, j, u, k);
      PutPast(Put(d, j, u), entries[1..], k, v);
    }
  }

  lemma {:induction false} PutAllPut<K, V>(d: Dict<K, V>, entries: Dict<K, V>, k: K, v: V)
    requires DistinctKeys(entries)
    ensures PutAll(d, Put(entries, k, v)) == Put(PutAll(d, entries), k, v)
    decreases entries
  {
    if entries == [] {
      PutAllOne(d, (k, v));
    } else {
      var (j, u) := entries[0];
      if j == k {
        assert Put(entries, k, v)[1..] == entries[1..];
        GetPut(d, k, u, k);
        PutSame(d, k, u, v);
        PutPast(Put(d, k, u), entries[1..], k, v);
      } else {
        assert Put(entries, k, v)[1..] == Put(entries[1..], k, v);
        PutAllPut(Put(d, j, u), entries[1..], k, v);
      }
    }
  }

  /** Copying the dictionary of a log is as good as assigning its entries. */
  lemma {:induction false} ConsolidateFirst<K, V>(d: Dict<K, V>, log: seq<(K, V)>)
    ensures PutAll(d, PutAll([], log)) == PutAll(d, log)
  {
    if log != [] {
      var n := |log| - 1;
      var init, e := log[..n], log[n];
      assert log == init + [e];
      ConsolidateFirst(d, init);
      PutAllAppend([], init, [e]);
      PutAllOne(PutAll([], init), e);
      PutAllAppend(d, init, [e]);
      PutAllOne(PutAll(d, init), e);
      PutAllDistinct([], init);
      PutAllPut(d, PutAll([], init), e.0, e.1);
    }
  }
}
