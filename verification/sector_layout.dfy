/**
 Where both formats put the records of a sector: entries grow down from below a few
 reserved ones, and data grows up from the start.
 */
module SectorLayout {
  import Bytes
  import opened HexImage
  import opened OrderedDict
  import opened SettingsCore
  import opened SettingsTheorems
  import NvsAte
  import ZmsAte

  datatype Format = Nvs | Zms

  /** The size of an entry, rounded up to the write block size. */
  function EntrySize(f: Format, w: nat): nat
    requires w > 0
  {
    match f
    case Nvs => NvsAte.AteSize(w)
    case Zms => ZmsAte.ZmsAteSize(w)
  }

  /** Data that is kept in the entry itself. */
  predicate IsInline(f: Format, data: seq<Bytes.byte>) {
    f.Zms? && |data| <= ZmsAte.MAX_SMALL
  }

  /** The offset behind the data of `log`. */
  function DataEnd(f: Format, log: seq<Record>, w: nat): nat
    requires w > 0
  {
    if log == [] then 0
    else
      var n := |log| - 1;
      DataEnd(f, log[..n], w) + if IsInline(f, log[n].1) then 0 else AlignedLen(|log[n].1|, w)
  }

  /**
   The offset of the `k`-th data entry, growing down: below the close entry in NVS,
   below the empty, the close and the GC-done entry in ZMS.
   */
  function AtePos(f: Format, k: nat, size: nat): int {
    if k == 0 then SETTINGS_SECTOR_SIZE - (match f case Nvs => 2 * size case Zms => 4 * size)
    else AtePos(f, k - 1, size) - size
  }

  /** All of `log` fits one sector. */
  predicate Fits(f: Format, log: seq<Record>, w: nat)
    requires w > 0
  {
    AtePos(f, |log|, EntrySize(f, w)) >= DataEnd(f, log, w)
  }

  lemma {:induction false} AtePosBounds(f: Format, k: nat, n: nat, size: nat)
    requires k < n
    ensures AtePos(f, n, size) + size <= AtePos(f, k, size) <= AtePos(f, 0, size)
    ensures AtePos(f, 0, size) == SETTINGS_SECTOR_SIZE - (match f case Nvs => 2 * size case Zms => 4 * size)
    decreases n
  {
    if k == n - 1 {
      if k > 0 {
        AtePosBounds(f, 0, k, size);
      }
    } else {
      AtePosBounds(f, k, n - 1, size);
    }
  }

  lemma AtePosTop(f: Format, k: nat, size: nat)
    ensures AtePos(f, k, size) <= SETTINGS_SECTOR_SIZE - (match f case Nvs => 2 * size case Zms => 4 * size)
  {
    if k > 0 {
      AtePosBounds(f, 0, k, size);
    }
  }

  lemma {:induction false} DataEndBounds(f: Format, log: seq<Record>, k: nat, w: nat)
    requires w > 0 && k < |log|
    ensures DataEnd(f, log[..k], w) + (if IsInline(f, log[k].1) then 0 else |log[k].1|) <= DataEnd(f, log[..k + 1], w)
    ensures DataEnd(f, log[..k + 1], w) <= DataEnd(f, log, w)
  {
    var n := |log| - 1;
    assert log[..k + 1][..k] == log[..k];
    if k == n {
      assert log[..k + 1] == log;
    } else {
      DataEndBounds(f, log[..n], k, w);
      assert log[..n][..k] == log[..k] && log[..n][..k + 1] == log[..k + 1];
    }
  }

  /** A prefix of what fits, fits. */
  lemma FitsPrefix(f: Format, log: seq<Record>, k: nat, w: nat)
    requires w > 0 && k <= |log| && Fits(f, log, w)
    ensures Fits(f, log[..k], w)
  {
    if k < |log| {
      AtePosBounds(f, k, |log|, EntrySize(f, w));
      DataEndBounds(f, log, k, w);
    } else {
      assert log[..k] == log;
    }
  }

  lemma PrefixesFit(f: Format, log: seq<Record>, r: seq<Record>, w: nat)
    requires w > 0 && |r| == 3
    ensures Fits(f, log + r, w) ==> Fits(f, log + [r[0]], w) && Fits(f, log + [r[0]] + [r[1]], w)
  {
    if Fits(f, log + r, w) {
      assert (log + r)[..|log| + 1] == log + [r[0]];
      assert (log + r)[..|log| + 2] == log + [r[0]] + [r[1]];
      FitsPrefix(f, log + r, |log| + 1, w);
      FitsPrefix(f, log + r, |log| + 2, w);
    }
  }

  /** If the records of the first names and values do not fit, all of them do not. */
  lemma PrefixNotFitting(f: Format, ids: Ids, kv: Settings, i: nat, w: nat)
    requires w > 0 && i <= |kv| && ids.namecnt + |kv| < Bytes.TWO_32
    requires !Fits(f, KvLog(ids, kv[..i]), w)
    ensures !Fits(f, KvLog(ids, kv), w)
  {
    if Fits(f, KvLog(ids, kv), w) {
      KvLogPrefix(ids, kv, i);
      FitsPrefix(f, KvLog(ids, kv), 3 * i, w);
    }
  }

  lemma {:induction false} AtePosLinear(f: Format, k: nat, size: nat)
    requires size >= NvsAte.ATE_LEN_MIN
    ensures AtePos(f, k, size) <= SETTINGS_SECTOR_SIZE - NvsAte.ATE_LEN_MIN * (k + 2)
  {
    if k > 0 {
      AtePosLinear(f, k - 1, size);
    }
  }

  /** Every setting takes three entries, so a sector holds few of them. */
  lemma FewRecords(f: Format, log: seq<Record>, w: nat)
    requires w > 0 && Fits(f, log, w)
    ensures NvsAte.ATE_LEN_MIN * (|log| + 2) <= SETTINGS_SECTOR_SIZE
  {
    AtePosLinear(f, |log|, EntrySize(f, w));
  }
}
