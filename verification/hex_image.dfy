/** The sparse memory image that the settings tool fills and reads back, and its sectors. */
module HexImage {
  import opened Bytes

  /** `DEVICE.SETTINGS_SECTOR_SIZE`. */
  const SETTINGS_SECTOR_SIZE: nat := 0x1000

  /** An Intel HEX image: the bytes written so far, by address. */
  type Hex = map<int, byte>

  function ByteAt(data: seq<byte>, addr: int, a: int): byte
    requires addr <= a < addr + |data|
  {
    data[a - addr]
  }

  /** `ih.frombytes(data, addr)`. */
  function FromBytes(ih: Hex, data: seq<byte>, addr: int): Hex {
    ih + map a | addr <= a < addr + |data| :: ByteAt(data, addr, a)
  }

  /** The `n` bytes from `addr` on; what was not written is erased flash. */
  function ReadBytes(ih: Hex, addr: int, n: nat): (s: seq<byte>)
    ensures |s| == n
  {
    seq(n, i requires 0 <= i < n => if addr + i in ih then ih[addr + i] else ERASED_BYTE)
  }

  lemma ReadWritten(ih: Hex, data: seq<byte>, addr: int)
    ensures ReadBytes(FromBytes(ih, data, addr), addr, |data|) == data
  {
  }

  lemma ReadElsewhere(ih: Hex, data: seq<byte>, addr: int, at: int, n: nat)
    requires at + n <= addr || addr + |data| <= at
    ensures ReadBytes(FromBytes(ih, data, addr), at, n) == ReadBytes(ih, at, n)
  {
  }

  lemma ReadWithin(ih: Hex, addr: int, n: nat, lo: nat, hi: nat)
    requires lo <= hi <= n
    ensures ReadBytes(ih, addr, n)[lo..hi] == ReadBytes(ih, addr + lo, hi - lo)
  {
  }

  /**
   `n` rounded up to a multiple of `w`; for powers of two this is the source's
   `(n + w - 1) & ~(w - 1)`.
   */
  function AlignedLen(n: nat, w: nat): (r: nat)
    requires w > 0
    ensures n <= r < n + w
  {
    if n == 0 then 0 else if n <= w then w else w + AlignedLen(n - w, w)
  }

  /** The padding the source computes is the distance to the next multiple. */
  lemma {:induction false} PaddingLen(n: nat, w: nat)
    requires w > 0
    ensures (w - n) % w == AlignedLen(n, w) - n
  {
    if n == 0 {
    } else if n <= w {
      SmallMod(w - n, w);
    } else {
      PaddingLen(n - w, w);
      ShiftMod(w - n, w);
    }
  }

  lemma SmallMod(x: nat, w: nat)
    requires x < w
    ensures x % w == x
  {
  }

  lemma ShiftMod(x: int, w: nat)
    requires w > 0
    ensures (x + w) % w == x % w
  {
    assert x == x / w * w + x % w;
    assert x + w == (x + w) / w * w + (x + w) % w;
    assert (x / w + 1) * w == x / w * w + w;
    DivModUnique((x + w) / w, (x + w) % w, x / w + 1, x % w, w);
  }

  /** `data` padded to the write block size. */
  function Padded(data: seq<byte>, w: nat): (s: seq<byte>)
    requires w > 0
    ensures |s| == AlignedLen(|data|, w) && s[..|data|] == data
  {
    data + Erased(AlignedLen(|data|, w) - |data|)
  }

  method AlignData(data: seq<byte>, w: nat) returns (s: seq<byte>)
    requires w > 0
    ensures s == Padded(data, w)
  {
    PaddingLen(|data|, w);
    var padding := (w - |data|) % w;
    s := data + Erased(padding);
  }

  lemma ReadPadded(ih: Hex, data: seq<byte>, addr: int, w: nat)
    requires w > 0
    ensures ReadBytes(FromBytes(ih, Padded(data, w), addr), addr, |data|) == data
  {
    var h := FromBytes(ih, Padded(data, w), addr);
    ReadWritten(ih, Padded(data, w), addr);
    ReadWithin(h, addr, |Padded(data, w)|, 0, |data|);
  }

  /** The `i`-th sector of a partition. */
  function SectorBytes(bin: seq<byte>, i: nat): seq<byte>
    requires SETTINGS_SECTOR_SIZE * (i + 1) <= |bin|
  {
    bin[SETTINGS_SECTOR_SIZE * i..SETTINGS_SECTOR_SIZE * (i + 1)]
  }

  lemma SliceOfSector(ih: Hex, base: int, lo: int, n: nat)
    requires 0 <= lo && lo + n <= SETTINGS_SECTOR_SIZE
    ensures ReadBytes(ih, base, SETTINGS_SECTOR_SIZE)[lo..lo + n] == ReadBytes(ih, base + lo, n)
  {
    ReadWithin(ih, base, SETTINGS_SECTOR_SIZE, lo, lo + n);
  }

  lemma ErasedRead(ih: Hex, at: int, n: nat)
    requires forall a :: at <= a < at + n ==> a !in ih
    ensures ReadBytes(ih, at, n) == Erased(n)
  {
  }
}
