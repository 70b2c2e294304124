/**
 Bytes and the fixed-width encodings shared by the settings images, the UARP
 headers and the crypto helpers.
 */
module Bytes {

  type byte = x: int | 0 <= x < 256

  /** The value of an erased flash byte. */
  const ERASED_BYTE: byte := 0xff

  type u16 = x: int | 0 <= x < TWO_16
  type u32 = x: int | 0 <= x < TWO_32

  const TWO_16: nat := 0x1_0000
  const TWO_32: nat := 0x1_0000_0000

  /** `n` copies of an erased flash byte. */
  function Erased(n: nat): (s: seq<byte>)
    ensures |s| == n
    ensures forall i :: 0 <= i < n ==> s[i] == ERASED_BYTE
  {
    seq(n, _ => ERASED_BYTE)
  }

  /** `n` zero bytes. */
  function Zeros(n: nat): (s: seq<byte>)
    ensures |s| == n && forall i :: 0 <= i < n ==> s[i] == 0
  {
    seq(n, _ => 0)
  }

  // ----- Division ------------------------------------------------------------------

  lemma MulAtLeast(a: int, w: nat)
    requires a >= 1
    ensures a * w >= w
  {
  }

  /** Quotient and remainder are unique. */
  lemma DivModUnique(q: int, r: int, q': int, r': int, d: nat)
    requires q * d + r == q' * d + r' && 0 <= r < d && 0 <= r' < d
    ensures q == q' && r == r'
  {
    assert (q - q') * d == r' - r && (q' - q) * d == r - r';
    if q > q' {
      MulAtLeast(q - q', d);
    } else if q < q' {
      MulAtLeast(q' - q, d);
    }
  }

  // ----- Encodings -----------------------------------------------------------------

  /** `struct.pack('<H', n)`. */
  function Le16(n: nat): (s: seq<byte>)
    requires n < TWO_16
    ensures |s| == 2 && FromLe16(s) == n
  {
    [n % 256, n / 256]
  }

  /** `struct.unpack('<H', s)`. */
  function FromLe16(s: seq<byte>): (n: nat)
    requires |s| == 2
    ensures n < TWO_16
  {
    var lo: nat, hi: nat := s[0], s[1];
    lo + 256 * hi
  }

  /** `struct.pack('<I', n)`. */
  function Le32(n: nat): (s: seq<byte>)
    requires n < TWO_32
    ensures |s| == 4 && FromLe32(s) == n
  {
    Le16(n % TWO_16) + Le16(n / TWO_16)
  }

  /** `struct.unpack('<I', s)`. */
  function FromLe32(s: seq<byte>): (n: nat)
    requires |s| == 4
    ensures n < TWO_32
  {
    FromLe16(s[..2]) + TWO_16 * FromLe16(s[2..])
  }

  lemma Le16Inverse(s: seq<byte>)
    requires |s| == 2
    ensures Le16(FromLe16(s)) == s
  {
  }

  lemma Le32Inverse(s: seq<byte>)
    requires |s| == 4
    ensures Le32(FromLe32(s)) == s
  {
    var lo, hi := FromLe16(s[..2]), FromLe16(s[2..]);
    assert (lo + TWO_16 * hi) % TWO_16 == lo && (lo + TWO_16 * hi) / TWO_16 == hi;
    Le16Inverse(s[..2]);
    Le16Inverse(s[2..]);
    assert s == s[..2] + s[2..];
  }

  /** The number a big-endian byte string stands for. */
  function FromBe(s: seq<byte>): nat {
    if s == [] then 0 else
      var last: nat := s[|s| - 1];
      256 * FromBe(s[..|s| - 1]) + last
  }

  lemma FromBeFour(s: seq<byte>)
    requires |s| == 4
    ensures var b0: int, b1: int, b2: int, b3: int := s[0], s[1], s[2], s[3];
            FromBe(s) == ((b0 * 256 + b1) * 256 + b2) * 256 + b3
  {
    assert s[..3][..2] == s[..2] && s[..2][..1] == s[..1] && s[..1][..0] == [];
    assert FromBe(s[..1]) == s[0];
    assert FromBe(s[..2]) == 256 * FromBe(s[..1]) + s[1];
    assert FromBe(s[..3]) == 256 * FromBe(s[..2]) + s[2];
  }

  /** The value of a little-endian byte string. */
  function FromLe(s: seq<byte>): nat {
    if s == [] then 0 else
      var first: nat := s[0];
      first + 256 * FromLe(s[1..])
  }

  lemma FromLeTwo(s: seq<byte>)
    requires |s| == 2
    ensures FromLe(s) == s[0] as int + 256 * s[1] as int
  {
    assert s[1..][1..] == [];
    assert FromLe(s[1..]) == s[1];
  }

  lemma FromLeFour(s: seq<byte>)
    requires |s| == 4
    ensures FromLe(s) == FromLe(s[..2]) + TWO_16 * FromLe(s[2..])
  {
    assert s[1..][1..] == s[2..];
    assert FromLe(s[1..]) == s[1] as int + 256 * FromLe(s[2..]);
    FromLeTwo(s[..2]);
  }

  lemma Le16Value(n: nat)
    requires n < TWO_16
    ensures FromLe(Le16(n)) == n
  {
    FromLeTwo(Le16(n));
  }

  lemma Le32Value(n: nat)
    requires n < TWO_32
    ensures FromLe(Le32(n)) == n
  {
    var s := Le32(n);
    FromLeFour(s);
    assert s[..2] == Le16(n % TWO_16) && s[2..] == Le16(n / TWO_16);
    Le16Value(n % TWO_16);
    Le16Value(n / TWO_16);
  }
}
