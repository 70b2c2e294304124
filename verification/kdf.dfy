/** The key derivation of ANSI X9.63, section 3.6.1 of SEC 1; SHA-256 is a parameter. */
module Kdf {
  import opened Bytes

  const DIGEST_LEN: nat := 32

  type Hash = seq<byte> -> seq<byte>

  ghost predicate IsSha256(hash: Hash) {
    forall m :: |hash(m)| == DIGEST_LEN
  }

  // ----- What is computed --------------------------------------------------------

  /** The low 32 bits of the counter, big-endian. */
  function CounterBytes(counter: nat): (s: seq<byte>)
    ensures |s| == 4
  {
    [counter / 0x100_0000 % 256, counter / 0x1_0000 % 256, counter / 0x100 % 256, counter % 256]
  }

  /** Block number `counter`, from 1 on. */
  function Block(hash: Hash, key: seq<byte>, info: seq<byte>, counter: nat): seq<byte> {
    hash(key + CounterBytes(counter) + info)
  }

  /** The first `n` blocks, in counter order. */
  function Blocks(hash: Hash, key: seq<byte>, info: seq<byte>, n: nat): seq<byte> {
    if n == 0 then [] else Blocks(hash, key, info, n - 1) + Block(hash, key, info, n)
  }

  lemma {:induction false} BlocksLen(hash: Hash, key: seq<byte>, info: seq<byte>, n: nat)
    requires IsSha256(hash)
    ensures |Blocks(hash, key, info, n)| == DIGEST_LEN * n
  {
    if n > 0 {
      BlocksLen(hash, key, info, n - 1);
    }
  }

  lemma {:induction false} BlocksPrefix(hash: Hash, key: seq<byte>, info: seq<byte>, m: nat, n: nat)
    requires IsSha256(hash) && m <= n
    ensures Blocks(hash, key, info, m) <= Blocks(hash, key, info, n)
  {
    if m < n {
      BlocksPrefix(hash, key, info, m, n - 1);
    }
  }

  /** `output` is the beginning of the blocks. */
  predicate IsKdf(hash: Hash, key: seq<byte>, info: seq<byte>, output: seq<byte>) {
    output <= Blocks(hash, key, info, |output| / DIGEST_LEN + 1)
  }

  // ----- What it means -------------------------------------------------------------

  /** The output is the first bytes of any sufficiently long row of blocks; there is one of each length. */
  lemma BeginningOfBlocks(hash: Hash, key: seq<byte>, info: seq<byte>, output: seq<byte>, n: nat)
    requires IsSha256(hash) && |output| <= DIGEST_LEN * n
    ensures IsKdf(hash, key, info, output) <==> output <= Blocks(hash, key, info, n)
  {
    var k := |output| / DIGEST_LEN + 1;
    BlocksLen(hash, key, info, n);
    BlocksLen(hash, key, info, k);
    if n <= k {
      BlocksPrefix(hash, key, info, n, k);
    } else {
      BlocksPrefix(hash, key, info, k, n);
    }
    hide Blocks;
    var a, b := Blocks(hash, key, info, n), Blocks(hash, key, info, k);
    assert if n <= k then a <= b else b <= a;
  }

  /** Shorter outputs are prefixes of longer ones. */
  lemma ShorterIsPrefix(hash: Hash, key: seq<byte>, info: seq<byte>, short: seq<byte>, long: seq<byte>)
    requires IsSha256(hash) && |short| <= |long|
    requires IsKdf(hash, key, info, short) && IsKdf(hash, key, info, long)
    ensures short <= long
  {
    var n := |long| / DIGEST_LEN + 1;
    BeginningOfBlocks(hash, key, info, short, n);
    BeginningOfBlocks(hash, key, info, long, n);
    hide Blocks, IsKdf;
  }

  /** Byte i of the output is byte i mod 32 of the block with counter i / 32 + 1. */
  lemma {:induction false} ByteOfBlock(hash: Hash, key: seq<byte>, info: seq<byte>, n: nat, i: nat)
    requires IsSha256(hash) && i < DIGEST_LEN * n
    ensures |Blocks(hash, key, info, n)| == DIGEST_LEN * n
    ensures Blocks(hash, key, info, n)[i] == Block(hash, key, info, i / DIGEST_LEN + 1)[i % DIGEST_LEN]
  {
    BlocksLen(hash, key, info, n);
    BlocksLen(hash, key, info, n - 1);
    if i < DIGEST_LEN * (n - 1) {
      ByteOfBlock(hash, key, info, n - 1, i);
    } else {
      assert i / DIGEST_LEN + 1 == n;
    }
  }

  // ----- The counter -----------------------------------------------------------------

  /** The counter bytes are the counter modulo 2^32, most significant byte first. */
  lemma CounterIsBigEndian(counter: nat)
    ensures FromBe(CounterBytes(counter)) == counter % TWO_32
  {
    FromBeFour(CounterBytes(counter));
    hide FromBe;
    var a := counter / 256;
    var b := a / 256;
    var d := b / 256;
    assert counter / 0x1_0000 == b && counter / 0x100_0000 == d;
    assert counter == 0x1_0000_0000 * (d / 256) + (((d % 256 * 256 + b % 256) * 256 + a % 256) * 256 + counter % 256);
  }

  lemma SameDigits(x: int, y: int, p: byte, q: byte)
    requires x * 256 + p == y * 256 + q
    ensures x == y && p == q
  {
  }

  /** Four bytes are determined by their big-endian value. */
  lemma SameBytes(s: seq<byte>, t: seq<byte>)
    requires |s| == |t| == 4 && FromBe(s) == FromBe(t)
    ensures s == t
  {
    FromBeFour(s);
    FromBeFour(t);
    hide FromBe;
    var s0: int, s1: int, s2: int := s[0], s[1], s[2];
    var t0: int, t1: int, t2: int := t[0], t[1], t[2];
    SameDigits((s0 * 256 + s1) * 256 + s2, (t0 * 256 + t1) * 256 + t2, s[3], t[3]);
    SameDigits(s0 * 256 + s1, t0 * 256 + t1, s[2], t[2]);
    SameDigits(s0, t0, s[1], t[1]);
  }

  /**
   Byte i of any output is byte i mod 32 of the hash of the key, the number i / 32 + 1
   as four big-endian bytes, and the shared information.
   */
  lemma OutputByte(hash: Hash, key: seq<byte>, info: seq<byte>, output: seq<byte>, i: nat, number: seq<byte>)
    requires IsSha256(hash) && IsKdf(hash, key, info, output) && i < |output|
    requires |number| == 4 && FromBe(number) == (i / DIGEST_LEN + 1) % TWO_32
    ensures |hash(key + number + info)| == DIGEST_LEN
    ensures output[i] == hash(key + number + info)[i % DIGEST_LEN]
  {
    CounterIsBigEndian(i / DIGEST_LEN + 1);
    SameBytes(number, CounterBytes(i / DIGEST_LEN + 1));
    ByteOfBlock(hash, key, info, |output| / DIGEST_LEN + 1, i);
    hide Blocks, CounterBytes, FromBe;
  }

  // ----- The loop --------------------------------------------------------------------

  lemma BlocksNext(hash: Hash, key: seq<byte>, info: seq<byte>, n: nat)
    requires IsSha256(hash) && n >= 1
    ensures Blocks(hash, key, info, n) == Blocks(hash, key, info, n - 1) + Block(hash, key, info, n)
    ensures |Block(hash, key, info, n)| == DIGEST_LEN
  {
  }

  /** `ocrypto_constant_time_copy` of the first `n` bytes to `output + pos`. */
  method CopyFront(output: array<byte>, pos: nat, digest: seq<byte>, n: nat)
    requires pos + n <= output.Length && n <= |digest|
    modifies output
    ensures output[..pos + n] == old(output[..pos]) + digest[..n]
  {
    forall i | 0 <= i < n {
      output[pos + i] := digest[i];
    }
  }

  /** What the front of the next block adds. */
  lemma FrontOfNext(hash: Hash, key: seq<byte>, info: seq<byte>, counter: nat, n: nat)
    requires IsSha256(hash) && counter >= 1 && n <= DIGEST_LEN
    ensures |Block(hash, key, info, counter)| == DIGEST_LEN
    ensures var front := Blocks(hash, key, info, counter - 1) + Block(hash, key, info, counter)[..n];
            && front <= Blocks(hash, key, info, counter)
            && (n == DIGEST_LEN ==> front == Blocks(hash, key, info, counter))
  {
    BlocksNext(hash, key, info, counter);
    hide Blocks, Block;
    var digest := Block(hash, key, info, counter);
    assert n == DIGEST_LEN ==> digest[..n] == digest;
  }

  /** How much of a block is needed. */
  function Front(left: nat): nat {
    if left >= DIGEST_LEN then DIGEST_LEN else left
  }

  /** All blocks before number `counter` are written. */
  ghost predicate Filling(hash: Hash, output: array<byte>, key: seq<byte>, info: seq<byte>, counter: nat, pos: nat,
                          left: nat)
    reads output
    requires counter >= 1 && pos + left <= output.Length
  {
    && pos == DIGEST_LEN * (counter - 1) && pos + left == output.Length
    && output[..pos] == Blocks(hash, key, info, counter - 1)
  }

  /** The blocks before number `counter` are enough, and the output is their beginning. */
  ghost predicate Filled(hash: Hash, output: array<byte>, key: seq<byte>, info: seq<byte>, counter: nat)
    reads output
    requires counter >= 1
  {
    output.Length <= DIGEST_LEN * (counter - 1) && output[..] <= Blocks(hash, key, info, counter - 1)
  }

  /** Hashes and copies the next block, or the front of it. */
  method WriteBlock(hash: Hash, output: array<byte>, key: seq<byte>, sharedInfo: seq<byte>, counter: nat, pos: nat,
                    n: nat)
    requires IsSha256(hash) && counter >= 1 && pos <= output.Length && n == Front(output.Length - pos)
    requires Filling(hash, output, key, sharedInfo, counter, pos, output.Length - pos)
    modifies output
    ensures pos + n == output.Length ==> Filled(hash, output, key, sharedInfo, counter + 1)
    ensures pos + n < output.Length ==>
              n == DIGEST_LEN && Filling(hash, output, key, sharedInfo, counter + 1, pos + n, output.Length - (pos + n))
  {
    hide Blocks, Block;
    var digest := Block(hash, key, sharedInfo, counter);
    FrontOfNext(hash, key, sharedInfo, counter, n);
    CopyFront(output, pos, digest, n);
    assert output[..output.Length] == output[..];
  }

  /** `ansi_x963_kdf`; absent shared information is the empty sequence. */
  method AnsiX963Kdf(hash: Hash, output: array<byte>, key: seq<byte>, sharedInfo: seq<byte>)
    requires IsSha256(hash)
    modifies output
    ensures IsKdf(hash, key, sharedInfo, output[..])
  {
    assert Blocks(hash, key, sharedInfo, 0) == output[..0];
    hide Blocks, Block, IsKdf, CounterBytes, IsSha256;
    var counter: nat := 1;
    var remainder: nat := output.Length;
    var pos: nat := 0;
    var more := true;
    while more
      invariant counter >= 1 && pos + remainder <= output.Length
      invariant more ==> Filling(hash, output, key, sharedInfo, counter, pos, remainder)
      invariant !more ==> Filled(hash, output, key, sharedInfo, counter)
      decreases more, remainder
    {
      var n := Front(remainder);
      WriteBlock(hash, output, key, sharedInfo, counter, pos, n);
      remainder := remainder - n;
      if n == DIGEST_LEN {
        pos := pos + n;
      }
      counter := counter + 1;
      more := remainder > 0;
    }
    BeginningOfBlocks(hash, key, sharedInfo, output[..], counter - 1);
  }
}
