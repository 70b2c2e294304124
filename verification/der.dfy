/** Decoding of a DER signature into two big-endian halves of fixed width. */
module Der {
  import opened Wrappers
  import opened Bytes

  const VALUE_MAX_LEN: nat := 0x7F
  const TAG_INTEGER: byte := 0x02
  const TAG_SEQUENCE: byte := 0x30

  datatype Error = InvalidInput

  // ----- What is computed -----------------------------------------------------

  function StripZeros(s: seq<byte>): (r: seq<byte>)
    ensures |r| <= |s|
    ensures r != [] ==> r[0] != 0
  {
    if s != [] && s[0] == 0 then StripZeros(s[1..]) else s
  }

  /** `asn1_uint_decode`: the padded value, and how many bytes were read. */
  function DecodeUint(asn1: seq<byte>, width: nat): (result: Result<(seq<byte>, nat), Error>)
    ensures result.Ok? ==> |result.value.0| == width && 2 <= result.value.1 <= |asn1|
  {
    if |asn1| < 3 then Err(InvalidInput)
    else if asn1[0] != TAG_INTEGER then Err(InvalidInput)
    else if asn1[1] > VALUE_MAX_LEN then Err(InvalidInput)
    else if asn1[1] > |asn1| - 2 then Err(InvalidInput)
    else
      var v := StripZeros(asn1[2..2 + asn1[1]]);
      if |v| > width then Err(InvalidInput)
      else Ok((Zeros(width - |v|) + v, 2 + asn1[1]))
  }

  /** `asn1_to_ocrypto_p256`. */
  function DecodeSignature(asn1: seq<byte>, rsLen: nat): Result<seq<byte>, Error> {
    if |asn1| < 6 then Err(InvalidInput)
    else if asn1[0] != TAG_SEQUENCE then Err(InvalidInput)
    else if asn1[1] > VALUE_MAX_LEN then Err(InvalidInput)
    else if rsLen % 2 != 0 then Err(InvalidInput)
    else
      match DecodeUint(asn1[2..], rsLen / 2)
      case Err(e) => Err(e)
      case Ok((r, n)) =>
        match DecodeUint(asn1[2 + n..], rsLen / 2)
        case Err(e) => Err(e)
        case Ok((s, _)) => Ok(r + s)
  }

  // ----- What it means ----------------------------------------------------------

  function Pow256(n: nat): nat {
    if n == 0 then 1 else 256 * Pow256(n - 1)
  }

  lemma {:induction false} FromBeBound(s: seq<byte>)
    ensures FromBe(s) < Pow256(|s|)
  {
    if s != [] {
      FromBeBound(s[..|s| - 1]);
    }
  }

  lemma {:induction false} FromBeLead(s: seq<byte>)
    requires s != [] && s[0] != 0
    ensures FromBe(s) >= Pow256(|s| - 1)
  {
    if |s| > 1 {
      FromBeLead(s[..|s| - 1]);
    }
  }

  lemma {:induction false} FromBeZeros(n: nat, s: seq<byte>)
    ensures FromBe(Zeros(n) + s) == FromBe(s)
    decreases n + |s|
  {
    if s != [] {
      assert (Zeros(n) + s)[..n + |s| - 1] == Zeros(n) + s[..|s| - 1];
      FromBeZeros(n, s[..|s| - 1]);
    } else if n > 0 {
      assert (Zeros(n) + s)[..n - 1] == Zeros(n - 1) + [];
      FromBeZeros(n - 1, []);
    }
  }

  lemma {:induction false} FromBeStripped(s: seq<byte>)
    ensures FromBe(StripZeros(s)) == FromBe(s)
  {
    if s != [] && s[0] == 0 {
      FromBeStripped(s[1..]);
      FromBeZeros(1, s[1..]);
      assert Zeros(1) + s[1..] == s;
    }
  }

  /** A number has one representation of each width. */
  lemma {:induction false} FromBeInjective(a: seq<byte>, b: seq<byte>)
    requires |a| == |b| && FromBe(a) == FromBe(b)
    ensures a == b
  {
    if a != [] {
      FromBeInjective(a[..|a| - 1], b[..|b| - 1]);
      assert a == a[..|a| - 1] + [a[|a| - 1]] && b == b[..|b| - 1] + [b[|b| - 1]];
    }
  }

  lemma {:induction false} Pow256Grows(a: nat, b: nat)
    requires a <= b
    ensures Pow256(a) <= Pow256(b)
  {
    if a < b {
      Pow256Grows(a, b - 1);
    }
  }

  /** The stripped contents fit a width exactly if the number does. */
  lemma FitsIffSmall(s: seq<byte>, width: nat)
    ensures |StripZeros(s)| <= width <==> FromBe(s) < Pow256(width)
  {
    var v := StripZeros(s);
    FromBeStripped(s);
    if |v| <= width {
      FromBeBound(v);
      Pow256Grows(|v|, width);
    } else {
      FromBeLead(v);
      Pow256Grows(width, |v| - 1);
    }
  }

  /** The contents of a well-formed INTEGER at the front of the input. */
  predicate IsInteger(asn1: seq<byte>) {
    |asn1| >= 3 && asn1[0] == TAG_INTEGER && asn1[1] <= VALUE_MAX_LEN && asn1[1] <= |asn1| - 2
  }

  function Contents(asn1: seq<byte>): seq<byte>
    requires IsInteger(asn1)
  {
    asn1[2..2 + asn1[1]]
  }

  /**
   An INTEGER is accepted exactly if its contents, read as unsigned, are a number
   that fits the width; the result has that value in exactly that width.
   */
  lemma UintDecoded(asn1: seq<byte>, width: nat)
    ensures DecodeUint(asn1, width).Ok? <==> IsInteger(asn1) && FromBe(Contents(asn1)) < Pow256(width)
    ensures DecodeUint(asn1, width).Ok? ==>
              var (v, n) := DecodeUint(asn1, width).value;
              |v| == width && FromBe(v) == FromBe(Contents(asn1)) && n == 2 + asn1[1]
  {
    if IsInteger(asn1) {
      var c := Contents(asn1);
      FitsIffSmall(c, width);
      FromBeStripped(c);
      var v := StripZeros(c);
      if |v| <= width {
        FromBeZeros(width - |v|, v);
      }
    }
  }

  /** Every accepted signature: two INTEGERs in a row, each half with the value of its one. */
  lemma SignatureDecoded(asn1: seq<byte>, rsLen: nat)
    requires DecodeSignature(asn1, rsLen).Ok?
    ensures var rs := DecodeSignature(asn1, rsLen).value;
            var first := asn1[2..];
            && |rs| == rsLen && IsInteger(first)
            && var second := first[2 + first[1]..];
            && IsInteger(second)
            && FromBe(rs[..rsLen / 2]) == FromBe(Contents(first))
            && FromBe(rs[rsLen / 2..]) == FromBe(Contents(second))
  {
    var first := asn1[2..];
    UintDecoded(first, rsLen / 2);
    var (r, n) := DecodeUint(first, rsLen / 2).value;
    var second := first[n..];
    assert second == asn1[2 + n..];
    UintDecoded(second, rsLen / 2);
    var s := DecodeUint(second, rsLen / 2).value.0;
    assert (r + s)[..rsLen / 2] == r && (r + s)[rsLen / 2..] == s;
  }

  /** An INTEGER in the input whose contents fit the width. */
  predicate HasUint(asn1: seq<byte>, width: nat) {
    IsInteger(asn1) && FromBe(Contents(asn1)) < Pow256(width)
  }

  /**
   A signature is accepted exactly if it is a SEQUENCE with a length in one byte, and two
   INTEGERs follow, each a number that fits half of an even result.
   */
  lemma SignatureAcceptedIff(asn1: seq<byte>, rsLen: nat)
    ensures DecodeSignature(asn1, rsLen).Ok? <==>
              && |asn1| >= 6 && asn1[0] == 0x30 && asn1[1] < 0x80 && rsLen % 2 == 0
              && HasUint(asn1[2..], rsLen / 2) && HasUint(asn1[2..][2 + asn1[3]..], rsLen / 2)
  {
    if |asn1| >= 6 {
      UintDecoded(asn1[2..], rsLen / 2);
      if DecodeUint(asn1[2..], rsLen / 2).Ok? {
        var n := DecodeUint(asn1[2..], rsLen / 2).value.1;
        assert asn1[2..][n..] == asn1[2 + n..];
        UintDecoded(asn1[2 + n..], rsLen / 2);
      }
      hide DecodeUint, Pow256, FromBe;
    }
  }

  // ----- Encoding ----------------------------------------------------------------

  /** The contents of the DER encoding of an unsigned number: minimal, and not negative. */
  function EncodedContents(b: seq<byte>): (c: seq<byte>)
    ensures 0 < |c| <= |b| + 1
  {
    var v := StripZeros(b);
    if v == [] || v[0] >= 0x80 then [0] + v else v
  }

  /** Section 8.3 of ITU-T X.690. */
  function EncodeUint(b: seq<byte>): seq<byte>
    requires |EncodedContents(b)| <= VALUE_MAX_LEN
  {
    [TAG_INTEGER, |EncodedContents(b)|] + EncodedContents(b)
  }

  /** Ecdsa-Sig-Value, section 2.2.3 of RFC 3279, with a length in one byte. */
  function EncodeSignature(r: seq<byte>, s: seq<byte>): seq<byte>
    requires |EncodedContents(r)| + |EncodedContents(s)| + 4 <= VALUE_MAX_LEN
  {
    [TAG_SEQUENCE, |EncodedContents(r)| + |EncodedContents(s)| + 4] + EncodeUint(r) + EncodeUint(s)
  }

  lemma ContentsValue(b: seq<byte>)
    ensures FromBe(EncodedContents(b)) == FromBe(b)
  {
    FromBeStripped(b);
    FromBeZeros(1, StripZeros(b));
    assert Zeros(1) == [0];
  }

  /** The contents are as short as section 8.3 of ITU-T X.690 wants them, and not negative. */
  lemma ContentsMinimal(b: seq<byte>)
    ensures EncodedContents(b)[0] < 0x80
    ensures |EncodedContents(b)| >= 2 && EncodedContents(b)[0] == 0 ==> EncodedContents(b)[1] >= 0x80
  {
  }

  /** An encoded number, whatever follows, is decoded to itself. */
  lemma UintRoundTrip(b: seq<byte>, rest: seq<byte>)
    requires |EncodedContents(b)| <= VALUE_MAX_LEN
    ensures DecodeUint(EncodeUint(b) + rest, |b|) == Ok((b, |EncodeUint(b)|))
  {
    var asn1 := EncodeUint(b) + rest;
    assert Contents(asn1) == EncodedContents(b);
    ContentsValue(b);
    FromBeBound(b);
    UintDecoded(asn1, |b|);
    FromBeInjective(DecodeUint(asn1, |b|).value.0, b);
  }

  /** The parts of a sequence that was put together. */
  lemma Parts(all: seq<byte>, head: seq<byte>, a: seq<byte>, b: seq<byte>, rest: seq<byte>)
    requires all == head + a + b + rest && |head| == 2
    ensures |all| == 2 + |a| + |b| + |rest| && all[0] == head[0] && all[1] == head[1]
    ensures all[2..] == a + (b + rest)
    ensures all[2 + |a|..] == b + rest
  {
  }

  lemma TwoIntegers(asn1: seq<byte>, rsLen: nat, r: seq<byte>, n: nat, s: seq<byte>, m: nat)
    requires |asn1| >= 6 && asn1[0] == TAG_SEQUENCE && asn1[1] <= VALUE_MAX_LEN && rsLen % 2 == 0
    requires 2 + n <= |asn1| && DecodeUint(asn1[2..], rsLen / 2) == Ok((r, n))
    requires DecodeUint(asn1[2 + n..], rsLen / 2) == Ok((s, m))
    ensures DecodeSignature(asn1, rsLen) == Ok(r + s)
  {
    hide DecodeUint;
  }

  /** Decoding the encoding of two numbers of one width, trailing padding allowed, gives their halves. */
  lemma SignatureRoundTrip(r: seq<byte>, s: seq<byte>, padding: seq<byte>)
    requires |r| == |s| && |EncodedContents(r)| + |EncodedContents(s)| + 4 <= VALUE_MAX_LEN
    ensures DecodeSignature(EncodeSignature(r, s) + padding, 2 * |r|) == Ok(r + s)
  {
    var asn1 := EncodeSignature(r, s) + padding;
    EncodedParts(r, s, padding);
    UintRoundTrip(r, EncodeUint(s) + padding);
    UintRoundTrip(s, padding);
    hide *;
    TwoIntegers(asn1, 2 * |r|, r, |EncodeUint(r)|, s, |EncodeUint(s)|);
  }

  lemma EncodedParts(r: seq<byte>, s: seq<byte>, padding: seq<byte>)
    requires |EncodedContents(r)| + |EncodedContents(s)| + 4 <= VALUE_MAX_LEN
    ensures var asn1 := EncodeSignature(r, s) + padding;
            && |asn1| >= 2 + |EncodeUint(r)| + |EncodeUint(s)| && |EncodeUint(r)| >= 3 && |EncodeUint(s)| >= 3
            && asn1[0] == TAG_SEQUENCE && asn1[1] <= VALUE_MAX_LEN
            && asn1[2..] == EncodeUint(r) + (EncodeUint(s) + padding)
            && asn1[2 + |EncodeUint(r)|..] == EncodeUint(s) + padding
  {
    var head: seq<byte> := [TAG_SEQUENCE, |EncodedContents(r)| + |EncodedContents(s)| + 4];
    assert |EncodeUint(r)| >= 3 && |EncodeUint(s)| >= 3 && |head| == 2 && head[0] == TAG_SEQUENCE
           && head[1] <= VALUE_MAX_LEN;
    assert EncodeSignature(r, s) == head + EncodeUint(r) + EncodeUint(s);
    hide *;
    Parts(EncodeSignature(r, s) + padding, head, EncodeUint(r), EncodeUint(s), padding);
  }

  // ----- The decoders ---------------------------------------------------------------

  /** Zeros, then the value, in a field of the given width. */
  method CopyPadded(output: array<byte>, at: nat, width: nat, v: seq<byte>)
    requires at + width <= output.Length && |v| <= width
    modifies output
    ensures output[..] == old(output[..at]) + (Zeros(width - |v|) + v) + old(output[at + width..])
  {
    var pad := width - |v|;
    forall i | 0 <= i < width {
      output[at + i] := if i < pad then 0 else v[i - pad];
    }
    assert output[at..at + width] == Zeros(pad) + v;
    assert output[..] == output[..at] + output[at..at + width] + output[at + width..];
  }

  /** `asn1_uint_decode`, into `output[at..at + width]`. */
  method Asn1UintDecode(asn1: seq<byte>, output: array<byte>, at: nat, width: nat) returns (ret: Result<nat, Error>)
    requires at + width <= output.Length
    modifies output
    ensures match DecodeUint(asn1, width)
            case Err(e) => ret == Err(e) && output[..] == old(output[..])
            case Ok((v, n)) => ret == Ok(n) && output[..] == old(output[..at]) + v + old(output[at + width..])
  {
    if |asn1| < 3 || asn1[0] != TAG_INTEGER || asn1[1] > VALUE_MAX_LEN || asn1[1] > |asn1| - 2 {
      return Err(InvalidInput);
    }
    var uintLen: nat := asn1[1];
    var pos: nat := 2;
    ghost var contents := asn1[2..2 + uintLen];
    while uintLen > 0 && asn1[pos] == 0
      invariant pos + uintLen == 2 + asn1[1] <= |asn1|
      invariant StripZeros(asn1[pos..pos + uintLen]) == StripZeros(contents)
    {
      assert asn1[pos..pos + uintLen][1..] == asn1[pos + 1..pos + uintLen];
      uintLen := uintLen - 1;
      pos := pos + 1;
    }
    assert asn1[pos..pos + uintLen] == StripZeros(contents);
    if uintLen > width {
      return Err(InvalidInput);
    }
    CopyPadded(output, at, width, asn1[pos..pos + uintLen]);
    return Ok(2 + asn1[1]);
  }

  /** `asn1_to_ocrypto_p256`; after an error in the second number the first half is overwritten. */
  method Asn1ToOcryptoP256(asn1: seq<byte>, rs: array<byte>) returns (error: Option<Error>)
    modifies rs
    ensures match DecodeSignature(asn1, rs.Length)
            case Err(e) => error == Some(e) && rs[rs.Length / 2..] == old(rs[rs.Length / 2..])
            case Ok(value) => error == None && rs[..] == value
  {
    hide DecodeUint;
    if |asn1| < 6 || asn1[0] != TAG_SEQUENCE || asn1[1] > VALUE_MAX_LEN || rs.Length % 2 != 0 {
      return Some(InvalidInput);
    }
    var size := rs.Length / 2;
    var first := Asn1UintDecode(asn1[2..], rs, 0, size);
    if first.Err? {
      return Some(first.error);
    }
    ghost var r := DecodeUint(asn1[2..], size).value.0;
    assert rs[..size] == r;
    var second := Asn1UintDecode(asn1[2 + first.value..], rs, size, size);
    if second.Err? {
      return Some(second.error);
    }
    return None;
  }
}
