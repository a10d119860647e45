/**
 * Byte-level encodings the wallet relies on: the `hex` crate's encoder and
 * decoder, the little-endian 32-byte encoding of a Jubjub scalar
 * (`jubjub::Fr::to_bytes` / `from_bytes`), and byte-order reversal.
 */
module Bytes {
  import opened Wrappers

  type byte = x: int | 0 <= x < 256

  // ---------------------------------------------------------------------
  // Hexadecimal text

  /** The lower-case digit `hex::encode` writes for a nibble. */
  function HexDigit(n: int): char
    requires 0 <= n < 16
  {
    if n < 10 then (48 + n) as char else (87 + n) as char
  }

  /** The nibble a digit stands for; `hex::decode` accepts both cases. */
  function HexValue(c: char): (r: Option<int>)
    ensures r.Some? ==> 0 <= r.value < 16
    ensures r.Some? <==> ('0' <= c <= '9' || 'a' <= c <= 'f' || 'A' <= c <= 'F')
  {
    if '0' <= c <= '9' then Some(c as int - '0' as int)
    else if 'a' <= c <= 'f' then Some(c as int - 'a' as int + 10)
    else if 'A' <= c <= 'F' then Some(c as int - 'A' as int + 10)
    else None
  }

  predicate IsLowerHexDigit(c: char) {
    '0' <= c <= '9' || 'a' <= c <= 'f'
  }

  /** `hex::encode`: two lower-case digits per byte, high nibble first. */
  function HexEncode(b: seq<byte>): (s: string)
    ensures |s| == 2 * |b|
    ensures forall i :: 0 <= i < |s| ==> IsLowerHexDigit(s[i])
  {
    if b == [] then "" else [HexDigit(b[0] / 16), HexDigit(b[0] % 16)] + HexEncode(b[1..])
  }

  /** `hex::decode`: fails on odd length or on any non-hex character. */
  function HexDecode(s: string): (r: Option<seq<byte>>)
    ensures r.Some? ==> 2 * |r.value| == |s|
    decreases |s|
  {
    if |s| % 2 == 1 then None
    else if s == [] then Some([])
    else match (HexValue(s[0]), HexValue(s[1]), HexDecode(s[2..]))
      case (Some(hi), Some(lo), Some(rest)) => Some([hi * 16 + lo] + rest)
      case _ => None
  }

  /** `hex::decode_to_slice` into an `n`-byte buffer: the text must hold exactly `n` bytes. */
  function DecodeToSlice(s: string, n: nat): (r: Option<seq<byte>>)
    ensures r.Some? ==> |r.value| == n
    ensures r.Some? <==> |s| == 2 * n && HexDecode(s).Some?
    ensures r.Some? ==> r == HexDecode(s)
  {
    if |s| != 2 * n then None else HexDecode(s)
  }

  /** Decoding what was encoded gives the bytes back. */
  lemma {:induction false} HexRoundTrip(b: seq<byte>)
    ensures HexDecode(HexEncode(b)) == Some(b)
  {
    if b != [] {
      var s := HexEncode(b);
      assert s[2..] == HexEncode(b[1..]);
      HexRoundTrip(b[1..]);
      assert HexValue(s[0]) == Some(b[0] / 16);
      assert HexValue(s[1]) == Some(b[0] % 16);
      assert [b[0]] + b[1..] == b;
    }
  }

  /** `hex::decode` succeeds exactly on even-length text made only of hex digits (either case). */
  lemma {:induction false} HexDecodeAccepts(s: string)
    ensures HexDecode(s).Some? <==> |s| % 2 == 0 && forall i :: 0 <= i < |s| ==> HexValue(s[i]).Some?
    decreases |s|
  {
    if |s| % 2 == 0 && s != [] {
      HexDecodeAccepts(s[2..]);
      assert forall i :: 2 <= i < |s| ==> s[i] == s[2..][i - 2];
    }
  }

  lemma HexDigitOfValue(c: char)
    requires IsLowerHexDigit(c)
    ensures HexValue(c).Some? && HexDigit(HexValue(c).value) == c
  {
  }

  /** Conversely, lower-case hex text of even length decodes, and re-encodes to itself. */
  lemma {:induction false} HexDecodeRoundTrip(s: string)
    requires |s| % 2 == 0
    requires forall i :: 0 <= i < |s| ==> IsLowerHexDigit(s[i])
    ensures HexDecode(s).Some? && HexEncode(HexDecode(s).value) == s
    decreases |s|
  {
    if s != [] {
      HexDecodeRoundTrip(s[2..]);
      HexDigitOfValue(s[0]);
      HexDigitOfValue(s[1]);
      var hi, lo := HexValue(s[0]).value, HexValue(s[1]).value;
      var rest := HexDecode(s[2..]).value;
      var x: byte := hi * 16 + lo;
      assert x / 16 == hi && x % 16 == lo;
      var b := [x] + rest;
      assert HexDecode(s) == Some(b);
      assert b[1..] == rest;
      assert HexEncode(b) == [s[0], s[1]] + s[2..];
      assert [s[0], s[1]] + s[2..] == s;
    }
  }

  // ---------------------------------------------------------------------
  // Little-endian integers and Jubjub scalars

  function Pow256(n: nat): (p: nat)
    ensures p > 0
  {
    if n == 0 then 1 else 256 * Pow256(n - 1)
  }

  /** The `n`-byte little-endian encoding of `x` (of `x` modulo 256^n). */
  function LeBytes(x: nat, n: nat): (b: seq<byte>)
    ensures |b| == n
  {
    if n == 0 then [] else [x % 256] + LeBytes(x / 256, n - 1)
  }

  /** The number a little-endian byte string denotes. */
  function LeValue(b: seq<byte>): (v: nat)
    ensures v < Pow256(|b|)
  {
    if b == [] then 0 else b[0] + 256 * LeValue(b[1..])
  }

  lemma {:induction false} LeRoundTrip(x: nat, n: nat)
    requires x < Pow256(n)
    ensures LeValue(LeBytes(x, n)) == x
  {
    if n > 0 {
      LeRoundTrip(x / 256, n - 1);
      assert LeBytes(x, n)[1..] == LeBytes(x / 256, n - 1);
    }
  }

  lemma {:induction false} Pow256Add(a: nat, b: nat)
    ensures Pow256(a + b) == Pow256(a) * Pow256(b)
  {
    if a > 0 {
      Pow256Add(a - 1, b);
      assert Pow256(a + b) == 256 * Pow256(a - 1 + b);
    }
  }

  /** The order of the Jubjub scalar field. */
  const FR_MODULUS: nat := 0x0e7db4ea6533afa906673b0101343b00a6682093ccc81082d0970e5ed6f72cb7

  /** An element of the Jubjub scalar field `jubjub::Fr`, in canonical form. */
  type Scalar = x: nat | x < FR_MODULUS

  lemma ScalarFitsIn32Bytes(s: Scalar)
    ensures s < Pow256(32)
  {
    Pow256Add(1, 1);
    Pow256Add(2, 2);
    Pow256Add(4, 4);
    Pow256Add(8, 8);
    Pow256Add(16, 16);
  }

  /** `Fr::to_bytes`: the canonical 32-byte little-endian encoding. */
  function ScalarToBytes(s: Scalar): (b: seq<byte>)
    ensures |b| == 32
  {
    LeBytes(s, 32)
  }

  /** `Fr::from_bytes`: accepts exactly the canonical encodings. */
  function ScalarFromBytes(b: seq<byte>): (r: Option<Scalar>)
    requires |b| == 32
    ensures r.Some? <==> LeValue(b) < FR_MODULUS
    ensures r.Some? ==> ScalarToBytes(r.value) == b
  {
    var v := LeValue(b);
    if v < FR_MODULUS then
      LeBytesOfValue(b);
      Some(v)
    else None
  }

  lemma {:induction false} LeBytesOfValue(b: seq<byte>)
    ensures LeBytes(LeValue(b), |b|) == b
  {
    if b != [] {
      LeBytesOfValue(b[1..]);
      var v := LeValue(b);
      assert v % 256 == b[0] && v / 256 == LeValue(b[1..]);
      assert [b[0]] + b[1..] == b;
    }
  }

  /** Decoding a scalar's encoding always succeeds and gives the scalar back. */
  lemma ScalarRoundTrip(s: Scalar)
    ensures ScalarFromBytes(ScalarToBytes(s)) == Some(s)
  {
    ScalarFitsIn32Bytes(s);
    LeRoundTrip(s, 32);
  }

  // ---------------------------------------------------------------------
  // Byte order

  /** The sequence read back to front. */
  function Reversed<T>(s: seq<T>): (r: seq<T>)
    ensures |r| == |s|
  {
    seq(|s|, i requires 0 <= i < |s| => s[|s| - 1 - i])
  }

  lemma ReversedTwice<T>(s: seq<T>)
    ensures Reversed(Reversed(s)) == s
  {
  }
}
