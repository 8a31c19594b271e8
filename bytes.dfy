/** Fixed-width integers and their little-endian byte encodings.

    The record structs are `repr(C)` and read in the machine's native byte
    order; this model fixes that order to little-endian. Unsigned fields are
    stored as plain base-256 digits, signed fields in two's complement. */
module Bytes {

  /** One byte of a buffer. */
  type Byte = x: int | 0 <= x < 0x100

  type UInt8 = Byte
  type UInt16 = x: int | 0 <= x < 0x1_0000
  type UInt32 = x: int | 0 <= x < 0x1_0000_0000
  type UInt64 = x: int | 0 <= x < 0x1_0000_0000_0000_0000
  type Int8 = x: int | -0x80 <= x < 0x80
  type Int16 = x: int | -0x8000 <= x < 0x8000
  type Int32 = x: int | -0x8000_0000 <= x < 0x8000_0000
  type Int64 = x: int | -0x8000_0000_0000_0000 <= x < 0x8000_0000_0000_0000

  /** A C `char`, kept as its raw byte: whether the platform's `c_char` is
      signed does not change the bits stored in a record. */
  type CChar = Byte

  /** 256^n, the number of values n bytes can hold. */
  function Pow256(n: nat): (p: nat)
    ensures p >= 1
    ensures n > 0 ==> p % 2 == 0
  {
    if n == 0 then 1 else 256 * Pow256(n - 1)
  }

  /** The unsigned value of a little-endian byte string. */
  function DecodeLE(b: seq<Byte>): (v: nat)
    ensures v < Pow256(|b|)
  {
    if |b| == 0 then 0
    else
      var rest := DecodeLE(b[1..]);
      assert b[0] + 256 * rest <= 255 + 256 * (Pow256(|b| - 1) - 1);
      b[0] + 256 * rest
  }

  /** The n-byte little-endian encoding of an unsigned value that fits in n bytes. */
  function EncodeLE(v: nat, n: nat): (b: seq<Byte>)
    requires v < Pow256(n)
    ensures |b| == n
  {
    if n == 0 then [] else [v % 256] + EncodeLE(v / 256, n - 1)
  }

  lemma {:induction false} DecodeEncodeLE(v: nat, n: nat)
    requires v < Pow256(n)
    ensures DecodeLE(EncodeLE(v, n)) == v
  {
    if n > 0 {
      var b := EncodeLE(v, n);
      assert b[1..] == EncodeLE(v / 256, n - 1);
      DecodeEncodeLE(v / 256, n - 1);
    }
  }

  lemma {:induction false} EncodeDecodeLE(b: seq<Byte>)
    ensures EncodeLE(DecodeLE(b), |b|) == b
  {
    if |b| > 0 {
      var v := DecodeLE(b);
      assert v % 256 == b[0] && v / 256 == DecodeLE(b[1..]);
      EncodeDecodeLE(b[1..]);
    }
  }

  /** 2^(8n-1): the signed n-byte values are those in [-SignedLimit(n), SignedLimit(n)). */
  function SignedLimit(n: nat): (m: int)
  {
    Pow256(n) / 2
  }

  /** Two's complement: the unsigned n-byte pattern that stores signed v. */
  function ToTwos(v: int, n: nat): (u: nat)
    requires n > 0 && -SignedLimit(n) <= v < SignedLimit(n)
    ensures u < Pow256(n)
    ensures (u < SignedLimit(n)) == (v >= 0)
  {
    if v < 0 then v + Pow256(n) else v
  }

  /** Two's complement: the signed value stored in the unsigned n-byte pattern u. */
  function FromTwos(u: nat, n: nat): (v: int)
    requires n > 0 && u < Pow256(n)
    ensures -SignedLimit(n) <= v < SignedLimit(n)
    ensures (v >= 0) == (u < SignedLimit(n))
  {
    if u >= SignedLimit(n) then u - Pow256(n) else u
  }

  lemma {:induction false} TwosRoundTrip(v: int, n: nat)
    requires n > 0 && -SignedLimit(n) <= v < SignedLimit(n)
    ensures FromTwos(ToTwos(v, n), n) == v
  {
  }

  lemma {:induction false} TwosRoundTripUnsigned(u: nat, n: nat)
    requires n > 0 && u < Pow256(n)
    ensures ToTwos(FromTwos(u, n), n) == u
  {
  }
}
