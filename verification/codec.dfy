/** The primitive encodings of the binary save format: a one-byte tag,
    32-bit integers in little-endian two's complement (the raw bytes of an
    int32_t on the x86 targets the format is written on), and 8-byte
    doubles. A double's bytes are treated as an opaque blob produced by a
    codec the model is parameterised over. */
module Codec {
  import opened Base

  /** The unsigned value of an int32's two's-complement bit pattern. */
  function Unsigned(x: int32): (u: nat)
    ensures u < TWO32
    ensures x >= 0 ==> u == x
    ensures x < 0 ==> u == x + TWO32
  {
    if x >= 0 then x else x + TWO32
  }

  /** The int32 whose two's-complement bit pattern has unsigned value u. */
  function Signed(u: nat): (x: int32)
    requires u < TWO32
    ensures Unsigned(x) == u
  {
    if u < 0x8000_0000 then u else u - TWO32
  }

  /** The four bytes an int32 occupies on the stream, least significant first. */
  function I32(x: int32): (b: seq<byte>)
    ensures |b| == 4
  {
    var u0 := Unsigned(x);
    var u1 := u0 / 0x100;
    var u2 := u1 / 0x100;
    var u3 := u2 / 0x100;
    [(u0 % 0x100) as byte, (u1 % 0x100) as byte, (u2 % 0x100) as byte, u3 as byte]
  }

  /** The int32 held in the first four bytes of a stream. */
  function ReadI32(s: seq<byte>): (x: int32)
    requires |s| >= 4
  {
    var u3 := s[3] as int;
    var u2 := (s[2] as int) + 0x100 * u3;
    assert u2 < 0x1_0000;
    var u1 := (s[1] as int) + 0x100 * u2;
    assert u1 < 0x100_0000;
    var u0 := (s[0] as int) + 0x100 * u1;
    Signed(u0)
  }

  /** Reading back what I32 wrote gives the same integer, whatever follows. */
  lemma I32RoundTrip(x: int32, rest: seq<byte>)
    ensures ReadI32(I32(x) + rest) == x
  {
    var u0 := Unsigned(x);
    var u1 := u0 / 0x100;
    var u2 := u1 / 0x100;
    var u3 := u2 / 0x100;
    var s := I32(x) + rest;
    assert s[3] as int == u3;
    assert (s[2] as int) + 0x100 * u3 == u2;
    assert (s[1] as int) + 0x100 * u2 == u1;
    assert (s[0] as int) + 0x100 * u1 == u0;
  }

  /** A value read from the front of a stream, and what follows it. */
  datatype Parsed<T> = Parsed(value: T, rest: seq<byte>)

  /** How a double is laid out in 8 bytes and read back. std::exp and the
      IEEE-754 layout are outside the model, so the codec is a parameter. */
  datatype DoubleCodec = DoubleCodec(encode: real -> seq<byte>, decode: seq<byte> -> real)

  type F64Codec = c: DoubleCodec | forall x :: |c.encode(x)| == 8
    witness DoubleCodec((x: real) => [0, 0, 0, 0, 0, 0, 0, 0], (b: seq<byte>) => 0.0)

  /** x is a value the codec reproduces exactly (a representable double). */
  predicate Exact(codec: F64Codec, x: real)
  {
    codec.decode(codec.encode(x)) == x
  }

  /** The bytes of a run of doubles, written in order. */
  function F64s(codec: F64Codec, xs: seq<real>): (b: seq<byte>)
    ensures |b| == 8 * |xs|
  {
    if |xs| == 0 then [] else F64s(codec, xs[..|xs| - 1]) + codec.encode(xs[|xs| - 1])
  }

  /** The n doubles held in the first 8n bytes of a stream. */
  function ReadF64s(codec: F64Codec, s: seq<byte>, n: nat): (xs: seq<real>)
    requires |s| >= 8 * n
    ensures |xs| == n
  {
    if n == 0 then [] else ReadF64s(codec, s, n - 1) + [codec.decode(s[8 * (n - 1)..8 * n])]
  }

  lemma {:induction false} ReadF64sPrefix(codec: F64Codec, s: seq<byte>, t: seq<byte>, n: nat)
    requires |s| >= 8 * n && |t| >= 8 * n && s[..8 * n] == t[..8 * n]
    ensures ReadF64s(codec, s, n) == ReadF64s(codec, t, n)
  {
    if n > 0 {
      ReadF64sPrefix(codec, s, t, n - 1);
      assert s[8 * (n - 1)..8 * n] == s[..8 * n][8 * (n - 1)..];
      assert t[8 * (n - 1)..8 * n] == t[..8 * n][8 * (n - 1)..];
    }
  }

  /** Reading back what F64s wrote gives the same values when every one of
      them is representable, whatever follows on the stream. */
  lemma {:induction false} F64sRoundTrip(codec: F64Codec, xs: seq<real>, rest: seq<byte>)
    requires forall k :: 0 <= k < |xs| ==> Exact(codec, xs[k])
    ensures ReadF64s(codec, F64s(codec, xs) + rest, |xs|) == xs
  {
    if |xs| > 0 {
      var n := |xs|;
      var front := xs[..n - 1];
      var s := F64s(codec, xs) + rest;
      var t := F64s(codec, front) + (codec.encode(xs[n - 1]) + rest);
      assert s == t;
      F64sRoundTrip(codec, front, codec.encode(xs[n - 1]) + rest);
      assert s[8 * (n - 1)..8 * n] == codec.encode(xs[n - 1]);
      assert Exact(codec, xs[n - 1]);
    }
  }
}
