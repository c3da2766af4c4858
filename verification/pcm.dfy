/** Kotlin's signed integer types as used on 16-bit PCM audio, the little-endian
    sample decode, the normalisation to [-1, 1) and the 4-byte float encoding that
    `ByteBuffer.putFloat` writes. */
module Pcm {

  /** Kotlin Byte: a signed 8-bit value. */
  type Byte = x: int | -128 <= x < 128

  /** Kotlin Short: a signed 16-bit value. */
  type Short = x: int | -32768 <= x < 32768

  /** The four bytes `putFloat` writes for one float, in the buffer's byte order. */
  type Word = s: seq<Byte> | |s| == 4
    witness [0, 0, 0, 0]

  /** `b.toInt() and 0xFF`: the byte read as unsigned. */
  function Unsigned(b: Byte): (u: nat)
    ensures u < 256 && (u - b) % 256 == 0
  {
    if b < 0 then b + 256 else b
  }

  /** `Int.toByte()`: keep the low 8 bits and read them as signed. */
  function ToByte(x: int): (b: Byte)
    ensures (b - x) % 256 == 0
  {
    var m := x % 256;
    if m >= 128 then m - 256 else m
  }

  /** An unsigned byte value survives `toByte` and `and 0xFF`. */
  lemma UnsignedToByte(u: int)
    requires 0 <= u < 256
    ensures Unsigned(ToByte(u)) == u
  {
  }

  /** A value already in the Byte range survives `and 0xFF` followed by `toByte`. */
  lemma ToByteOfByte(x: int)
    requires -128 <= x < 128
    ensures ToByte(x % 256) == x
  {
  }

  /** `((hi.toInt() shl 8) or (lo.toInt() and 0xFF)).toShort()`. The shifted high
      byte has its low 8 bits clear, so the `or` adds the unsigned low byte; the sum
      already lies in the Short range, so `toShort` keeps it. */
  function Int16LE(lo: Byte, hi: Byte): Short
  {
    hi * 256 + Unsigned(lo)
  }

  /** The low byte of a decoded sample is its remainder modulo 256, read as
      unsigned; the high byte is its quotient. */
  lemma Int16LEParts(lo: Byte, hi: Byte)
    ensures Int16LE(lo, hi) % 256 == Unsigned(lo)
    ensures Int16LE(lo, hi) / 256 == hi
  {
  }

  /** Decoding is injective: different byte pairs give different samples. */
  lemma Int16LEInjective(lo: Byte, hi: Byte, lo': Byte, hi': Byte)
    requires Int16LE(lo, hi) == Int16LE(lo', hi')
    ensures lo == lo' && hi == hi'
  {
    Int16LEParts(lo, hi);
    Int16LEParts(lo', hi');
    assert Unsigned(lo) == Unsigned(lo');
  }

  /** Every sample has a byte pair that decodes to it. */
  lemma Int16LESurjective(s: Short)
    ensures Int16LE(ToByte(s), ToByte(s / 256)) == s
  {
    assert ToByte(s) == s % 256 || ToByte(s) == s % 256 - 256;
  }

  /** `sample / 32768f`: a sample scaled to [-1, 1). */
  function Normalize(s: Short): (x: real)
    ensures -1.0 <= x < 1.0
    ensures x * 32768.0 == s as real
  {
    s as real / 32768.0
  }

  /** The first n samples of a 16-bit little-endian byte stream, sample k from
      bytes 2k (low) and 2k + 1 (high). */
  function Samples(b: seq<Byte>, n: nat): (r: seq<Short>)
    requires 2 * n <= |b|
    ensures |r| == n
    ensures forall k :: 0 <= k < n ==> r[k] == Int16LE(b[2 * k], b[2 * k + 1])
  {
    seq(n, k requires 0 <= k < n => Int16LE(b[2 * k], b[2 * k + 1]))
  }

  /** One more sample is the next byte pair decoded. */
  lemma SamplesSnoc(b: seq<Byte>, n: nat)
    requires 2 * n + 2 <= |b|
    ensures Samples(b, n + 1) == Samples(b, n) + [Int16LE(b[2 * n], b[2 * n + 1])]
  {
  }

  /** Every sample scaled to [-1, 1), in order. */
  function Normalized(samples: seq<Short>): (r: seq<real>)
    ensures |r| == |samples|
    ensures forall k :: 0 <= k < |r| ==> r[k] == Normalize(samples[k]) && -1.0 <= r[k] < 1.0
  {
    seq(|samples|, k requires 0 <= k < |samples| => Normalize(samples[k]))
  }

  /** The bytes of a run of `putFloat` calls, first value first. */
  function EncodeFloats(xs: seq<real>, encode: real -> Word): (r: seq<Byte>)
    ensures |r| == 4 * |xs|
  {
    if xs == [] then [] else EncodeFloats(xs[..|xs| - 1], encode) + encode(xs[|xs| - 1])
  }

  /** Writing one more value appends its word. */
  lemma EncodeFloatsSnoc(xs: seq<real>, x: real, encode: real -> Word)
    ensures EncodeFloats(xs + [x], encode) == EncodeFloats(xs, encode) + encode(x)
  {
    assert (xs + [x])[..|xs|] == xs;
  }

  /** Reading the floats back, four bytes at a time. */
  function DecodeFloats(b: seq<Byte>, decode: Word -> real): (r: seq<real>)
    requires |b| % 4 == 0
    ensures |r| == |b| / 4
  {
    if b == [] then [] else DecodeFloats(b[..|b| - 4], decode) + [decode(b[|b| - 4..])]
  }

  /** When the float reader inverts the writer on every value written (a 4-byte
      word holds only finitely many values, so this is a property of the values,
      not of every real), the encoded stream reads back as the values written, in
      order. */
  lemma {:induction false} EncodeDecodeFloats(xs: seq<real>, encode: real -> Word, decode: Word -> real)
    requires forall x :: x in xs ==> decode(encode(x)) == x
    ensures DecodeFloats(EncodeFloats(xs, encode), decode) == xs
  {
    if xs != [] {
      var init, last := xs[..|xs| - 1], xs[|xs| - 1];
      assert xs == init + [last];
      assert forall x :: x in init ==> x in xs;
      EncodeDecodeFloats(init, encode, decode);
      var b := EncodeFloats(xs, encode);
      assert b[..|b| - 4] == EncodeFloats(init, encode);
      assert b[|b| - 4..] == encode(last);
      assert decode(encode(last)) == last;
    }
  }

  /** The word of value k sits at bytes 4k .. 4k + 4 of the encoded stream. */
  lemma {:induction false} EncodeFloatsAt(xs: seq<real>, encode: real -> Word, k: nat)
    requires k < |xs|
    ensures EncodeFloats(xs, encode)[4 * k..4 * k + 4] == encode(xs[k])
  {
    var init := xs[..|xs| - 1];
    if k < |xs| - 1 {
      EncodeFloatsAt(init, encode, k);
      assert EncodeFloats(xs, encode)[..4 * |init|] == EncodeFloats(init, encode);
    }
  }
}
