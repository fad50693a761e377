/** Bytes and the fixed-width integer encodings the client and the servers
    write: 32-bit little-endian (java.nio.ByteBuffer in LITTLE_ENDIAN order,
    used by the WAV header), 32-bit big-endian (ByteBuffer's default order,
    and Python's struct format '>I'), 16-bit little-endian, and the signed
    16-bit samples numpy reads with dtype int16. */
module Bytes {

  type Byte = b: int | 0 <= b < 256

  /** Java's `int` and `long`. */
  type Int32 = x: int | -0x8000_0000 <= x < 0x8000_0000
  type Int64 = x: int | -0x8000_0000_0000_0000 <= x < 0x8000_0000_0000_0000

  /** String.getBytes(US_ASCII) of a string of ASCII characters. */
  function Ascii(s: string): (r: seq<Byte>)
    requires forall k :: 0 <= k < |s| ==> s[k] < 128 as char
    ensures |r| == |s|
    ensures forall k :: 0 <= k < |s| ==> r[k] == s[k] as int
  {
    seq(|s|, k requires 0 <= k < |s| => s[k] as int)
  }

  const Two16: int := 0x1_0000
  const Two32: int := 0x1_0000_0000

  /** The low 32 bits of `n`, which is what a Java `(int)` cast keeps of a
      `long`; Dafny's `%` is Euclidean, so negative values wrap as in two's
      complement. */
  function Low32(n: int): (r: int)
    ensures 0 <= r < Two32
    ensures (r - n) % Two32 == 0
  {
    n % Two32
  }

  lemma Low32OfSmall(x: int)
    requires 0 <= x < Two32
    ensures Low32(x) == x
  {
    assert x % 0x1_0000_0000 == x;
  }

  /** Adding before or after the cast to 32 bits gives the same low bits. */
  lemma Low32Add(x: int, c: int)
    ensures Low32(Low32(x) + c) == Low32(x + c)
  {
    assert (x % 0x1_0000_0000 + c) % 0x1_0000_0000 == (x + c) % 0x1_0000_0000;
  }

  /** ByteBuffer.putInt in little-endian order of the low 32 bits of `n`. */
  function LE32(n: int): (r: seq<Byte>)
    ensures |r| == 4
  {
    var v := Low32(n);
    [v % 256, (v / 256) % 256, (v / 65536) % 256, v / 16777216]
  }

  /** ByteBuffer.putShort in little-endian order of the low 16 bits of `n`. */
  function LE16(n: int): (r: seq<Byte>)
    ensures |r| == 2
  {
    var v := n % Two16;
    [v % 256, v / 256]
  }

  /** ByteBuffer.putInt in big-endian order (the default) of the low 32 bits of `n`. */
  function BE32(n: int): (r: seq<Byte>)
    ensures |r| == 4
  {
    var v := Low32(n);
    [v / 16777216, (v / 65536) % 256, (v / 256) % 256, v % 256]
  }

  /** Reads four bytes as an unsigned little-endian 32-bit number. */
  function DecodeLE32(b: seq<Byte>): (v: int)
    requires |b| == 4
    ensures 0 <= v < Two32
  {
    b[0] as int + 256 * (b[1] as int) + 65536 * (b[2] as int) + 16777216 * (b[3] as int)
  }

  /** Reads two bytes as an unsigned little-endian 16-bit number. */
  function DecodeLE16(b: seq<Byte>): (v: int)
    requires |b| == 2
    ensures 0 <= v < Two16
  {
    b[0] as int + 256 * (b[1] as int)
  }

  /** Python's struct.unpack('>I', b)[0]: four bytes as an unsigned
      big-endian 32-bit number. */
  function DecodeBE32(b: seq<Byte>): (v: int)
    requires |b| == 4
    ensures 0 <= v < Two32
  {
    16777216 * (b[0] as int) + 65536 * (b[1] as int) + 256 * (b[2] as int) + b[3] as int
  }

  /** numpy's int16 (little-endian) reading of the byte pair lo, hi. */
  function Int16LE(lo: Byte, hi: Byte): (s: int)
    ensures -32768 <= s < 32768
    ensures (s - DecodeLE16([lo, hi])) % Two16 == 0
  {
    var u := lo as int + 256 * (hi as int);
    if u >= 32768 then u - 65536 else u
  }

  lemma DivMod256(v: int, q: int, r: int)
    requires 0 <= r < 256 && v == 256 * q + r
    ensures v / 256 == q && v % 256 == r
  {
  }

  lemma DivMod65536(v: int, q: int, r: int)
    requires 0 <= r < 65536 && v == 65536 * q + r
    ensures v / 65536 == q && v % 65536 == r
  {
  }

  lemma DivMod16777216(v: int, q: int, r: int)
    requires 0 <= r < 16777216 && v == 16777216 * q + r
    ensures v / 16777216 == q && v % 16777216 == r
  {
  }

  lemma DigitsOf32(v: int)
    requires 0 <= v < Two32
    ensures v == v % 256 + 256 * ((v / 256) % 256) + 65536 * ((v / 65536) % 256) + 16777216 * (v / 16777216)
    ensures v / 16777216 < 256
  {
    var b0, q1 := v % 256, v / 256;
    var b1, q2 := q1 % 256, q1 / 256;
    var b2, b3 := q2 % 256, q2 / 256;
    DivMod256(v, q1, b0);
    DivMod256(q1, q2, b1);
    DivMod256(q2, b3, b2);
    DivMod65536(v, q2, b0 + 256 * b1);
    DivMod16777216(v, b3, b0 + 256 * b1 + 65536 * b2);
  }

  /** Decoding what LE32 wrote gives back the low 32 bits. */
  lemma DecodeLE32OfLE32(n: int)
    ensures DecodeLE32(LE32(n)) == Low32(n)
  {
    DigitsOf32(Low32(n));
  }

  /** Decoding what BE32 wrote gives back the low 32 bits. */
  lemma DecodeBE32OfBE32(n: int)
    ensures DecodeBE32(BE32(n)) == Low32(n)
  {
    DigitsOf32(Low32(n));
  }

  /** The value of four bytes, lowest first, and its quotients by powers of 256. */
  lemma SplitWord(b0: Byte, b1: Byte, b2: Byte, b3: Byte)
    ensures var v := b0 as int + 256 * (b1 as int) + 65536 * (b2 as int) + 16777216 * (b3 as int);
      && 0 <= v < Two32 && Low32(v) == v
      && v % 256 == b0 && (v / 256) % 256 == b1 && (v / 65536) % 256 == b2 && v / 16777216 == b3
  {
    var v := b0 as int + 256 * (b1 as int) + 65536 * (b2 as int) + 16777216 * (b3 as int);
    DivMod256(v, b1 as int + 256 * (b2 as int) + 65536 * (b3 as int), b0);
    DivMod65536(v, b2 as int + 256 * (b3 as int), b0 as int + 256 * (b1 as int));
    DivMod16777216(v, b3, b0 as int + 256 * (b1 as int) + 65536 * (b2 as int));
    DivMod256(b1 as int + 256 * (b2 as int) + 65536 * (b3 as int), b2 as int + 256 * (b3 as int), b1);
    DivMod256(b2 as int + 256 * (b3 as int), b3, b2);
  }

  /** Encoding a decoded little-endian word gives back the same four bytes. */
  lemma LE32OfDecodeLE32(b: seq<Byte>)
    requires |b| == 4
    ensures LE32(DecodeLE32(b)) == b
  {
    SplitWord(b[0], b[1], b[2], b[3]);
  }

  /** Encoding a decoded big-endian word gives back the same four bytes. */
  lemma BE32OfDecodeBE32(b: seq<Byte>)
    requires |b| == 4
    ensures BE32(DecodeBE32(b)) == b
  {
    SplitWord(b[3], b[2], b[1], b[0]);
  }

  /** The two byte orders write the same bytes, reversed. */
  lemma BE32IsReversedLE32(n: int)
    ensures BE32(n) == [LE32(n)[3], LE32(n)[2], LE32(n)[1], LE32(n)[0]]
  {
  }

  /** Decoding what LE16 wrote gives back the low 16 bits. */
  lemma DecodeLE16OfLE16(n: int)
    ensures DecodeLE16(LE16(n)) == n % Two16
  {
    var v := n % Two16;
    DivMod256(v, v / 256, v % 256);
  }
}
