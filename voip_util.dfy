/** VoipUtil.createWavHeader: the 44-byte RIFF/WAVE header for 16-bit mono
    PCM at the recorder's sample rate, followed by a reader for that
    canonical layout so that the header's fields can be recovered. */
module VoipUtil {
  import opened Wrappers
  import opened Bytes

  /** VoipRecordService.SAMPLE_RATE. */
  const SampleRate: int := 16000
  /** CHANNEL_IN_MONO. */
  const Channels: int := 1
  /** ENCODING_PCM_16BIT. */
  const BitsPerSample: int := 16
  const HeaderSize: int := 44

  /** The header fields as a decoder of the canonical layout reports them. */
  datatype WavFields = WavFields(
    riffSize: int,       // bytes 4-7
    fmtSize: int,        // bytes 16-19
    audioFormat: int,    // bytes 20-21
    channels: int,       // bytes 22-23
    sampleRate: int,     // bytes 24-27
    byteRate: int,       // bytes 28-31
    blockAlign: int,     // bytes 32-33
    bitsPerSample: int,  // bytes 34-35
    dataSize: int)       // bytes 40-43

  /** The header createWavHeader writes for `pcmDataSize` bytes of PCM: the
      `(int)` casts keep the low 32 bits of the sizes. */
  function CreateWavHeader(pcmDataSize: Int64): (h: seq<Byte>)
    ensures |h| == HeaderSize
  {
    var totalDataLen := pcmDataSize + 36;
    var byteRate := SampleRate * Channels * (16 / 8);
    var riff := Ascii("RIFF") + LE32(totalDataLen) + Ascii("WAVE");
    var fmt := Ascii("fmt ") + LE32(16) + LE16(1) + LE16(Channels)
      + LE32(SampleRate) + LE32(byteRate)
      + LE16(Channels * (16 / 8)) + LE16(16);
    var data := Ascii("data") + LE32(pcmDataSize);
    riff + fmt + data
  }

  /** Reads a canonical 44-byte PCM header: the four chunk tags must be in
      place; every numeric field is returned as written. */
  function ParseWavHeader(h: seq<Byte>): (r: Option<WavFields>)
    ensures r.Some? ==> |h| >= HeaderSize
    ensures r.Some? ==> h[0..4] == Ascii("RIFF") && h[8..12] == Ascii("WAVE")
    ensures r.Some? ==> h[12..16] == Ascii("fmt ") && h[36..40] == Ascii("data")
  {
    if |h| < HeaderSize then None
    else if h[0..4] != Ascii("RIFF") || h[8..12] != Ascii("WAVE")
         || h[12..16] != Ascii("fmt ") || h[36..40] != Ascii("data") then None
    else Some(WavFields(
      riffSize := DecodeLE32(h[4..8]),
      fmtSize := DecodeLE32(h[16..20]),
      audioFormat := DecodeLE16(h[20..22]),
      channels := DecodeLE16(h[22..24]),
      sampleRate := DecodeLE32(h[24..28]),
      byteRate := DecodeLE32(h[28..32]),
      blockAlign := DecodeLE16(h[32..34]),
      bitsPerSample := DecodeLE16(h[34..36]),
      dataSize := DecodeLE32(h[40..44])))
  }

  /** The offsets of the pieces of a header laid out as the writer lays
      it out, whatever the pieces hold. */
  lemma {:induction false} PieceOffsets(r1: seq<Byte>, r2: seq<Byte>, r3: seq<Byte>,
                                        f1: seq<Byte>, f2: seq<Byte>, f3: seq<Byte>, f4: seq<Byte>,
                                        f5: seq<Byte>, f6: seq<Byte>, f7: seq<Byte>, f8: seq<Byte>,
                                        d1: seq<Byte>, d2: seq<Byte>)
    requires |r1| == |r2| == |r3| == |f1| == |f2| == |f5| == |f6| == |d1| == |d2| == 4
    requires |f3| == |f4| == |f7| == |f8| == 2
    ensures var h := (r1 + r2 + r3) + (f1 + f2 + f3 + f4 + f5 + f6 + f7 + f8) + (d1 + d2);
      && h[0..4] == r1 && h[4..8] == r2 && h[8..12] == r3
      && h[12..16] == f1 && h[16..20] == f2 && h[20..22] == f3 && h[22..24] == f4
      && h[24..28] == f5 && h[28..32] == f6 && h[32..34] == f7 && h[34..36] == f8
      && h[36..40] == d1 && h[40..44] == d2
  {
    var riff := r1 + r2 + r3;
    var fmt := f1 + f2 + f3 + f4 + f5 + f6 + f7 + f8;
    var data := d1 + d2;
    var h := riff + fmt + data;
    assert h[0..12] == riff && h[12..36] == fmt && h[36..44] == data;
    assert fmt[0..12] == f1 + f2 + f3 + f4;
    assert fmt[12..24] == f5 + f6 + f7 + f8;
  }

  /** Where each field of the header sits. */
  lemma HeaderLayout(p: Int64)
    ensures var h := CreateWavHeader(p);
      && h[0..4] == Ascii("RIFF") && h[4..8] == LE32(p + 36)
      && h[8..12] == Ascii("WAVE") && h[12..16] == Ascii("fmt ")
      && h[16..20] == LE32(16) && h[20..22] == LE16(1) && h[22..24] == LE16(Channels)
      && h[24..28] == LE32(SampleRate) && h[28..32] == LE32(SampleRate * Channels * 2)
      && h[32..34] == LE16(Channels * 2) && h[34..36] == LE16(16)
      && h[36..40] == Ascii("data") && h[40..44] == LE32(p)
  {
    PieceOffsets(Ascii("RIFF"), LE32(p + 36), Ascii("WAVE"),
                 Ascii("fmt "), LE32(16), LE16(1), LE16(Channels),
                 LE32(SampleRate), LE32(SampleRate * Channels * 2), LE16(Channels * 2), LE16(16),
                 Ascii("data"), LE32(p));
  }

  /** Reading back the header gives the constant PCM fields and the two
      sizes modulo 2^32: total = pcmDataSize + 36, data = pcmDataSize. */
  lemma ParseCreateWavHeader(p: Int64)
    ensures ParseWavHeader(CreateWavHeader(p)) == Some(WavFields(
      riffSize := Low32(p + 36), fmtSize := 16, audioFormat := 1, channels := 1,
      sampleRate := 16000, byteRate := 32000, blockAlign := 2, bitsPerSample := 16,
      dataSize := Low32(p)))
  {
    HeaderLayout(p);
    DecodeLE32OfLE32(p + 36);
    DecodeLE32OfLE32(16);
    DecodeLE16OfLE16(1);
    DecodeLE16OfLE16(Channels);
    DecodeLE32OfLE32(SampleRate);
    DecodeLE32OfLE32(SampleRate * Channels * 2);
    DecodeLE16OfLE16(Channels * 2);
    DecodeLE16OfLE16(16);
    DecodeLE32OfLE32(p);
  }

  /** A header describes a consistent stream: byte rate and block align
      follow from sample rate, channel count and sample width, and the RIFF
      size is the data size plus the 36 header bytes after it, modulo 2^32. */
  predicate Consistent(f: WavFields) {
    && f.byteRate == f.sampleRate * f.channels * (f.bitsPerSample / 8)
    && f.blockAlign == f.channels * (f.bitsPerSample / 8)
    && f.riffSize == Low32(f.dataSize + 36)
  }

  /** The fields the writer puts in a header are consistent. */
  lemma WrittenFieldsConsistent(p: Int64)
    ensures Consistent(WavFields(Low32(p + 36), 16, 1, 1, 16000, 32000, 2, 16, Low32(p)))
  {
    Low32Add(p, 36);
  }

  /** Every header the writer produces reads back as a consistent one. */
  lemma HeaderConsistent(p: Int64)
    ensures ParseWavHeader(CreateWavHeader(p)).Some?
    ensures Consistent(ParseWavHeader(CreateWavHeader(p)).value)
  {
    ParseCreateWavHeader(p);
    WrittenFieldsConsistent(p);
  }

  /** For every size a 32-bit field can hold after adding 36, both size
      fields give back exactly `pcmDataSize`. */
  lemma SizesRoundTrip(p: Int64)
    requires 0 <= p < 0x8000_0000 - 36
    ensures var h := CreateWavHeader(p);
      && DecodeLE32(h[40..44]) == p
      && DecodeLE32(h[4..8]) - 36 == p
  {
    var h := CreateWavHeader(p);
    HeaderLayout(p);
    DecodeLE32OfLE32(p + 36);
    DecodeLE32OfLE32(p);
    Low32OfSmall(p);
    Low32OfSmall(p + 36);
    assert DecodeLE32(h[40..44]) == Low32(p);
    assert DecodeLE32(h[4..8]) == Low32(p + 36);
  }

  /** Two sizes give the same header exactly when they agree in their low
      32 bits: the header depends on nothing but `pcmDataSize`, and loses
      only what the `(int)` cast drops. */
  lemma HeaderDeterminedByLow32(p: Int64, q: Int64)
    ensures CreateWavHeader(p) == CreateWavHeader(q) <==> Low32(p) == Low32(q)
  {
    if CreateWavHeader(p) == CreateWavHeader(q) {
      HeaderLayout(p);
      HeaderLayout(q);
      DecodeLE32OfLE32(p);
      DecodeLE32OfLE32(q);
    }
    if Low32(p) == Low32(q) {
      Low32Add(p, 36);
      Low32Add(q, 36);
      assert LE32(p + 36) == LE32(q + 36) && LE32(p) == LE32(q);
    }
  }
}
