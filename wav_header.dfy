/**
 * The canonical 44-byte RIFF/WAVE header written in front of a PCM recording,
 * and the patch that fills in its two size fields once the recording is done.
 *
 * Layout (byte offsets; every number little-endian):
 *    0 "RIFF"   4 ChunkSize   8 "WAVE"  12 "fmt "  16 Subchunk1Size (4)  20 AudioFormat (2)
 *   22 NumChannels (2)  24 SampleRate (4)  28 ByteRate (4)  32 BlockAlign (2)
 *   34 BitsPerSample (2)  36 "data"  40 Subchunk2Size (4)
 */
module WavHeader {
  import opened Wrappers
  import opened JavaInt

  /** One octet of a file, read unsigned. */
  newtype byte = b: int | 0 <= b < 256

  const HEADER_SIZE: nat := 44

  const RIFF_ID: seq<byte> := [0x52, 0x49, 0x46, 0x46]   // "RIFF"
  const WAVE_ID: seq<byte> := [0x57, 0x41, 0x56, 0x45]   // "WAVE"
  const FMT_ID: seq<byte> := [0x66, 0x6d, 0x74, 0x20]    // "fmt "
  const DATA_ID: seq<byte> := [0x64, 0x61, 0x74, 0x61]   // "data"

  // Android's AudioFormat constants that the header encoder accepts.
  const CHANNEL_IN_MONO: int32 := 0x10
  const CHANNEL_IN_STEREO: int32 := 0x0c
  const ENCODING_PCM_16BIT: int32 := 2
  const ENCODING_PCM_8BIT: int32 := 3
  const ENCODING_PCM_FLOAT: int32 := 4

  datatype FormatError = UnacceptableChannelMask | UnacceptableEncoding

  /** The fields of a header, each read as an unsigned number. */
  datatype WavInfo = WavInfo(
    chunkSize: nat,
    subchunk1Size: nat,
    audioFormat: nat,
    numChannels: nat,
    sampleRate: nat,
    byteRate: nat,
    blockAlign: nat,
    bitsPerSample: nat,
    subchunk2Size: nat)

  // ---------------------------------------------------------------------------
  // Little-endian numbers

  function Pow256(n: nat): (p: nat)
    ensures p > 0
  {
    if n == 0 then 1 else 256 * Pow256(n - 1)
  }

  /** The low `width` bytes of `x` in two's complement, least significant first,
      as `ByteBuffer.order(LITTLE_ENDIAN).putShort`/`putInt` lay them out. */
  function ToLittleEndian(x: int, width: nat): (bs: seq<byte>)
    ensures |bs| == width
    decreases width
  {
    if width == 0 then [] else [(x % 256) as byte] + ToLittleEndian(x / 256, width - 1)
  }

  /** The unsigned number a little-endian byte string denotes. */
  function FromLittleEndian(bs: seq<byte>): (v: nat)
    ensures v < Pow256(|bs|)
  {
    if bs == [] then 0 else bs[0] as nat + 256 * FromLittleEndian(bs[1..])
  }

  function LE16(x: int): seq<byte> { ToLittleEndian(x, 2) }

  function LE32(x: int): seq<byte> { ToLittleEndian(x, 4) }

  /** Euclidean division is the unique quotient/remainder pair. */
  lemma DivModUnique(x: int, m: int, q: int, r: int)
    requires m > 0 && 0 <= r < m && x == q * m + r
    ensures x / m == q && x % m == r
  {
    var q', r' := x / m, x % m;
    assert x == q' * m + r';
    if q' < q {
      assert (q - q') * m >= m by { MulAtLeast(q - q', m); }
      assert false;
    } else if q' > q {
      assert (q' - q) * m >= m by { MulAtLeast(q' - q, m); }
      assert false;
    }
  }

  lemma MulAtLeast(d: int, m: int)
    requires d >= 1 && m > 0
    ensures d * m >= m
  {
  }

  /** Taking a remainder in two steps: the low byte, then the rest of the
      quotient modulo b. */
  lemma DivModNested(x: int, b: nat)
    requires b > 0
    ensures x % 256 + 256 * ((x / 256) % b) == x % (256 * b)
  {
    var q, r := x / 256, x % 256;
    var q2, r2 := q / b, q % b;
    assert q == q2 * b + r2;
    assert x == 256 * q + r;
    assert x == q2 * (256 * b) + (256 * r2 + r);
    DivModUnique(x, 256 * b, q2, 256 * r2 + r);
  }

  /** Decoding an encoded number gives it back modulo 256^width. */
  lemma {:induction false} DecodeEncode(x: int, width: nat)
    ensures FromLittleEndian(ToLittleEndian(x, width)) == x % Pow256(width)
    decreases width
  {
    if width == 0 {
      assert x % 1 == 0 by { DivModUnique(x, 1, x, 0); }
    } else {
      var bs := ToLittleEndian(x, width);
      assert bs[1..] == ToLittleEndian(x / 256, width - 1);
      DecodeEncode(x / 256, width - 1);
      DivModNested(x, Pow256(width - 1));
    }
  }

  /** Encoding a decoded byte string gives it back. */
  lemma {:induction false} EncodeDecode(bs: seq<byte>)
    ensures ToLittleEndian(FromLittleEndian(bs), |bs|) == bs
  {
    if bs != [] {
      var v := FromLittleEndian(bs);
      var rest := FromLittleEndian(bs[1..]);
      DivModUnique(v, 256, rest, bs[0] as int);
      EncodeDecode(bs[1..]);
      assert bs == [bs[0]] + bs[1..];
    }
  }

  /** Only x modulo 256^width reaches the bytes: a value that wrapped around in a
      Java `int` is written exactly as its unbounded counterpart. */
  lemma LittleEndianModulo(x: int, y: int, width: nat)
    requires x % Pow256(width) == y % Pow256(width)
    ensures ToLittleEndian(x, width) == ToLittleEndian(y, width)
  {
    DecodeEncode(x, width);
    DecodeEncode(y, width);
    EncodeDecode(ToLittleEndian(x, width));
    EncodeDecode(ToLittleEndian(y, width));
  }

  // ---------------------------------------------------------------------------
  // Writing the header

  /** `writeWavHeader(out, short channels, int sampleRate, short bitDepth)`:
      the 44 bytes it writes, size fields left zero. ByteRate is computed in
      Java `int` arithmetic; it is written modulo 2^32 either way. */
  function EncodeHeader(channels: int16, sampleRate: int32, bitDepth: int16): (h: seq<byte>)
    ensures |h| == HEADER_SIZE
  {
    var bytesPerSample := TruncDiv(bitDepth, 8);
    RIFF_ID + LE32(0) + WAVE_ID
    + FMT_ID + LE32(16) + LE16(1)
    + LE16(channels) + LE32(sampleRate) + LE32(sampleRate * channels * bytesPerSample)
    + LE16(channels * bytesPerSample) + LE16(bitDepth)
    + DATA_ID + LE32(0)
  }

  /** The number of channels a supported channel mask stands for. */
  function ChannelCount(channelMask: int32): (channels: int16)
    ensures channels == 1 || channels == 2
    ensures channels == 2 <==> channelMask == CHANNEL_IN_STEREO
  {
    if channelMask == CHANNEL_IN_STEREO then 2 else 1
  }

  /** The bits per sample of a supported encoding. */
  function BitDepth(encoding: int32): (bits: int16)
    ensures bits == 8 || bits == 16 || bits == 32
    ensures bits == 8 <==> encoding == ENCODING_PCM_8BIT
    ensures bits == 16 <==> encoding == ENCODING_PCM_16BIT
  {
    if encoding == ENCODING_PCM_8BIT then 8
    else if encoding == ENCODING_PCM_16BIT then 16
    else 32
  }

  /** `writeWavHeader(out, int channelMask, int sampleRate, int encoding)`: the
      mask and the encoding are checked, in that order, before any byte is
      written; a rejected one is an IllegalArgumentException. */
  function WavHeaderFor(channelMask: int32, sampleRate: int32, encoding: int32): (r: Result<seq<byte>, FormatError>)
    ensures r.Failure? <==>
              (channelMask != CHANNEL_IN_MONO && channelMask != CHANNEL_IN_STEREO)
              || (encoding != ENCODING_PCM_8BIT && encoding != ENCODING_PCM_16BIT && encoding != ENCODING_PCM_FLOAT)
    ensures r.Failure? ==>
              r.error == if channelMask != CHANNEL_IN_MONO && channelMask != CHANNEL_IN_STEREO
                         then UnacceptableChannelMask else UnacceptableEncoding
    ensures r.Success? ==> |r.value| == HEADER_SIZE
    ensures r.Success? ==>
              var channels := if channelMask == CHANNEL_IN_MONO then 1 else 2;
              var bits := if encoding == ENCODING_PCM_8BIT then 8
                          else if encoding == ENCODING_PCM_16BIT then 16 else 32;
              ParseHeader(r.value) == Some(WavInfo(0, 16, 1, channels, sampleRate % TWO_POW_32,
                                                   (sampleRate * channels * (bits / 8)) % TWO_POW_32,
                                                   channels * (bits / 8), bits, 0))
  {
    if channelMask != CHANNEL_IN_MONO && channelMask != CHANNEL_IN_STEREO then
      Failure(UnacceptableChannelMask)
    else if encoding != ENCODING_PCM_8BIT && encoding != ENCODING_PCM_16BIT && encoding != ENCODING_PCM_FLOAT then
      Failure(UnacceptableEncoding)
    else
      AcceptedHeader(ChannelCount(channelMask), sampleRate, BitDepth(encoding));
      Success(EncodeHeader(ChannelCount(channelMask), sampleRate, BitDepth(encoding)))
  }

  /** HeaderRoundTrip for the channel counts and bit depths the encoder accepts,
      where every field reads back as given except SampleRate and ByteRate,
      which are read modulo 2^32. */
  lemma AcceptedHeader(channels: int16, sampleRate: int32, bitDepth: int16)
    requires channels == 1 || channels == 2
    requires bitDepth == 8 || bitDepth == 16 || bitDepth == 32
    ensures ParseHeader(EncodeHeader(channels, sampleRate, bitDepth))
            == Some(WavInfo(0, 16, 1, channels, sampleRate % TWO_POW_32,
                            (sampleRate * channels * (bitDepth / 8)) % TWO_POW_32,
                            channels * (bitDepth / 8), bitDepth, 0))
  {
    var h := EncodeHeader(channels, sampleRate, bitDepth);
    HeaderRoundTrip(channels, sampleRate, bitDepth, []);
    assert h + [] == h;
    var bytesPerSample := bitDepth / 8;
    assert TruncDiv(bitDepth, 8) == bytesPerSample;
    assert bytesPerSample == 1 || bytesPerSample == 2 || bytesPerSample == 4;
    var blockAlign := channels * bytesPerSample;
    assert 1 <= blockAlign <= 8 by {
      if channels == 1 { assert blockAlign == bytesPerSample; }
      else { assert blockAlign == 2 * bytesPerSample; }
    }
    var byteRate := sampleRate * channels * bytesPerSample;
    assert sampleRate * channels * TruncDiv(bitDepth, 8) == byteRate;
    assert ParseHeader(h) == Some(WavInfo(0, 16, 1, channels % 0x1_0000, sampleRate % TWO_POW_32,
                                          byteRate % TWO_POW_32, blockAlign % 0x1_0000,
                                          bitDepth % 0x1_0000, 0));
    DivModUnique(channels, 0x1_0000, 0, channels);
    DivModUnique(blockAlign, 0x1_0000, 0, blockAlign);
    DivModUnique(bitDepth, 0x1_0000, 0, bitDepth);
  }

  // ---------------------------------------------------------------------------
  // Reading a header back

  /** The partner of EncodeHeader: the fields of the first 44 bytes of a file,
      provided the four chunk identifiers are where the layout puts them. */
  function ParseHeader(f: seq<byte>): (r: Option<WavInfo>)
    ensures r.Some? ==> |f| >= HEADER_SIZE && f[..4] == RIFF_ID && f[36..40] == DATA_ID
  {
    if |f| < HEADER_SIZE || f[0..4] != RIFF_ID || f[8..12] != WAVE_ID
       || f[12..16] != FMT_ID || f[36..40] != DATA_ID then
      None
    else
      Some(WavInfo(
        FromLittleEndian(f[4..8]), FromLittleEndian(f[16..20]), FromLittleEndian(f[20..22]),
        FromLittleEndian(f[22..24]), FromLittleEndian(f[24..28]), FromLittleEndian(f[28..32]),
        FromLittleEndian(f[32..34]), FromLittleEndian(f[34..36]), FromLittleEndian(f[40..44])))
  }

  /** Where each of the thirteen parts of a header sits in the file. */
  lemma HeaderLayout(p0: seq<byte>, p1: seq<byte>, p2: seq<byte>, p3: seq<byte>, p4: seq<byte>,
                     p5: seq<byte>, p6: seq<byte>, p7: seq<byte>, p8: seq<byte>, p9: seq<byte>,
                     p10: seq<byte>, p11: seq<byte>, p12: seq<byte>, data: seq<byte>)
    requires |p0| == |p1| == |p2| == |p3| == |p4| == 4 && |p5| == |p6| == 2
    requires |p7| == |p8| == 4 && |p9| == |p10| == 2 && |p11| == |p12| == 4
    ensures var f := p0 + p1 + p2 + p3 + p4 + p5 + p6 + p7 + p8 + p9 + p10 + p11 + p12 + data;
            && f[0..4] == p0 && f[4..8] == p1 && f[8..12] == p2 && f[12..16] == p3
            && f[16..20] == p4 && f[20..22] == p5 && f[22..24] == p6 && f[24..28] == p7
            && f[28..32] == p8 && f[32..34] == p9 && f[34..36] == p10 && f[36..40] == p11
            && f[40..44] == p12
  {
    var a := p0 + p1 + p2 + p3 + p4 + p5 + p6;
    var b := p7 + p8 + p9 + p10 + p11 + p12 + data;
    assert p0 + p1 + p2 + p3 + p4 + p5 + p6 + p7 + p8 + p9 + p10 + p11 + p12 + data == a + b;
    assert a[0..4] == p0 && a[4..8] == p1 && a[8..12] == p2 && a[12..16] == p3;
    assert a[16..20] == p4 && a[20..22] == p5 && a[22..24] == p6;
    assert b[0..4] == p7 && b[4..8] == p8 && b[8..10] == p9 && b[10..12] == p10;
    assert b[12..16] == p11 && b[16..20] == p12;
  }

  /** ParseHeader reads each field from its slice. */
  lemma ParseFields(f: seq<byte>, chunkSize: seq<byte>, subchunk1Size: seq<byte>, audioFormat: seq<byte>,
                    numChannels: seq<byte>, sampleRate: seq<byte>, byteRate: seq<byte>,
                    blockAlign: seq<byte>, bitsPerSample: seq<byte>, subchunk2Size: seq<byte>)
    requires |f| >= HEADER_SIZE
    requires f[0..4] == RIFF_ID && f[8..12] == WAVE_ID && f[12..16] == FMT_ID && f[36..40] == DATA_ID
    requires f[4..8] == chunkSize && f[16..20] == subchunk1Size && f[20..22] == audioFormat
    requires f[22..24] == numChannels && f[24..28] == sampleRate && f[28..32] == byteRate
    requires f[32..34] == blockAlign && f[34..36] == bitsPerSample && f[40..44] == subchunk2Size
    ensures ParseHeader(f)
            == Some(WavInfo(FromLittleEndian(chunkSize), FromLittleEndian(subchunk1Size),
                            FromLittleEndian(audioFormat), FromLittleEndian(numChannels),
                            FromLittleEndian(sampleRate), FromLittleEndian(byteRate),
                            FromLittleEndian(blockAlign), FromLittleEndian(bitsPerSample),
                            FromLittleEndian(subchunk2Size)))
  {
  }

  /** What EncodeHeader declares, field by field, whatever data follows it. */
  lemma HeaderRoundTrip(channels: int16, sampleRate: int32, bitDepth: int16, data: seq<byte>)
    ensures var bytesPerSample := TruncDiv(bitDepth, 8);
            ParseHeader(EncodeHeader(channels, sampleRate, bitDepth) + data)
            == Some(WavInfo(0, 16, 1, channels % 0x1_0000, sampleRate % TWO_POW_32,
                            (sampleRate * channels * bytesPerSample) % TWO_POW_32,
                            (channels * bytesPerSample) % 0x1_0000, bitDepth % 0x1_0000, 0))
  {
    var bytesPerSample := TruncDiv(bitDepth, 8);
    var byteRate := sampleRate * channels * bytesPerSample;
    var blockAlign := channels * bytesPerSample;
    var f := EncodeHeader(channels, sampleRate, bitDepth) + data;
    HeaderLayout(RIFF_ID, LE32(0), WAVE_ID, FMT_ID, LE32(16), LE16(1), LE16(channels),
                 LE32(sampleRate), LE32(byteRate), LE16(blockAlign), LE16(bitDepth),
                 DATA_ID, LE32(0), data);
    ParseFields(f, LE32(0), LE32(16), LE16(1), LE16(channels), LE32(sampleRate), LE32(byteRate),
                LE16(blockAlign), LE16(bitDepth), LE32(0));
    Pow256Values();
    assert FromLittleEndian(LE32(0)) == 0 by { DecodeEncode(0, 4); }
    assert FromLittleEndian(LE32(16)) == 16 by { DecodeEncode(16, 4); }
    assert FromLittleEndian(LE16(1)) == 1 by { DecodeEncode(1, 2); }
    DecodeEncode(channels, 2);
    DecodeEncode(sampleRate, 4);
    DecodeEncode(byteRate, 4);
    DecodeEncode(blockAlign, 2);
    DecodeEncode(bitDepth, 2);
  }

  // ---------------------------------------------------------------------------
  // Patching the sizes

  function Zeros(n: nat): (z: seq<byte>)
    ensures |z| == n && forall i :: 0 <= i < n ==> z[i] == 0
  {
    seq(n, _ => 0)
  }

  /** `seek(offset)` then `write(bs)` on a random-access file: the bytes at
      [offset, offset + |bs|) are replaced; a write past the end extends the
      file, and a gap before `offset` reads as zero bytes. */
  function WriteAt(f: seq<byte>, offset: nat, bs: seq<byte>): (r: seq<byte>)
    ensures |r| == Max(|f|, offset + |bs|)
    ensures r[offset..offset + |bs|] == bs
    ensures forall i :: 0 <= i < |r| && !(offset <= i < offset + |bs|) ==>
              r[i] == if i < |f| then f[i] else 0
  {
    var padded := if |f| < offset then f + Zeros(offset - |f|) else f;
    padded[..offset] + bs + (if offset + |bs| < |padded| then padded[offset + |bs|..] else [])
  }

  /** True when `i` is the offset of a byte of ChunkSize or Subchunk2Size. */
  predicate IsSizeByte(i: int)
  {
    4 <= i < 8 || 40 <= i < 44
  }

  /** `updateWavHeader(wav)`: ChunkSize := (int)(length - 8) at offset 4 and
      Subchunk2Size := (int)(length - 44) at offset 40, both computed from the
      length before the patch. On a file of 44 bytes or more exactly those
      eight bytes change; a shorter file is extended to 44 bytes. */
  function UpdateWavHeader(wav: seq<byte>): (r: seq<byte>)
    ensures |r| == Max(|wav|, HEADER_SIZE)
    ensures r[4..8] == LE32(ToInt32(|wav| - 8)) && r[40..44] == LE32(ToInt32(|wav| - 44))
    ensures forall i :: 0 <= i < |r| && !IsSizeByte(i) ==> r[i] == if i < |wav| then wav[i] else 0
  {
    var sizes := LE32(ToInt32(|wav| - 8)) + LE32(ToInt32(|wav| - 44));
    var withChunkSize := WriteAt(wav, 4, sizes[0..4]);
    assert sizes[0..4] == LE32(ToInt32(|wav| - 8));
    assert sizes[4..8] == LE32(ToInt32(|wav| - 44));
    WriteAt(withChunkSize, 40, sizes[4..8])
  }

  lemma Pow256Values()
    ensures Pow256(2) == 0x1_0000 && Pow256(4) == TWO_POW_32
  {
  }

  /** The two sizes the patch writes, read back as unsigned numbers: the file's
      length minus 8 and minus 44, modulo 2^32 (the `(int)` cast wraps). */
  lemma PatchedSizes(wav: seq<byte>)
    ensures FromLittleEndian(UpdateWavHeader(wav)[4..8]) == (|wav| - 8) % TWO_POW_32
    ensures FromLittleEndian(UpdateWavHeader(wav)[40..44]) == (|wav| - 44) % TWO_POW_32
  {
    Pow256Values();
    DecodeEncode(ToInt32(|wav| - 8), 4);
    DecodeEncode(ToInt32(|wav| - 44), 4);
  }

  /** Patching twice is patching once, for any file at least a header long. */
  lemma UpdateWavHeaderIdempotent(wav: seq<byte>)
    requires |wav| >= HEADER_SIZE
    ensures UpdateWavHeader(UpdateWavHeader(wav)) == UpdateWavHeader(wav)
  {
    var once := UpdateWavHeader(wav);
    var twice := UpdateWavHeader(once);
    assert |twice| == |once|;
    forall i | 0 <= i < |once|
      ensures twice[i] == once[i]
    {
      if 4 <= i < 8 {
        assert twice[i] == twice[4..8][i - 4] && once[i] == once[4..8][i - 4];
      } else if 40 <= i < 44 {
        assert twice[i] == twice[40..44][i - 40] && once[i] == once[40..44][i - 40];
      }
    }
  }

  /** Two files that agree on every header byte outside the size fields have
      the same header apart from the sizes. */
  lemma SameHeaderOutsideSizes(r: seq<byte>, f: seq<byte>)
    requires |r| >= HEADER_SIZE && |f| >= HEADER_SIZE
    requires forall i :: 0 <= i < HEADER_SIZE && !IsSizeByte(i) ==> r[i] == f[i]
    ensures ParseHeader(r).Some? == ParseHeader(f).Some?
    ensures ParseHeader(f).Some? ==>
              ParseHeader(r).value
              == ParseHeader(f).value.(chunkSize := FromLittleEndian(r[4..8]),
                                       subchunk2Size := FromLittleEndian(r[40..44]))
  {
    assert r[0..4] == f[0..4];
    assert r[8..12] == f[8..12];
    assert r[12..16] == f[12..16];
    assert r[16..20] == f[16..20];
    assert r[20..22] == f[20..22];
    assert r[22..24] == f[22..24];
    assert r[24..28] == f[24..28];
    assert r[28..32] == f[28..32];
    assert r[32..34] == f[32..34];
    assert r[34..36] == f[34..36];
    assert r[36..40] == f[36..40];
  }

  /** The header is read from the first 44 bytes alone. */
  lemma ParseHeaderIgnoresData(h: seq<byte>, data: seq<byte>)
    requires |h| == HEADER_SIZE
    ensures ParseHeader(h + data) == ParseHeader(h)
  {
    var f := h + data;
    assert f[..HEADER_SIZE] == h;
    SameHeaderOutsideSizes(f, h);
    assert f[4..8] == h[4..8];
    assert f[40..44] == h[40..44];
  }

  /** The patch leaves every header field but the two sizes as it was, and the
      sizes it writes are the file's length minus 8 and minus 44. */
  lemma PatchedHeader(wav: seq<byte>)
    requires ParseHeader(wav).Some?
    ensures ParseHeader(UpdateWavHeader(wav))
            == Some(ParseHeader(wav).value.(chunkSize := (|wav| - 8) % TWO_POW_32,
                                            subchunk2Size := (|wav| - 44) % TWO_POW_32))
    ensures UpdateWavHeader(wav)[HEADER_SIZE..] == wav[HEADER_SIZE..]
  {
    var r := UpdateWavHeader(wav);
    PatchedSizes(wav);
    SameHeaderOutsideSizes(r, wav);
  }

  /** A header, N data bytes, then the patch: the file declares
      Subchunk2Size = N and ChunkSize = N + 36 (modulo 2^32), keeps the other
      fields, and still carries the data unchanged. */
  lemma {:induction false} RecordedFileRoundTrip(channels: int16, sampleRate: int32, bitDepth: int16, data: seq<byte>)
    ensures var f := UpdateWavHeader(EncodeHeader(channels, sampleRate, bitDepth) + data);
            var bytesPerSample := TruncDiv(bitDepth, 8);
            && |f| == HEADER_SIZE + |data|
            && f[HEADER_SIZE..] == data
            && ParseHeader(f)
               == Some(WavInfo((|data| + 36) % TWO_POW_32, 16, 1, channels % 0x1_0000, sampleRate % TWO_POW_32,
                               (sampleRate * channels * bytesPerSample) % TWO_POW_32,
                               (channels * bytesPerSample) % 0x1_0000, bitDepth % 0x1_0000,
                               |data| % TWO_POW_32))
  {
    var h := EncodeHeader(channels, sampleRate, bitDepth);
    HeaderRoundTrip(channels, sampleRate, bitDepth, data);
    PatchedHeader(h + data);
    assert (h + data)[HEADER_SIZE..] == data;
  }
}
