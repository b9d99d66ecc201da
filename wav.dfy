/** The in-memory WAV image `PlayAudio` builds: the PCM at half volume
    behind a 44-byte RIFF header (the WAVE form with a 16-byte `fmt ` chunk
    for WAVE_FORMAT_PCM and a `data` chunk, fields little-endian, as the
    Multimedia Programming Interface and Data Specifications 1.0 describe). */
module Wav {
  import opened Bytes
  import opened CArith
  import opened Options

  const HEADER_SIZE: nat := 44
  const FMT_CHUNK_SIZE: nat := 16
  const WAVE_FORMAT_PCM: nat := 1
  const BITS_PER_SAMPLE: nat := 16

  /** The four-character codes, as ASCII bytes. */
  const RIFF_ID: seq<byte> := [0x52, 0x49, 0x46, 0x46]  // "RIFF"
  const WAVE_ID: seq<byte> := [0x57, 0x41, 0x56, 0x45]  // "WAVE"
  const FMT_ID: seq<byte> := [0x66, 0x6D, 0x74, 0x20]   // "fmt "
  const DATA_ID: seq<byte> := [0x64, 0x61, 0x74, 0x61]  // "data"

  /** The volume reduction of one sample: `(short)(v * 0.5f)`. */
  function Quieter(v: int): int {
    Half(v)
  }

  function Quieted(s: seq<int>): (r: seq<int>)
    ensures |r| == |s|
  {
    seq(|s|, i requires 0 <= i < |s| => Quieter(s[i]))
  }

  /** `Quieter` is the float product truncated toward zero by the cast. */
  lemma QuieterIsTruncatedProduct(v: int)
    ensures Quieter(v) == Trunc(v as real * 0.5)
  {
    var h := Half(v);
    if v >= 0 {
      assert h as real <= v as real * 0.5 < h as real + 1.0;
    } else {
      assert h as real - 1.0 < v as real * 0.5 <= h as real;
    }
  }

  /** A quieter sample keeps its sign or becomes 0, is no larger in
      magnitude, and stays a short. */
  lemma QuieterShrinks(v: int)
    ensures v >= 0 ==> 0 <= Quieter(v) <= v
    ensures v <= 0 ==> v <= Quieter(v) <= 0
    ensures IsShort(v) ==> IsShort(Quieter(v))
  {
  }

  /** The `RIFF` chunk header with the `WAVE` form type: 12 bytes. */
  function RiffChunk(dataSize: int): (r: seq<byte>)
    ensures |r| == 12
  {
    RIFF_ID + Le32(HEADER_SIZE + dataSize - 8) + WAVE_ID
  }

  /** The `fmt ` chunk for 16-bit PCM: 24 bytes, in two halves of 12. */
  function FmtChunk(channels: int, rate: int): (r: seq<byte>)
    ensures |r| == 24
  {
    FmtHead(channels) + FmtTail(channels, rate)
  }

  /** The chunk's code and size, the format tag and the channel count. */
  function FmtHead(channels: int): (r: seq<byte>)
    ensures |r| == 12
  {
    FMT_ID + Le32(FMT_CHUNK_SIZE) + Le16(WAVE_FORMAT_PCM) + Le16(channels)
  }

  /** The sample rate, byte rate, block alignment and sample width. */
  function FmtTail(channels: int, rate: int): (r: seq<byte>)
    ensures |r| == 12
  {
    Le32(rate) + Le32(rate * channels * 2) + Le16(channels * 2) + Le16(BITS_PER_SAMPLE)
  }

  /** The `data` chunk header: 8 bytes. */
  function DataChunk(dataSize: int): (r: seq<byte>)
    ensures |r| == 8
  {
    DATA_ID + Le32(dataSize)
  }

  /** The 44 header bytes, in the order they are stored. */
  function Header(channels: int, rate: int, dataSize: int): (r: seq<byte>)
    ensures |r| == HEADER_SIZE
  {
    RiffChunk(dataSize) + FmtChunk(channels, rate) + DataChunk(dataSize)
  }

  /** The whole image: header, then the samples' bytes. */
  function Image(channels: int, rate: int, pcm: seq<int>): (r: seq<byte>)
    ensures |r| == HEADER_SIZE + 2 * |pcm|
  {
    Header(channels, rate, 2 * |pcm|) + ShortsToBytes(pcm)
  }

  /** What a reader of the image recovers. */
  datatype WavInfo = WavInfo(channels: nat, rate: nat, dataSize: nat, pcm: seq<int>)

  /** The `RIFF` header of an image of `total` bytes: the codes, and a
      chunk size of the bytes after that field. */
  predicate RiffValid(riff: seq<byte>, total: nat)
    requires |riff| == 12
  {
    riff[0..4] == RIFF_ID && U32(riff, 4) + 8 == total && riff[8..12] == WAVE_ID
  }

  /** A `fmt ` chunk for 16-bit PCM whose byte rate and block alignment
      agree with its channel count and sample rate. */
  predicate FmtValid(fmt: seq<byte>)
    requires |fmt| == 24
  {
    && fmt[0..4] == FMT_ID && U32(fmt, 4) == FMT_CHUNK_SIZE && U16(fmt, 8) == WAVE_FORMAT_PCM
    && U32(fmt, 16) == U32(fmt, 12) * U16(fmt, 10) * 2 && U16(fmt, 20) == U16(fmt, 10) * 2
    && U16(fmt, 22) == BITS_PER_SAMPLE
  }

  /** A `data` chunk header whose size covers the rest of the image. */
  predicate DataValid(data: seq<byte>, total: nat)
    requires |data| == 8
  {
    data[0..4] == DATA_ID && U32(data, 4) + HEADER_SIZE == total
  }

  /** The reader of the canonical 44-byte-header PCM layout: the three
      chunks' checks, then the format fields and the samples read back. */
  function Parse(b: seq<byte>): Option<WavInfo> {
    if |b| < HEADER_SIZE then None
    else
      var riff, fmt, data := b[..12], b[12..36], b[36..HEADER_SIZE];
      if !(RiffValid(riff, |b|) && FmtValid(fmt) && DataValid(data, |b|)) then None
      else Some(WavInfo(U16(fmt, 10), U32(fmt, 12), U32(data, 4), BytesToShorts(b[HEADER_SIZE..])))
  }

  /** A stored field that fits its width loads back unchanged. */
  lemma Load16(b: seq<byte>, at: nat, v: nat)
    requires v < 0x1_0000
    requires at + 2 <= |b| && b[at..at + 2] == Le16(v)
    ensures U16(b, at) == v
  {
    Le16Load(v);
    assert U16(b, at) == U16(Le16(v), 0);
  }

  lemma Load32(b: seq<byte>, at: nat, v: nat)
    requires v < 0x1_0000_0000
    requires at + 4 <= |b| && b[at..at + 4] == Le32(v)
    ensures U32(b, at) == v
  {
    Le32Load(v);
    assert U32(b, at) == U32(Le32(v), 0);
  }

  /** The `RIFF` header reads back with the size written. */
  lemma RiffReadBack(dataSize: nat)
    requires HEADER_SIZE + dataSize < 0x8000_0000
    ensures RiffValid(RiffChunk(dataSize), HEADER_SIZE + dataSize)
  {
    var r := RiffChunk(dataSize);
    assert r[4..8] == Le32(HEADER_SIZE + dataSize - 8);
    Load32(r, 4, HEADER_SIZE + dataSize - 8);
  }

  /** A load from the second of two concatenated parts. */
  lemma ShiftU16(x: seq<byte>, y: seq<byte>, at: nat)
    requires at + 2 <= |y|
    ensures U16(x + y, |x| + at) == U16(y, at)
  {
    assert (x + y)[|x| + at] == y[at] && (x + y)[|x| + at + 1] == y[at + 1];
  }

  lemma ShiftU32(x: seq<byte>, y: seq<byte>, at: nat)
    requires at + 4 <= |y|
    ensures U32(x + y, |x| + at) == U32(y, at)
  {
    ShiftU16(x, y, at);
    ShiftU16(x, y, at + 2);
  }

  /** The first half of the `fmt ` chunk reads back. */
  lemma FmtHeadReadBack(channels: nat)
    requires channels < 0x1_0000
    ensures var h := FmtHead(channels);
      h[0..4] == FMT_ID && U32(h, 4) == FMT_CHUNK_SIZE && U16(h, 8) == WAVE_FORMAT_PCM
      && U16(h, 10) == channels
  {
    var h := FmtHead(channels);
    var front := FMT_ID + Le32(FMT_CHUNK_SIZE) + Le16(WAVE_FORMAT_PCM);
    assert h == front + Le16(channels) && |front| == 10;
    assert h[4..8] == front[4..8] == Le32(FMT_CHUNK_SIZE);
    assert h[8..10] == front[8..10] == Le16(WAVE_FORMAT_PCM);
    assert h[10..12] == Le16(channels);
    Load32(h, 4, FMT_CHUNK_SIZE);
    Load16(h, 8, WAVE_FORMAT_PCM);
    Load16(h, 10, channels);
  }

  /** The second half of the `fmt ` chunk reads back. */
  lemma FmtTailReadBack(channels: nat, rate: nat)
    requires 2 * channels < 0x1_0000 && rate < 0x1_0000_0000
    requires rate * channels * 2 < 0x8000_0000
    ensures var t := FmtTail(channels, rate);
      U32(t, 0) == rate && U32(t, 4) == rate * channels * 2 && U16(t, 8) == channels * 2
      && U16(t, 10) == BITS_PER_SAMPLE
  {
    var t := FmtTail(channels, rate);
    var front := Le32(rate) + Le32(rate * channels * 2);
    assert t == front + Le16(channels * 2) + Le16(BITS_PER_SAMPLE) && |front| == 8;
    assert t[0..4] == front[0..4] == Le32(rate);
    assert t[4..8] == Le32(rate * channels * 2);
    assert t[8..10] == Le16(channels * 2);
    assert t[10..12] == Le16(BITS_PER_SAMPLE);
    Load32(t, 0, rate);
    Load32(t, 4, rate * channels * 2);
    Load16(t, 8, channels * 2);
    Load16(t, 10, BITS_PER_SAMPLE);
  }

  /** The `fmt ` chunk reads back with the channel count and rate written,
      whenever they fit their widths. */
  lemma FmtReadBack(channels: nat, rate: nat)
    requires 2 * channels < 0x1_0000 && rate < 0x1_0000_0000
    requires rate * channels * 2 < 0x8000_0000
    ensures var f := FmtChunk(channels, rate);
      FmtValid(f) && U16(f, 10) == channels && U32(f, 12) == rate
  {
    var h, t := FmtHead(channels), FmtTail(channels, rate);
    var f := h + t;
    FmtHeadReadBack(channels);
    FmtTailReadBack(channels, rate);
    assert f[0..4] == h[0..4];
    assert U32(f, 4) == U32(h, 4) && U16(f, 8) == U16(h, 8) && U16(f, 10) == U16(h, 10);
    ShiftU32(h, t, 0);
    ShiftU32(h, t, 4);
    ShiftU16(h, t, 8);
    ShiftU16(h, t, 10);
  }

  /** The `data` header reads back with the size written. */
  lemma DataReadBack(dataSize: nat)
    requires HEADER_SIZE + dataSize < 0x8000_0000
    ensures DataValid(DataChunk(dataSize), HEADER_SIZE + dataSize) && U32(DataChunk(dataSize), 4) == dataSize
  {
    var d := DataChunk(dataSize);
    assert d[4..8] == Le32(dataSize);
    Load32(d, 4, dataSize);
  }

  /** Reading the image back yields exactly the channel count, the rate, the
      data size 2 * samples and the samples, whenever the header's fields
      fit their widths. */
  lemma {:induction false} ImageRoundTrip(channels: nat, rate: nat, pcm: seq<int>)
    requires 2 * channels < 0x1_0000 && rate < 0x1_0000_0000
    requires rate * channels * 2 < 0x8000_0000
    requires HEADER_SIZE + 2 * |pcm| < 0x8000_0000
    requires AllShorts(pcm)
    ensures Parse(Image(channels, rate, pcm)) == Some(WavInfo(channels, rate, 2 * |pcm|, pcm))
  {
    var b := Image(channels, rate, pcm);
    var dataSize := 2 * |pcm|;
    assert b[..12] == RiffChunk(dataSize);
    assert b[12..36] == FmtChunk(channels, rate);
    assert b[36..HEADER_SIZE] == DataChunk(dataSize);
    assert b[HEADER_SIZE..] == ShortsToBytes(pcm);
    RiffReadBack(dataSize);
    FmtReadBack(channels, rate);
    DataReadBack(dataSize);
    ShortsRoundTrip(pcm);
  }

  /** The image `PlayAudio` hands to the player reads back as the decoded
      format and the samples at half volume. */
  lemma PlayedImageRoundTrip(channels: nat, rate: nat, pcm: seq<int>)
    requires 2 * channels < 0x1_0000 && rate < 0x1_0000_0000
    requires rate * channels * 2 < 0x8000_0000
    requires HEADER_SIZE + 2 * |pcm| < 0x8000_0000
    requires AllShorts(pcm)
    ensures Parse(Image(channels, rate, Quieted(pcm)))
      == Some(WavInfo(channels, rate, 2 * |pcm|, Quieted(pcm)))
  {
    forall i | 0 <= i < |pcm|
      ensures IsShort(Quieted(pcm)[i])
    {
      QuieterShrinks(pcm[i]);
    }
    ImageRoundTrip(channels, rate, Quieted(pcm));
  }

  /** `memcpy(p, bytes, n); p += n`. */
  method Put(mem: array<byte>, p: nat, bytes: seq<byte>) returns (q: nat)
    requires p + |bytes| <= mem.Length
    modifies mem
    ensures q == p + |bytes|
    ensures mem[..q] == old(mem[..p]) + bytes
  {
    var j := 0;
    while j < |bytes|
      invariant 0 <= j <= |bytes|
      invariant mem[..p + j] == old(mem[..p]) + bytes[..j]
    {
      mem[p + j] := bytes[j];
      assert mem[..p + j + 1] == mem[..p + j] + [bytes[j]];
      assert bytes[..j + 1] == bytes[..j] + [bytes[j]];
      j := j + 1;
    }
    assert bytes[..|bytes|] == bytes;
    q := p + |bytes|;
  }

  /** The volume loop: every sample replaced by its quieter value, in place. */
  method HalveVolume(pcm: array<int>, samples: nat)
    requires samples <= pcm.Length
    modifies pcm
    ensures pcm[..samples] == Quieted(old(pcm[..samples]))
    ensures pcm[samples..] == old(pcm[samples..])
  {
    var i := 0;
    while i < samples
      invariant 0 <= i <= samples
      invariant forall k :: 0 <= k < i ==> pcm[k] == Quieter(old(pcm[k]))
      invariant forall k :: i <= k < pcm.Length ==> pcm[k] == old(pcm[k])
    {
      pcm[i] := Quieter(pcm[i]);
      i := i + 1;
    }
  }

  /** The stores of the `RIFF` header through the advancing pointer `p`. */
  method PutRiff(mem: array<byte>, p: nat, dataSize: int) returns (q: nat)
    requires p + 12 <= mem.Length
    modifies mem
    ensures q == p + 12 && mem[..q] == old(mem[..p]) + RiffChunk(dataSize)
  {
    var totalSize := HEADER_SIZE + dataSize;
    ghost var written := mem[..p];
    q := Put(mem, p, RIFF_ID);
    written := written + RIFF_ID;
    q := Put(mem, q, Le32(totalSize - 8));
    written := written + Le32(totalSize - 8);
    assert mem[..q] == written;
    q := Put(mem, q, WAVE_ID);
    assert mem[..q] == written + WAVE_ID;
  }

  /** The stores of the `fmt ` chunk, half by half. */
  method PutFmt(mem: array<byte>, p: nat, channels: int, rate: int) returns (q: nat)
    requires p + 24 <= mem.Length
    modifies mem
    ensures q == p + 24 && mem[..q] == old(mem[..p]) + FmtChunk(channels, rate)
  {
    ghost var written := mem[..p];
    q := PutFmtHead(mem, p, channels);
    assert mem[..q] == written + FmtHead(channels);
    q := PutFmtTail(mem, q, channels, rate);
    assert mem[..q] == written + FmtHead(channels) + FmtTail(channels, rate);
  }

  method PutFmtHead(mem: array<byte>, p: nat, channels: int) returns (q: nat)
    requires p + 12 <= mem.Length
    modifies mem
    ensures q == p + 12 && mem[..q] == old(mem[..p]) + FmtHead(channels)
  {
    ghost var written := mem[..p];
    q := Put(mem, p, FMT_ID);
    written := written + FMT_ID;
    q := Put(mem, q, Le32(FMT_CHUNK_SIZE));
    written := written + Le32(FMT_CHUNK_SIZE);
    assert mem[..q] == written;
    q := Put(mem, q, Le16(WAVE_FORMAT_PCM));
    written := written + Le16(WAVE_FORMAT_PCM);
    assert mem[..q] == written;
    q := Put(mem, q, Le16(channels));
    written := written + Le16(channels);
    assert mem[..q] == written;
  }

  method PutFmtTail(mem: array<byte>, p: nat, channels: int, rate: int) returns (q: nat)
    requires p + 12 <= mem.Length
    modifies mem
    ensures q == p + 12 && mem[..q] == old(mem[..p]) + FmtTail(channels, rate)
  {
    ghost var written := mem[..p];
    q := Put(mem, p, Le32(rate));
    written := written + Le32(rate);
    q := Put(mem, q, Le32(rate * channels * 2));
    written := written + Le32(rate * channels * 2);
    assert mem[..q] == written;
    q := Put(mem, q, Le16(channels * 2));
    written := written + Le16(channels * 2);
    assert mem[..q] == written;
    q := Put(mem, q, Le16(BITS_PER_SAMPLE));
    written := written + Le16(BITS_PER_SAMPLE);
    assert mem[..q] == written;
  }

  /** The stores of the `data` chunk header. */
  method PutData(mem: array<byte>, p: nat, dataSize: int) returns (q: nat)
    requires p + 8 <= mem.Length
    modifies mem
    ensures q == p + 8 && mem[..q] == old(mem[..p]) + DataChunk(dataSize)
  {
    ghost var written := mem[..p];
    q := Put(mem, p, DATA_ID);
    written := written + DATA_ID;
    q := Put(mem, q, Le32(dataSize));
    assert mem[..q] == written + Le32(dataSize);
  }

  /** The header's stores, chunk by chunk. */
  method PutHeader(mem: array<byte>, channels: int, rate: int, dataSize: int) returns (p: nat)
    requires HEADER_SIZE <= mem.Length
    modifies mem
    ensures p == HEADER_SIZE
    ensures mem[..p] == Header(channels, rate, dataSize)
  {
    p := PutRiff(mem, 0, dataSize);
    assert mem[..p] == RiffChunk(dataSize);
    p := PutFmt(mem, p, channels, rate);
    assert mem[..p] == RiffChunk(dataSize) + FmtChunk(channels, rate);
    p := PutData(mem, p, dataSize);
  }

  /** The header writes through the advancing pointer, then the samples. */
  method Build(mem: array<byte>, channels: int, rate: int, pcm: array<int>, samples: nat)
    requires samples <= pcm.Length && mem.Length == HEADER_SIZE + 2 * samples
    requires mem != pcm as object
    modifies mem
    ensures mem[..] == Image(channels, rate, pcm[..samples])
  {
    var dataSize := samples * 2;
    var totalSize := HEADER_SIZE + dataSize;
    var p := PutHeader(mem, channels, rate, dataSize);
    ghost var header := Header(channels, rate, dataSize);
    var i := 0;
    while i < samples
      invariant 0 <= i <= samples
      invariant p == HEADER_SIZE + 2 * i
      invariant mem[..p] == header + ShortsToBytes(pcm[..i])
    {
      p := Put(mem, p, Le16(pcm[i]));
      ShortsToBytesAppend(pcm[..i], pcm[i]);
      assert pcm[..i + 1] == pcm[..i] + [pcm[i]];
      i := i + 1;
    }
    assert mem[..] == mem[..p];
  }
}
