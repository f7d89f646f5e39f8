/** The audio helpers of frontend/utils/audio-utils.ts and rrfe/app/lib/audio-utils.ts:
    encoding mono float samples as a 16-bit PCM WAVE file (the RIFF "WAVE" form with a
    16-byte "fmt " chunk followed by a "data" chunk, all integers little-endian),
    array concatenation, and float-to-int16 conversion.

    The encoder is checked against an independent decoder that reads each field back
    from its offset. */
module Wav {
  import opened Seqs

  type byte = b: int | 0 <= b < 256

  const HeaderSize: nat := 44
  const TwoTo16: int := 0x1_0000
  const TwoTo32: int := 0x1_0000_0000

  /** `DataView.setUint8` of a character code: the code modulo 256. A `char` here is a
      Unicode scalar value while `charCodeAt` gives UTF-16 code units, so the two agree
      only on characters of the Basic Multilingual Plane; the tags written are ASCII. */
  function WriteString(s: string): (r: seq<byte>)
    ensures |r| == |s|
    ensures forall i :: 0 <= i < |s| ==> r[i] == (s[i] as int) % 256
  {
    if |s| == 0 then [] else WriteString(s[..|s| - 1]) + [(s[|s| - 1] as int) % 256]
  }

  /** `setUint16(_, v, true)`: `v` modulo 2^16, low byte first. */
  function Le16(v: int): (r: seq<byte>)
    ensures |r| == 2
  {
    var u := v % TwoTo16;
    [u % 256, u / 256]
  }

  /** `setUint32(_, v, true)`: `v` modulo 2^32, least significant byte first. */
  function Le32(v: int): (r: seq<byte>)
    ensures |r| == 4
  {
    var u := v % TwoTo32;
    [u % 256, (u / 256) % 256, (u / 0x1_0000) % 256, u / 0x100_0000]
  }

  /** Truncation toward zero, as `setInt16` applies to a fractional value. */
  function Trunc(v: real): (r: int)
    ensures v >= 0.0 ==> r as real <= v < r as real + 1.0
    ensures v < 0.0 ==> r as real - 1.0 < v <= r as real
  {
    if v >= 0.0 then v.Floor else -((-v).Floor)
  }

  /** A sample clamped to [-1, 1], scaled by 32768 when negative and by 32767 otherwise,
      and truncated toward zero. */
  function PcmValue(x: real): (v: int)
    ensures -32768 <= v <= 32767
    ensures x >= 0.0 ==> v >= 0
    ensures x * 32768.0 <= -1.0 ==> v < 0
  {
    var s := if x > 1.0 then 1.0 else if x < -1.0 then -1.0 else x;
    var scaled := if s < 0.0 then s * 32768.0 else s * 32767.0;
    Trunc(scaled)
  }

  /** `setInt16(_, v, true)`: two's complement of `v`, low byte first. */
  function Int16Bytes(v: int): (r: seq<byte>)
    ensures |r| == 2
  {
    Le16(v)
  }

  function Samples(xs: seq<real>): (r: seq<byte>)
    ensures |r| == 2 * |xs|
  {
    if |xs| == 0 then [] else Samples(xs[..|xs| - 1]) + Int16Bytes(PcmValue(xs[|xs| - 1]))
  }

  /** The RIFF chunk header: tag, size of the rest of the file, form type. */
  function RiffHeader(dataSize: int): (r: seq<byte>)
    ensures |r| == 12
  {
    WriteString("RIFF") + Le32(36 + dataSize) + WriteString("WAVE")
  }

  /** The "fmt " chunk of a PCM stream. */
  function FmtChunk(numChannels: nat, sampleRate: nat, bytesPerSample: nat): (r: seq<byte>)
    ensures |r| == 24
  {
    var blockAlign := numChannels * bytesPerSample;
    WriteString("fmt ") + Le32(16) + Le16(1) + Le16(numChannels)
    + (Le32(sampleRate) + Le32(sampleRate * blockAlign) + Le16(blockAlign) + Le16(bytesPerSample * 8))
  }

  /** The "data" chunk header. */
  function DataHeader(dataSize: int): (r: seq<byte>)
    ensures |r| == 8
  {
    WriteString("data") + Le32(dataSize)
  }

  /** `float32ArrayToWav`: the 44-byte header followed by two bytes per sample. */
  function Float32ArrayToWav(xs: seq<real>, sampleRate: nat): (r: seq<byte>)
    ensures |r| == HeaderSize + 2 * |xs|
  {
    var numChannels, bytesPerSample := 1, 2;
    var dataSize := |xs| * numChannels * bytesPerSample;
    RiffHeader(dataSize) + FmtChunk(numChannels, sampleRate, bytesPerSample) + DataHeader(dataSize) + Samples(xs)
  }

  // ---- An independent reader of the format ----

  function ReadU16(b: seq<byte>, off: nat): nat
    requires off + 2 <= |b|
  {
    b[off] as int + 256 * b[off + 1] as int
  }

  function ReadU32(b: seq<byte>, off: nat): nat
    requires off + 4 <= |b|
  {
    b[off] as int + 256 * b[off + 1] as int + 0x1_0000 * b[off + 2] as int + 0x100_0000 * b[off + 3] as int
  }

  function ReadI16(b: seq<byte>, off: nat): int
    requires off + 2 <= |b|
  {
    var u := ReadU16(b, off);
    if u >= 0x8000 then u - TwoTo16 else u
  }

  function ReadTag(b: seq<byte>, off: nat): seq<byte>
    requires off + 4 <= |b|
  {
    b[off..off + 4]
  }

  datatype Header = Header(
    riffSize: nat, formatSize: nat, audioFormat: nat, channels: nat, sampleRate: nat,
    byteRate: nat, blockAlign: nat, bitsPerSample: nat, dataSize: nat)

  /** Reads a header: `None` unless the three chunk tags are in place. */
  function ParseHeader(b: seq<byte>): Option<Header>
  {
    if |b| < HeaderSize then None
    else if ReadTag(b, 0) != WriteString("RIFF") || ReadTag(b, 8) != WriteString("WAVE")
         || ReadTag(b, 12) != WriteString("fmt ") || ReadTag(b, 36) != WriteString("data") then None
    else Some(Header(ReadU32(b, 4), ReadU32(b, 16), ReadU16(b, 20), ReadU16(b, 22), ReadU32(b, 24),
                     ReadU32(b, 28), ReadU16(b, 32), ReadU16(b, 34), ReadU32(b, 40)))
  }

  lemma Le16RoundTrip(b: seq<byte>, off: nat, v: int)
    requires off + 2 <= |b| && b[off..off + 2] == Le16(v)
    ensures ReadU16(b, off) == v % TwoTo16
  {
    assert b[off] == Le16(v)[0] && b[off + 1] == Le16(v)[1];
  }

  lemma Le32RoundTrip(b: seq<byte>, off: nat, v: int)
    requires off + 4 <= |b| && b[off..off + 4] == Le32(v)
    ensures ReadU32(b, off) == v % TwoTo32
  {
    var w := Le32(v);
    assert b[off] == w[0] && b[off + 1] == w[1] && b[off + 2] == w[2] && b[off + 3] == w[3];
    var u := v % TwoTo32;
    var q1 := u / 256;
    var q2 := q1 / 256;
    assert u == u % 256 + 256 * q1;
    assert q1 == q1 % 256 + 256 * q2;
    assert u / 0x1_0000 == q2;
    assert q2 == q2 % 256 + 256 * (q2 / 256);
    assert u / 0x100_0000 == q2 / 256;
  }

  /** Two's complement round trip for every int16 value. */
  lemma Int16RoundTrip(b: seq<byte>, off: nat, v: int)
    requires -32768 <= v <= 32767
    requires off + 2 <= |b| && b[off..off + 2] == Int16Bytes(v)
    ensures ReadI16(b, off) == v
  {
    Le16RoundTrip(b, off, v);
  }

  /** Reading inside the second part of a concatenation. */
  lemma ReadShift(p: seq<byte>, q: seq<byte>, off: nat, width: nat)
    requires off + width <= |q|
    ensures (p + q)[|p| + off..|p| + off + width] == q[off..off + width]
  {
  }

  /** The header of an encoded file reads back as the canonical PCM header: one channel,
      16 bits, block align 2, byte rate twice the sample rate, and sizes that agree with
      the sample count (all sizes modulo 2^32, as `setUint32` stores them). */
  lemma HeaderReadsBack(xs: seq<real>, sampleRate: nat)
    ensures var n := |xs|;
      ParseHeader(Float32ArrayToWav(xs, sampleRate)) == Some(Header(
        (36 + 2 * n) % TwoTo32, 16, 1, 1, sampleRate % TwoTo32,
        (2 * sampleRate) % TwoTo32, 2, 16, (2 * n) % TwoTo32))
  {
    var n := |xs|;
    var b := Float32ArrayToWav(xs, sampleRate);
    assert b == RiffHeader(2 * n) + (FmtChunk(1, sampleRate, 2) + (DataHeader(2 * n) + Samples(xs)));
    HeaderOf(n, sampleRate, Samples(xs));
  }

  /** The three header chunks of a file of `n` samples, followed by any sample bytes. */
  lemma HeaderOf(n: nat, sampleRate: nat, samples: seq<byte>)
    ensures ParseHeader(RiffHeader(2 * n) + (FmtChunk(1, sampleRate, 2) + (DataHeader(2 * n) + samples)))
      == Some(Header(
        (36 + 2 * n) % TwoTo32, 16, 1, 1, sampleRate % TwoTo32,
        (2 * sampleRate) % TwoTo32, 2, 16, (2 * n) % TwoTo32))
  {
    var riff, fmt, data := RiffHeader(2 * n), FmtChunk(1, sampleRate, 2), DataHeader(2 * n);
    var b := riff + (fmt + (data + samples));
    RiffReadsBack(2 * n, riff, fmt + (data + samples), b);
    FmtReadsBack(sampleRate, riff, fmt, data + samples, b);
    assert b == (riff + fmt) + (data + samples);
    DataReadsBack(2 * n, riff + fmt, data, samples, b);
  }

  lemma RiffReadsBack(dataSize: nat, riff: seq<byte>, rest: seq<byte>, b: seq<byte>)
    requires riff == RiffHeader(dataSize) && b == riff + rest && |b| >= HeaderSize
    ensures ReadTag(b, 0) == WriteString("RIFF") && ReadTag(b, 8) == WriteString("WAVE")
    ensures ReadU32(b, 4) == (36 + dataSize) % TwoTo32
  {
    assert b[0..4] == riff[0..4] == WriteString("RIFF");
    assert b[4..8] == riff[4..8] == Le32(36 + dataSize);
    assert b[8..12] == riff[8..12] == WriteString("WAVE");
    Le32RoundTrip(b, 4, 36 + dataSize);
  }

  lemma FmtReadsBack(sampleRate: nat, pre: seq<byte>, fmt: seq<byte>, rest: seq<byte>, b: seq<byte>)
    requires |pre| == 12 && fmt == FmtChunk(1, sampleRate, 2) && b == pre + (fmt + rest)
    ensures ReadTag(b, 12) == WriteString("fmt ")
    ensures ReadU32(b, 16) == 16 && ReadU16(b, 20) == 1 && ReadU16(b, 22) == 1
    ensures ReadU32(b, 24) == sampleRate % TwoTo32 && ReadU32(b, 28) == (2 * sampleRate) % TwoTo32
    ensures ReadU16(b, 32) == 2 && ReadU16(b, 34) == 16
  {
    var head := WriteString("fmt ") + Le32(16) + Le16(1) + Le16(1);
    var rates := Le32(sampleRate) + Le32(sampleRate * 2) + Le16(2) + Le16(16);
    assert fmt == head + rates;
    assert b == pre + (head + (rates + rest));
    FmtHeadReadsBack(pre, head, rates + rest, b);
    assert b == (pre + head) + (rates + rest);
    FmtRatesReadBack(sampleRate, pre + head, rates, rest, b);
  }

  /** The first half of the "fmt " chunk: tag, chunk size, PCM format, one channel. */
  lemma FmtHeadReadsBack(pre: seq<byte>, head: seq<byte>, rest: seq<byte>, b: seq<byte>)
    requires |pre| == 12 && head == WriteString("fmt ") + Le32(16) + Le16(1) + Le16(1)
    requires b == pre + (head + rest)
    ensures ReadTag(b, 12) == WriteString("fmt ")
    ensures ReadU32(b, 16) == 16 && ReadU16(b, 20) == 1 && ReadU16(b, 22) == 1
  {
    var q := head + rest;
    ReadShift(pre, q, 0, 4);
    ReadShift(pre, q, 4, 4);
    ReadShift(pre, q, 8, 2);
    ReadShift(pre, q, 10, 2);
    assert q[0..4] == WriteString("fmt ");
    assert q[4..8] == Le32(16);
    assert q[8..10] == Le16(1);
    assert q[10..12] == Le16(1);
    Le32RoundTrip(b, 16, 16);
    Le16RoundTrip(b, 20, 1);
    Le16RoundTrip(b, 22, 1);
  }

  /** The second half: sample rate, byte rate, block align, bits per sample. */
  lemma FmtRatesReadBack(sampleRate: nat, pre: seq<byte>, rates: seq<byte>, rest: seq<byte>, b: seq<byte>)
    requires |pre| == 24 && rates == Le32(sampleRate) + Le32(sampleRate * 2) + Le16(2) + Le16(16)
    requires b == pre + (rates + rest)
    ensures ReadU32(b, 24) == sampleRate % TwoTo32 && ReadU32(b, 28) == (2 * sampleRate) % TwoTo32
    ensures ReadU16(b, 32) == 2 && ReadU16(b, 34) == 16
  {
    var q := rates + rest;
    ReadShift(pre, q, 0, 4);
    ReadShift(pre, q, 4, 4);
    ReadShift(pre, q, 8, 2);
    ReadShift(pre, q, 10, 2);
    assert q[0..4] == Le32(sampleRate);
    assert q[4..8] == Le32(sampleRate * 2);
    assert q[8..10] == Le16(2);
    assert q[10..12] == Le16(16);
    Le32RoundTrip(b, 24, sampleRate);
    Le32RoundTrip(b, 28, sampleRate * 2);
    Le16RoundTrip(b, 32, 2);
    Le16RoundTrip(b, 34, 16);
  }

  lemma DataReadsBack(dataSize: nat, pre: seq<byte>, data: seq<byte>, rest: seq<byte>, b: seq<byte>)
    requires |pre| == 36 && data == DataHeader(dataSize) && b == pre + (data + rest)
    ensures ReadTag(b, 36) == WriteString("data") && ReadU32(b, 40) == dataSize % TwoTo32
  {
    var q := data + rest;
    ReadShift(pre, q, 0, 4);
    ReadShift(pre, q, 4, 4);
    assert q[0..4] == WriteString("data");
    assert q[4..8] == Le32(dataSize);
    Le32RoundTrip(b, 40, dataSize);
  }

  /** Sample `i` sits at byte `2 * i` of the sample data. */
  lemma {:induction false} SampleAt(xs: seq<real>, i: nat)
    requires i < |xs|
    ensures Samples(xs)[2 * i..2 * i + 2] == Int16Bytes(PcmValue(xs[i]))
    decreases |xs|
  {
    var k := |xs| - 1;
    if i < k {
      SampleAt(xs[..k], i);
      assert Samples(xs)[2 * i..2 * i + 2] == Samples(xs[..k])[2 * i..2 * i + 2];
    }
  }

  /** Every sample reads back, at byte 44 + 2i, as its clamped, scaled and truncated value. */
  lemma SamplesReadBack(xs: seq<real>, sampleRate: nat, i: nat)
    requires i < |xs|
    ensures ReadI16(Float32ArrayToWav(xs, sampleRate), HeaderSize + 2 * i) == PcmValue(xs[i])
  {
    var b := Float32ArrayToWav(xs, sampleRate);
    SampleAt(xs, i);
    assert b == (RiffHeader(2 * |xs|) + FmtChunk(1, sampleRate, 2) + DataHeader(2 * |xs|)) + Samples(xs);
    assert b[HeaderSize..] == Samples(xs);
    assert b[HeaderSize + 2 * i..HeaderSize + 2 * i + 2] == Samples(xs)[2 * i..2 * i + 2];
    Int16RoundTrip(b, HeaderSize + 2 * i, PcmValue(xs[i]));
  }

  /** The scaling is asymmetric: full scale maps to the int16 extremes and the conversion
      never decreases. */
  lemma PcmValueShape(x: real, y: real)
    ensures PcmValue(1.0) == 32767 && PcmValue(-1.0) == -32768 && PcmValue(0.0) == 0
    ensures x <= y ==> PcmValue(x) <= PcmValue(y)
  {
  }

  /** `concatenateFloat32Arrays(arrays)`: each array is copied at the running offset. */
  method ConcatenateArrays(arrays: seq<seq<real>>) returns (result: seq<real>)
    ensures |result| == TotalLength(arrays)
    ensures result == Flatten(arrays)
  {
    FlattenLength(arrays);
    result := [];
    var offset := 0;
    var k := 0;
    while k < |arrays|
      invariant 0 <= k <= |arrays|
      invariant offset == |result|
      invariant result == Flatten(arrays[..k])
    {
      assert arrays[..k + 1][..k] == arrays[..k];
      result := result + arrays[k];
      offset := offset + |arrays[k]|;
      k := k + 1;
    }
    assert arrays[..k] == arrays;
  }

  /** `concatenateFloat32Arrays(a, b)`: `a` at offset 0 and `b` after it. */
  function Concatenate2(a: seq<real>, b: seq<real>): (r: seq<real>)
    ensures |r| == |a| + |b| && r[..|a|] == a && r[|a|..] == b
  {
    seq(|a| + |b|, i requires 0 <= i < |a| + |b| => if i < |a| then a[i] else b[i - |a|])
  }

  /** JavaScript's `Math.round`: the nearest integer, halves rounded up. */
  function Round(v: real): (r: int)
    ensures v - 0.5 < r as real <= v + 0.5
  {
    (v + 0.5).Floor
  }

  /** `convertFloat32ArrayToInt16Array`. */
  function ToInt16(x: real): (v: int)
    ensures -32768 <= v <= 32767
  {
    var r := Round(x * 32767.0);
    if r > 32767 then 32767 else if r < -32768 then -32768 else r
  }

  function ConvertToInt16Array(xs: seq<real>): (r: seq<int>)
    ensures |r| == |xs|
    ensures forall i :: 0 <= i < |xs| ==> r[i] == ToInt16(xs[i])
  {
    seq(|xs|, i requires 0 <= i < |xs| => ToInt16(xs[i]))
  }

  /** Within full scale the conversion is rounding to the nearest step, and out of it
      saturates at the int16 bounds. */
  lemma ToInt16Accuracy(x: real)
    ensures -1.0 <= x <= 1.0 ==> x * 32767.0 - 0.5 < ToInt16(x) as real <= x * 32767.0 + 0.5
    ensures x > 1.0 ==> ToInt16(x) == 32767
    ensures x < -1.0 ==> ToInt16(x) <= -32767
  {
  }
}
