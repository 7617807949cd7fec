/** The microphone test's sample, from the core's WAV encoder through base64 text to the
    renderer-side validator that must accept it. */
module WavSample {
  import opened Arith
  import opened Common

  const SAMPLE_RATE_HZ: nat := 16000
  const MAX_SAMPLE_COUNT: nat := 80000
  const HEADER_BYTES: nat := 44
  const MAX_BASE64_CHARS: nat := 213392

  type Bytes = seq<Byte>
  type Sample = s: int | -32768 <= s <= 32767

  // ---- Little-endian fields ----

  function U16(n: nat): (field: Bytes)
    requires n <= U16_MAX
    ensures |field| == 2
  {
    [n % 256, n / 256]
  }

  function U32(n: nat): (field: Bytes)
    requires n <= U32_MAX
    ensures |field| == 4
  {
    U16(n % 65536) + U16(n / 65536)
  }

  function Join16(low: Byte, high: Byte): nat {
    var l: int, h: int := low, high;
    l + 256 * h
  }

  function ReadU16(bytes: Bytes, at: nat): nat
    requires at + 2 <= |bytes|
  {
    Join16(bytes[at], bytes[at + 1])
  }

  function ReadU32(bytes: Bytes, at: nat): nat
    requires at + 4 <= |bytes|
  {
    ReadU16(bytes, at) + 65536 * ReadU16(bytes, at + 2)
  }

  lemma JoinsExactly(low: Byte, high: Byte, n: nat)
    requires n <= U16_MAX
    ensures Join16(low, high) <= U16_MAX
    ensures Join16(low, high) == n <==> [low, high] == U16(n)
  {
    if Join16(low, high) == n {
      DivModUnique(n, 256, high, low);
    }
  }

  /** Reading a field gives a number exactly when the field's bytes are that number's. */
  lemma Reads16Exactly(bytes: Bytes, at: nat, n: nat)
    requires at + 2 <= |bytes| && n <= U16_MAX
    ensures ReadU16(bytes, at) <= U16_MAX
    ensures ReadU16(bytes, at) == n <==> bytes[at..at + 2] == U16(n)
  {
    JoinsExactly(bytes[at], bytes[at + 1], n);
    assert bytes[at..at + 2] == [bytes[at], bytes[at + 1]];
  }

  lemma Reads32Exactly(bytes: Bytes, at: nat, n: nat)
    requires at + 4 <= |bytes| && n <= U32_MAX
    ensures ReadU32(bytes, at) == n <==> bytes[at..at + 4] == U32(n)
  {
    Reads16Exactly(bytes, at, n % 65536);
    Reads16Exactly(bytes, at + 2, n / 65536);
    assert bytes[at..at + 4] == bytes[at..at + 2] + bytes[at + 2..at + 4];
    if ReadU32(bytes, at) == n {
      DivModUnique(n, 65536, ReadU16(bytes, at + 2), ReadU16(bytes, at));
    }
    if bytes[at..at + 4] == U32(n) {
      assert bytes[at..at + 2] == U32(n)[..2] && bytes[at + 2..at + 4] == U32(n)[2..];
    }
  }

  /** A sample in two's complement. */
  function SampleBytes(s: Sample): Bytes { U16(if s < 0 then s + 65536 else s) }

  function ReadSample(low: Byte, high: Byte): Sample {
    var u := Join16(low, high);
    if u < 32768 then u else u - 65536
  }

  function Data(samples: seq<Sample>): Bytes {
    if samples == [] then [] else Data(samples[..|samples| - 1]) + SampleBytes(samples[|samples| - 1])
  }

  function Samples(data: Bytes): seq<Sample>
    requires |data| % 2 == 0
  {
    if data == [] then [] else Samples(data[..|data| - 2]) + [ReadSample(data[|data| - 2], data[|data| - 1])]
  }

  lemma SampleRoundTrip(s: Sample)
    ensures |SampleBytes(s)| == 2 && ReadSample(SampleBytes(s)[0], SampleBytes(s)[1]) == s
  {
    JoinsExactly(SampleBytes(s)[0], SampleBytes(s)[1], if s < 0 then s + 65536 else s);
  }

  lemma BytesRoundTrip(low: Byte, high: Byte)
    ensures SampleBytes(ReadSample(low, high)) == [low, high]
  {
    JoinsExactly(low, high, Join16(low, high));
  }

  lemma SamplesSnoc(data: Bytes, more: Bytes)
    requires |data| % 2 == 0 && |more| == 2
    ensures Samples(data + more) == Samples(data) + [ReadSample(more[0], more[1])]
  {
    hide ReadSample;
    assert (data + more)[..|data|] == data;
  }

  lemma DataSnoc(samples: seq<Sample>, s: Sample)
    ensures Data(samples + [s]) == Data(samples) + SampleBytes(s)
  {
    hide SampleBytes;
    assert (samples + [s])[..|samples|] == samples;
  }

  lemma {:induction false} DataRoundTrip(samples: seq<Sample>)
    ensures |Data(samples)| == 2 * |samples|
    ensures Samples(Data(samples)) == samples
  {
    if samples != [] {
      var n := |samples| - 1;
      DataRoundTrip(samples[..n]);
      SampleRoundTrip(samples[n]);
      hide SampleBytes, ReadSample, Samples;
      SamplesSnoc(Data(samples[..n]), SampleBytes(samples[n]));
      assert samples == samples[..n] + [samples[n]];
    }
  }

  lemma {:induction false} SamplesRoundTrip(data: Bytes)
    requires |data| % 2 == 0
    ensures |Samples(data)| == |data| / 2
    ensures Data(Samples(data)) == data
  {
    if data != [] {
      var n := |data| - 2;
      SamplesRoundTrip(data[..n]);
      BytesRoundTrip(data[n], data[n + 1]);
      assert data == data[..n] + data[n..] && data[n..] == [data[n], data[n + 1]];
      SamplesSnoc(data[..n], data[n..]);
      DataSnoc(Samples(data[..n]), ReadSample(data[n], data[n + 1]));
      hide SampleBytes, ReadSample, Samples, Data;
    }
  }

  // ---- The encoder ----

  const RIFF: Bytes := [0x52, 0x49, 0x46, 0x46]
  const WAVE_FMT: Bytes := [0x57, 0x41, 0x56, 0x45, 0x66, 0x6D, 0x74, 0x20]
  const DATA: Bytes := [0x64, 0x61, 0x74, 0x61]

  function DataSize(count: nat): nat { Min(2 * count, U32_MAX) }

  /** The twelve fields of the header, in order. */
  function HeaderFields(count: nat, rate: nat): seq<Bytes>
    requires rate <= U32_MAX
  {
    [RIFF, U32(Min(36 + DataSize(count), U32_MAX)), WAVE_FMT, U32(16), U16(1), U16(1),
     U32(rate), U32(Min(2 * rate, U32_MAX)), U16(2), U16(16), DATA, U32(DataSize(count))]
  }

  lemma FlattenTwelve(f: seq<Bytes>)
    requires |f| == 12
    ensures Flatten(f) == f[0] + f[1] + f[2] + f[3] + f[4] + f[5] + f[6] + f[7] + f[8] + f[9] + f[10] + f[11]
  {
    FlattenPrefix(f, 4);
    FlattenPrefix(f, 8);
    FlattenPrefix(f, 12);
    assert f[..12] == f;
  }

  lemma FlattenPrefix(f: seq<Bytes>, n: nat)
    requires 4 <= n <= |f|
    ensures Flatten(f[..n]) ==
      (if n == 4 then f[0] else Flatten(f[..n - 4]) + f[n - 4]) + f[n - 3] + f[n - 2] + f[n - 1]
  {
    FlattenLast(f, n);
    FlattenLast(f, n - 1);
    FlattenLast(f, n - 2);
    FlattenLast(f, n - 3);
    assert n == 4 ==> Flatten(f[..0]) + f[0] == f[0];
  }

  lemma FlattenLast(f: seq<Bytes>, n: nat)
    requires 0 < n <= |f|
    ensures Flatten(f[..n]) == Flatten(f[..n - 1]) + f[n - 1]
  {
    assert f[..n] == f[..n - 1] + [f[n - 1]];
    FlattenSnoc(f[..n - 1], f[n - 1]);
  }

  function Header(count: nat, rate: nat): Bytes
    requires rate <= U32_MAX
  {
    Flatten(HeaderFields(count, rate))
  }

  /** pcm16_mono_wav. */
  method Pcm16MonoWav(samples: seq<Sample>, rate: nat) returns (wav: Bytes)
    requires rate <= U32_MAX
    ensures wav == Header(|samples|, rate) + Data(samples[..DataSize(|samples|) / 2])
  {
    var dataSize := Min(2 * |samples|, U32_MAX);
    wav := RIFF;
    wav := wav + U32(Min(36 + dataSize, U32_MAX));
    wav := wav + WAVE_FMT;
    wav := wav + U32(16);
    wav := wav + U16(1);
    wav := wav + U16(1);
    wav := wav + U32(rate);
    wav := wav + U32(Min(2 * rate, U32_MAX));
    wav := wav + U16(2);
    wav := wav + U16(16);
    wav := wav + DATA;
    wav := wav + U32(dataSize);
    FlattenTwelve(HeaderFields(|samples|, rate));
    assert wav == Header(|samples|, rate) + Data(samples[..0]);
    for i := 0 to dataSize / 2
      invariant wav == Header(|samples|, rate) + Data(samples[..i])
    {
      assert samples[..i + 1][..i] == samples[..i];
      wav := wav + SampleBytes(samples[i]);
    }
  }

  function Encoded(samples: seq<Sample>): Bytes {
    Header(|samples|, SAMPLE_RATE_HZ) + Data(samples[..DataSize(|samples|) / 2])
  }

  // ---- The validator of the bytes ----

  /** Decoding a buffer as ASCII drops the top bit of every byte. */
  function Ascii(bytes: Bytes): Bytes { seq(|bytes|, i requires 0 <= i < |bytes| => bytes[i] % 128) }

  /** validPcm16MonoWav. */
  predicate ValidPcm16MonoWav(wav: Bytes, count: nat) {
    && |wav| == HEADER_BYTES + 2 * count
    && Ascii(wav[..4]) == RIFF && ReadU32(wav, 4) == 36 + 2 * count
    && Ascii(wav[8..16]) == WAVE_FMT && ReadU32(wav, 16) == 16
    && ReadU16(wav, 20) == 1 && ReadU16(wav, 22) == 1
    && ReadU32(wav, 24) == SAMPLE_RATE_HZ && ReadU32(wav, 28) == 2 * SAMPLE_RATE_HZ
    && ReadU16(wav, 32) == 2 && ReadU16(wav, 34) == 16
    && Ascii(wav[36..40]) == DATA && ReadU32(wav, 40) == 2 * count
  }

  /** The header's fields as the validator sees them: the text tags without their top bits. */
  function PlainFields(wav: Bytes): seq<Bytes>
    requires HEADER_BYTES <= |wav|
  {
    [Ascii(wav[..4]), wav[4..8], Ascii(wav[8..16]), wav[16..20], wav[20..22], wav[22..24],
     wav[24..28], wav[28..32], wav[32..34], wav[34..36], Ascii(wav[36..40]), wav[40..44]]
  }

  function WithPlainTags(wav: Bytes): Bytes
    requires HEADER_BYTES <= |wav|
  {
    Flatten(PlainFields(wav)) + wav[HEADER_BYTES..]
  }

  /** Every check of the validator together pins every field of the header. */
  lemma HeaderIsPinned(wav: Bytes, count: nat)
    requires |wav| == HEADER_BYTES + 2 * count && 36 + 2 * count <= U32_MAX
    ensures ValidPcm16MonoWav(wav, count) <==> PlainFields(wav) == HeaderFields(count, SAMPLE_RATE_HZ)
  {
    hide U16, U32, ReadU16, ReadU32;
    Reads32Exactly(wav, 4, 36 + 2 * count);
    Reads32Exactly(wav, 16, 16);
    Reads16Exactly(wav, 20, 1);
    Reads16Exactly(wav, 22, 1);
    Reads32Exactly(wav, 24, SAMPLE_RATE_HZ);
    Reads32Exactly(wav, 28, 2 * SAMPLE_RATE_HZ);
    Reads16Exactly(wav, 32, 2);
    Reads16Exactly(wav, 34, 16);
    Reads32Exactly(wav, 40, 2 * count);
    var seen, due := PlainFields(wav), HeaderFields(count, SAMPLE_RATE_HZ);
    assert seen == due <==> forall i :: 0 <= i < 12 ==> seen[i] == due[i];
    if ValidPcm16MonoWav(wav, count) {
      assert seen[0] == due[0] && seen[1] == due[1] && seen[2] == due[2] && seen[3] == due[3];
      assert seen[4] == due[4] && seen[5] == due[5] && seen[6] == due[6] && seen[7] == due[7];
      assert seen[8] == due[8] && seen[9] == due[9] && seen[10] == due[10] && seen[11] == due[11];
    }
    if seen == due {
      assert seen[0] == due[0] && seen[1] == due[1] && seen[2] == due[2] && seen[3] == due[3];
      assert seen[4] == due[4] && seen[5] == due[5] && seen[6] == due[6] && seen[7] == due[7];
      assert seen[8] == due[8] && seen[9] == due[9] && seen[10] == due[10] && seen[11] == due[11];
    }
  }

  lemma {:induction false} SameCut(a: seq<Bytes>, b: seq<Bytes>)
    requires |a| == |b| && forall i :: 0 <= i < |a| ==> |a[i]| == |b[i]|
    ensures |Flatten(a)| == |Flatten(b)|
    ensures Flatten(a) == Flatten(b) <==> a == b
  {
    if a != [] {
      SameCut(a[1..], b[1..]);
      assert a == [a[0]] + a[1..] && b == [b[0]] + b[1..];
      if Flatten(a) == Flatten(b) {
        assert a[0] == Flatten(a)[..|a[0]|] && b[0] == Flatten(b)[..|b[0]|];
        assert Flatten(a[1..]) == Flatten(a)[|a[0]|..] && Flatten(b[1..]) == Flatten(b)[|b[0]|..];
      }
    }
  }

  /** Any bytes that look like an encoder's output, tags aside, have an accepted header. */
  lemma LooksEncoded(wav: Bytes, samples: seq<Sample>)
    requires |wav| == HEADER_BYTES + 2 * |samples| && 36 + 2 * |samples| <= U32_MAX
    requires WithPlainTags(wav) == Encoded(samples)
    ensures PlainFields(wav) == HeaderFields(|samples|, SAMPLE_RATE_HZ)
  {
    var seen, due := PlainFields(wav), HeaderFields(|samples|, SAMPLE_RATE_HZ);
    SameCut(seen, due);
    assert Flatten(seen) == WithPlainTags(wav)[..|Flatten(seen)|];
    assert Flatten(due) == Encoded(samples)[..|Flatten(due)|];
  }

  /** The data of accepted bytes decodes to the samples they encode. */
  lemma AcceptedIsEncoded(wav: Bytes, count: nat) returns (samples: seq<Sample>)
    requires |wav| == HEADER_BYTES + 2 * count && 36 + 2 * count <= U32_MAX
    requires PlainFields(wav) == HeaderFields(count, SAMPLE_RATE_HZ)
    ensures |samples| == count && WithPlainTags(wav) == Encoded(samples)
  {
    hide PlainFields, HeaderFields, Flatten, Data, Samples;
    samples := Samples(wav[HEADER_BYTES..]);
    SamplesRoundTrip(wav[HEADER_BYTES..]);
    assert samples[..DataSize(count) / 2] == samples;
  }

  /** The validator accepts exactly the encoder's outputs, up to the top bits of the three text
      tags, which its ASCII decoding does not see. The number of samples is the one claimed. */
  lemma AcceptsExactlyEncoderOutput(wav: Bytes, count: nat)
    requires 36 + 2 * count <= U32_MAX
    ensures ValidPcm16MonoWav(wav, count) <==>
      |wav| == HEADER_BYTES + 2 * count
      && exists samples: seq<Sample> :: |samples| == count && WithPlainTags(wav) == Encoded(samples)
  {
    if |wav| == HEADER_BYTES + 2 * count {
      HeaderIsPinned(wav, count);
      if ValidPcm16MonoWav(wav, count) {
        var samples := AcceptedIsEncoded(wav, count);
      }
      if samples: seq<Sample> :| |samples| == count && WithPlainTags(wav) == Encoded(samples) {
        LooksEncoded(wav, samples);
      }
    }
  }

  /** The encoder's bytes pass, for any number of samples whose size still fits the header, and
      fail for every larger number. */
  lemma EncoderPassesExactlyWhileSizeFits(samples: seq<Sample>)
    ensures ValidPcm16MonoWav(Encoded(samples), |samples|) <==> 36 + 2 * |samples| <= U32_MAX
  {
    hide Encoded, ValidPcm16MonoWav, PlainFields, HeaderFields;
    EncodedFields(samples);
    if 36 + 2 * |samples| <= U32_MAX {
      HeaderIsPinned(Encoded(samples), |samples|);
    } else {
      FullSizeFieldIsRefused(Encoded(samples), |samples|);
    }
  }

  lemma EncodedFields(samples: seq<Sample>)
    ensures HEADER_BYTES <= |Encoded(samples)|
    ensures 36 + 2 * |samples| <= U32_MAX ==> |Encoded(samples)| == HEADER_BYTES + 2 * |samples|
    ensures PlainFields(Encoded(samples)) == HeaderFields(|samples|, SAMPLE_RATE_HZ)
  {
    hide U16, U32, Header, HeaderFields, Data, PlainFields;
    HeaderLength(|samples|);
    DataRoundTrip(samples[..DataSize(|samples|) / 2]);
    var header := Header(|samples|, SAMPLE_RATE_HZ);
    assert Encoded(samples) == header + Data(samples[..DataSize(|samples|) / 2]);
    assert Encoded(samples)[..HEADER_BYTES] == header;
    PlainFieldsOfHeader(Encoded(samples), |samples|);
  }

  lemma FullSizeFieldIsRefused(wav: Bytes, count: nat)
    requires HEADER_BYTES <= |wav| && U32_MAX < 36 + 2 * count
    requires PlainFields(wav) == HeaderFields(count, SAMPLE_RATE_HZ)
    ensures !ValidPcm16MonoWav(wav, count)
  {
    assert PlainFields(wav)[1] == U32(U32_MAX);
    hide U32, HeaderFields;
    Reads32Exactly(wav, 4, U32_MAX);
  }

  /** And its data decodes to the samples. */
  lemma EncodedDataDecodes(samples: seq<Sample>)
    requires 36 + 2 * |samples| <= U32_MAX
    ensures |Encoded(samples)| == HEADER_BYTES + 2 * |samples|
    ensures Samples(Encoded(samples)[HEADER_BYTES..]) == samples
  {
    hide Header, HeaderFields, Data, Samples;
    HeaderLength(|samples|);
    DataRoundTrip(samples);
    assert samples[..DataSize(|samples|) / 2] == samples;
    assert Encoded(samples)[HEADER_BYTES..] == Data(samples);
  }

  lemma HeaderLength(count: nat)
    ensures |Header(count, SAMPLE_RATE_HZ)| == HEADER_BYTES
  {
    FlattenTwelve(HeaderFields(count, SAMPLE_RATE_HZ));
  }

  /** Cutting an encoded header gives back its fields: its tags are plain ASCII. */
  lemma PlainFieldsOfHeader(wav: Bytes, count: nat)
    requires HEADER_BYTES <= |wav| && wav[..HEADER_BYTES] == Header(count, SAMPLE_RATE_HZ)
    ensures PlainFields(wav) == HeaderFields(count, SAMPLE_RATE_HZ)
  {
    hide U16, U32, Flatten, DataSize;
    var due := HeaderFields(count, SAMPLE_RATE_HZ);
    FlattenTwelve(due);
    var h := wav[..HEADER_BYTES];
    assert wav[..4] == h[..4] == due[0] && wav[4..8] == h[4..8] == due[1] && wav[8..16] == h[8..16] == due[2];
    assert wav[16..20] == h[16..20] == due[3] && wav[20..22] == h[20..22] == due[4];
    assert wav[22..24] == h[22..24] == due[5] && wav[24..28] == h[24..28] == due[6];
    assert wav[28..32] == h[28..32] == due[7] && wav[32..34] == h[32..34] == due[8];
    assert wav[34..36] == h[34..36] == due[9] && wav[36..40] == h[36..40] == due[10];
    assert wav[40..44] == h[40..44] == due[11];
    assert Ascii(RIFF) == RIFF && Ascii(WAVE_FMT) == WAVE_FMT && Ascii(DATA) == DATA;
  }

  /** The slack is real: any encoded sample with the top bit of its first byte set is accepted,
      and is no encoder output at all. */
  lemma TopBitOfTagIsIgnored(samples: seq<Sample>)
    requires 36 + 2 * |samples| <= U32_MAX
    ensures HEADER_BYTES <= |Encoded(samples)|
    ensures var wav := Encoded(samples)[0 := 0xD2];
            ValidPcm16MonoWav(wav, |samples|) && forall other: seq<Sample> :: wav != Encoded(other)
  {
    EncodedFields(samples);
    var plain := Encoded(samples);
    var wav := plain[0 := 0xD2];
    FirstByteIsPlain(samples);
    SameFieldsWithTopBit(plain, wav);
    HeaderIsPinned(wav, |samples|);
    forall other: seq<Sample>
      ensures wav != Encoded(other)
    {
      FirstByteIsPlain(other);
    }
  }

  lemma FirstByteIsPlain(samples: seq<Sample>)
    ensures HEADER_BYTES <= |Encoded(samples)| && Encoded(samples)[0] == 0x52
  {
    FlattenTwelve(HeaderFields(|samples|, SAMPLE_RATE_HZ));
  }

  lemma SameFieldsWithTopBit(plain: Bytes, wav: Bytes)
    requires HEADER_BYTES <= |plain| && plain[0] == 0x52 && wav == plain[0 := 0xD2]
    ensures PlainFields(wav) == PlainFields(plain)
  {
    assert Ascii(wav[..4]) == Ascii(plain[..4]);
    assert forall lo, hi | 4 <= lo <= hi <= |plain| :: wav[lo..hi] == plain[lo..hi];
  }
}
