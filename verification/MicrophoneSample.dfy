/** The microphone test's sample end to end: what mic_test_sample answers, and the validator
    that decides whether the renderer sees it. */
module MicrophoneSample {
  import opened WavSample
  import B = Base64
  import M = MicrophoneProbe

  /** The parts of the answer that vary; the validator compares the others with constants. */
  datatype Answer = Answer(
    sampleRateHz: nat,
    channelCount: nat,
    bitsPerSample: nat,
    sampleCount: nat,
    durationMs: nat,
    byteCount: nat,
    dataBase64: string,
    bufferCleared: bool,
    maxDurationMs: nat)

  /** mic_test_sample, for the samples taken from the ring. */
  function MicTestSample(samples: seq<Sample>): Answer {
    var wav := Encoded(samples);
    Answer(SAMPLE_RATE_HZ, 1, 16, |samples|, |samples| * 1000 / SAMPLE_RATE_HZ, |wav|, B.Encode(wav), true, 5000)
  }

  /** validStandardBase64. */
  predicate ValidStandardBase64(text: string) {
    0 < |text| <= MAX_BASE64_CHARS && |text| % 4 == 0 && B.Shape(text)
  }

  /** microphoneTestSampleResultSchema: the decoded bytes must re-encode to the very text. */
  predicate Accepts(a: Answer) {
    && a.sampleRateHz == SAMPLE_RATE_HZ && a.channelCount == 1 && a.bitsPerSample == 16
    && a.sampleCount <= MAX_SAMPLE_COUNT
    && a.durationMs == a.sampleCount * 1000 / SAMPLE_RATE_HZ
    && a.byteCount == HEADER_BYTES + 2 * a.sampleCount
    && a.bufferCleared && a.maxDurationMs == 5000
    && ValidStandardBase64(a.dataBase64)
    && var wav := B.Decode(a.dataBase64);
       |wav| == a.byteCount && B.Encode(wav) == a.dataBase64 && ValidPcm16MonoWav(wav, a.sampleCount)
  }

  /** The text of an encoder's output never exceeds the limit, which the largest one meets. */
  lemma TextLength(samples: seq<Sample>)
    requires |samples| <= MAX_SAMPLE_COUNT
    ensures 0 < |B.Encode(Encoded(samples))| <= MAX_BASE64_CHARS
    ensures |B.Encode(Encoded(samples))| % 4 == 0
    ensures |samples| == MAX_SAMPLE_COUNT ==> |B.Encode(Encoded(samples))| == MAX_BASE64_CHARS
  {
    EncodedDataDecodes(samples);
    hide Encoded, B.Encode, B.Shape, B.Decode;
    B.EncodeDecode(Encoded(samples));
    QuarterTextLength(HEADER_BYTES + 2 * |samples|);
  }

  lemma QuarterTextLength(bytes: nat)
    requires HEADER_BYTES <= bytes <= HEADER_BYTES + 2 * MAX_SAMPLE_COUNT
    ensures 0 < (bytes + 2) / 3 * 4 <= MAX_BASE64_CHARS && (bytes + 2) / 3 * 4 % 4 == 0
    ensures bytes == HEADER_BYTES + 2 * MAX_SAMPLE_COUNT ==> (bytes + 2) / 3 * 4 == MAX_BASE64_CHARS
  {}

  /** Every answer about up to 80,000 samples is accepted, and its text decodes back to the
      encoder's bytes; an answer about more is refused. */
  lemma AnswerAcceptedExactlyUpToLimit(samples: seq<Sample>)
    ensures B.Shape(MicTestSample(samples).dataBase64)
    ensures B.Decode(MicTestSample(samples).dataBase64) == Encoded(samples)
    ensures Accepts(MicTestSample(samples)) <==> |samples| <= MAX_SAMPLE_COUNT
  {
    hide Encoded, B.Encode, B.Shape, B.Decode, ValidPcm16MonoWav;
    B.EncodeDecode(Encoded(samples));
    if |samples| <= MAX_SAMPLE_COUNT {
      TextLength(samples);
      EncodedDataDecodes(samples);
      EncoderPassesExactlyWhileSizeFits(samples);
    }
  }

  /** The core's answer about these samples, with these bytes for the encoder's, tags aside. */
  ghost predicate Answers(a: Answer, wav: Bytes, samples: seq<Sample>) {
    && |samples| <= MAX_SAMPLE_COUNT && HEADER_BYTES <= |wav| && WithPlainTags(wav) == Encoded(samples)
    && a == MicTestSample(samples).(dataBase64 := B.Encode(wav))
  }

  /** And from the other side: every accepted answer is the core's about some samples, its text the
      encoding of bytes that are the encoder's output, text tags aside. */
  lemma AcceptedAnswerIsEncoded(a: Answer) returns (wav: Bytes, samples: seq<Sample>)
    requires Accepts(a)
    ensures Answers(a, wav, samples)
  {
    hide Encoded, WithPlainTags, B.Encode, B.Decode, B.Shape, ValidPcm16MonoWav;
    wav := B.Decode(a.dataBase64);
    AcceptsExactlyEncoderOutput(wav, a.sampleCount);
    samples :| |samples| == a.sampleCount && WithPlainTags(wav) == Encoded(samples);
    EncodedDataDecodes(samples);
  }

  lemma PlainTagsKeepLength(wav: Bytes)
    requires HEADER_BYTES <= |wav|
    ensures |WithPlainTags(wav)| == |wav|
  {
    FlattenTwelve(PlainFields(wav));
  }

  lemma AnswersAreAccepted(a: Answer, wav: Bytes, samples: seq<Sample>)
    requires Answers(a, wav, samples)
    ensures Accepts(a)
  {
    hide Encoded, WithPlainTags, B.Encode, B.Decode, B.Shape, ValidPcm16MonoWav;
    PlainTagsKeepLength(wav);
    EncodedDataDecodes(samples);
    AcceptsExactlyEncoderOutput(wav, |samples|);
    B.EncodeDecode(wav);
    QuarterTextLength(HEADER_BYTES + 2 * |samples|);
  }

  /** So the validator accepts the core's answers, field by field, and nothing else. */
  lemma AcceptedExactly(a: Answer)
    ensures Accepts(a) <==> exists wav: Bytes, samples: seq<Sample> :: Answers(a, wav, samples)
  {
    hide Accepts, Answers;
    if wav: Bytes, samples: seq<Sample> :| Answers(a, wav, samples) {
      AnswersAreAccepted(a, wav, samples);
    }
    if Accepts(a) {
      var wav, samples := AcceptedAnswerIsEncoded(a);
    }
  }

  // ---- From the probe ----

  lemma {:induction false} FramesInRange(data: seq<real>, channels: nat)
    requires 0 < channels
    ensures forall k :: 0 <= k < |M.FramesOf(data, channels)| ==>
              -32767 <= M.Pcm(M.FramesOf(data, channels)[k]) <= 32767
    decreases |data|
  {
    if channels <= |data| {
      M.PcmFitsSixteenBits(data[..channels]);
      FramesInRange(data[channels..], channels);
    }
  }

  lemma {:induction false} EmittedInRange(frames: seq<real>, rate: nat)
    requires 0 < rate && forall k :: 0 <= k < |frames| ==> -32767 <= M.Pcm(frames[k]) <= 32767
    ensures forall k :: 0 <= k < |M.Emitted(frames, rate)| ==> -32767 <= M.Emitted(frames, rate)[k] <= 32767
  {
    if frames != [] { EmittedInRange(frames[..|frames| - 1], rate); }
  }

  /** Whatever the callbacks delivered, at whatever rate and channel count, the sample taken from
      the ring is one the validator accepts. */
  lemma ProbeSampleIsAccepted(buffers: seq<seq<real>>, channels: nat, rate: nat) returns (samples: seq<Sample>)
    requires 0 < channels && 0 < rate
    ensures samples == M.LastOf(M.Emitted(M.HeardFrom(buffers, channels), rate), M.MIC_TEST_MAX_SAMPLES)
    ensures Accepts(MicTestSample(samples))
  {
    var frames := M.HeardFrom(buffers, channels);
    HeardInRange(buffers, channels);
    EmittedInRange(frames, rate);
    var ring := M.LastOf(M.Emitted(frames, rate), M.MIC_TEST_MAX_SAMPLES);
    samples := ring;
    AnswerAcceptedExactlyUpToLimit(samples);
  }

  lemma {:induction false} HeardInRange(buffers: seq<seq<real>>, channels: nat)
    requires 0 < channels
    ensures forall k :: 0 <= k < |M.HeardFrom(buffers, channels)| ==>
              -32767 <= M.Pcm(M.HeardFrom(buffers, channels)[k]) <= 32767
  {
    if buffers != [] {
      FramesInRange(buffers[0], channels);
      HeardInRange(buffers[1..], channels);
    }
  }
}
