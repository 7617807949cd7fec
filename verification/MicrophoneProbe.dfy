/** The microphone test buffer: mixing down interleaved frames, resampling them to 16 kHz by
    rational accumulation, and keeping the last five seconds in a ring. Samples are reals. */
module MicrophoneProbe {
  import opened Arith
  import opened Common

  const MIC_TEST_SAMPLE_RATE_HZ: nat := 16000
  const MIC_TEST_MAX_SAMPLES: nat := 80000
  const SIGNAL_MEAN_SQUARE: real := 0.0001
  const CLIPPING_THRESHOLD: real := 0.98
  const I16_MAX: real := 32767.0

  // ---- One frame ----

  function Clamp(x: real): real { if x < -1.0 then -1.0 else if x > 1.0 then 1.0 else x }

  function Magnitude(x: real): real { if x < 0.0 then -x else x }

  function ClampedSum(frame: seq<real>): real {
    if frame == [] then 0.0 else ClampedSum(frame[..|frame| - 1]) + Clamp(frame[|frame| - 1])
  }

  function Mono(frame: seq<real>): real
    requires frame != []
  {
    ClampedSum(frame) / (|frame| as real)
  }

  /** Rounds half away from zero. */
  function Round(x: real): int {
    if x >= 0.0 then (x + 0.5).Floor else -((-x + 0.5).Floor)
  }

  function Pcm(mono: real): int { Round(mono * I16_MAX) }

  /** No value within full scale is nearer to a sample than its clamped value. */
  lemma ClampIsNearest(x: real, y: real)
    requires -1.0 <= y <= 1.0
    ensures -1.0 <= Clamp(x) <= 1.0 && Magnitude(Clamp(x) - x) <= Magnitude(y - x)
  {}

  /** Every sample of a frame counts once, wherever it stands. */
  lemma {:induction false} SumOfParts(a: seq<real>, b: seq<real>)
    ensures ClampedSum(a + b) == ClampedSum(a) + ClampedSum(b)
    decreases |b|
  {
    if b == [] {
      assert a + b == a;
    } else {
      var n := |b| - 1;
      assert (a + b)[..|a + b| - 1] == a + b[..n];
      SumOfParts(a, b[..n]);
    }
  }

  lemma SumOfOne(x: real)
    ensures ClampedSum([x]) == Clamp(x)
  {
    assert [x][..0] == [];
  }

  /** The mix is the mean of the clamped samples. */
  lemma MixIsMean(frame: seq<real>)
    requires frame != []
    ensures Mono(frame) * (|frame| as real) == ClampedSum(frame)
  {
    hide ClampedSum;
    QuotientTimes(ClampedSum(frame), |frame| as real);
  }

  lemma QuotientTimes(x: real, n: real)
    requires n > 0.0
    ensures x / n * n == x
  {}

  /** Rounding is to the nearest integer, away from zero at a half, and the same on both sides. */
  lemma RoundIsNearest(x: real)
    ensures -0.5 <= (Round(x) as real) - x <= 0.5
    ensures x >= 0.0 ==> (Round(x) as real) > x - 0.5
    ensures Round(-x) == -Round(x)
  {}

  lemma {:induction false} ClampedSumBounded(frame: seq<real>)
    ensures -(|frame| as real) <= ClampedSum(frame) <= |frame| as real
  {
    if frame != [] { ClampedSumBounded(frame[..|frame| - 1]); }
  }

  lemma ProductSign(a: real, n: real)
    requires n > 0.0
    ensures a * n >= 0.0 <==> a >= 0.0
  {}

  lemma QuotientBounded(x: real, n: real)
    requires n > 0.0 && -n <= x <= n
    ensures -1.0 <= x / n <= 1.0
  {
    ProductSign(1.0 - x / n, n);
    ProductSign(1.0 + x / n, n);
  }

  /** The mix of a frame stays within full scale, so the cast to 16 bits never truncates. */
  lemma PcmFitsSixteenBits(frame: seq<real>)
    requires frame != []
    ensures -1.0 <= Mono(frame) <= 1.0
    ensures -32767 <= Pcm(Mono(frame)) <= 32767
  {
    ClampedSumBounded(frame);
    QuotientBounded(ClampedSum(frame), |frame| as real);
  }

  /** The whole frames of an interleaved buffer; a trailing partial frame is ignored. */
  function FramesOf(data: seq<real>, channels: nat): seq<real>
    requires 0 < channels
    decreases |data|
  {
    if |data| < channels then [] else [Mono(data[..channels])] + FramesOf(data[channels..], channels)
  }

  /** Cutting the data at a frame boundary cuts the frames there. */
  lemma {:induction false} FramesOfSplit(a: seq<real>, b: seq<real>, channels: nat)
    requires 0 < channels && |a| % channels == 0
    ensures FramesOf(a + b, channels) == FramesOf(a, channels) + FramesOf(b, channels)
    decreases |a|
  {
    if |a| < channels {
      DivModUnique(|a|, channels, 0, |a|);
      assert a + b == b;
    } else {
      DivModUnique(|a| - channels, channels, |a| / channels - 1, |a| % channels);
      assert (a + b)[..channels] == a[..channels] && (a + b)[channels..] == a[channels..] + b;
      FramesOfSplit(a[channels..], b, channels);
    }
  }

  /** Frame k is the mix of the k-th group of `channels` samples, and there are as many frames as
      whole groups. */
  lemma {:induction false} FrameAt(data: seq<real>, channels: nat, k: nat)
    requires 0 < channels && k < |FramesOf(data, channels)|
    ensures k * channels + channels <= |data|
    ensures FramesOf(data, channels)[k] == Mono(data[k * channels..k * channels + channels])
    decreases |data|
  {
    if k > 0 {
      var rest, at := data[channels..], (k - 1) * channels;
      FrameAt(rest, channels, k - 1);
      assert k * channels == at + channels;
      assert rest[at..at + channels] == data[at + channels..at + channels + channels];
    }
  }

  lemma {:induction false} FrameCount(data: seq<real>, channels: nat)
    requires 0 < channels
    ensures |FramesOf(data, channels)| == |data| / channels
    decreases |data|
  {
    if |data| < channels {
      DivModUnique(|data|, channels, 0, |data|);
    } else {
      FrameCount(data[channels..], channels);
      var n := |data| - channels;
      assert (n / channels + 1) * channels == n / channels * channels + channels;
      DivModUnique(|data|, channels, n / channels + 1, n % channels);
    }
  }

  // ---- The resampled stream ----

  /** The accumulator after n frames at the given source rate. */
  function Accumulated(n: nat, rate: nat): (acc: nat)
    requires 0 < rate
    ensures acc < rate
  {
    if n == 0 then 0 else (Accumulated(n - 1, rate) + MIC_TEST_SAMPLE_RATE_HZ) % rate
  }

  /** How many samples the n-th frame (from 0) emits. */
  function Emissions(n: nat, rate: nat): nat
    requires 0 < rate
  {
    (Accumulated(n, rate) + MIC_TEST_SAMPLE_RATE_HZ) / rate
  }

  function Repeat(sample: int, count: nat): seq<int> { seq(count, _ => sample) }

  function Emitted(frames: seq<real>, rate: nat): seq<int>
    requires 0 < rate
  {
    if frames == [] then []
    else
      var n := |frames| - 1;
      Emitted(frames[..n], rate) + Repeat(Pcm(frames[n]), Emissions(n, rate))
  }

  function LastOf(stream: seq<int>, count: nat): seq<int> {
    if |stream| <= count then stream else stream[|stream| - count..]
  }

  /** Resampler exactness: after n frames, floor(16000 n / R) samples are out and 16000 n mod R
      remains in the accumulator, for every rate and every number of frames. */
  lemma {:induction false} ResamplerIsExact(frames: seq<real>, rate: nat)
    requires 0 < rate
    ensures Accumulated(|frames|, rate) == (MIC_TEST_SAMPLE_RATE_HZ * |frames|) % rate
    ensures |Emitted(frames, rate)| == (MIC_TEST_SAMPLE_RATE_HZ * |frames|) / rate
  {
    if frames == [] {
      DivModUnique(0, rate, 0, 0);
    } else {
      var n := |frames| - 1;
      ResamplerIsExact(frames[..n], rate);
      CarryStep(MIC_TEST_SAMPLE_RATE_HZ * n, MIC_TEST_SAMPLE_RATE_HZ, rate);
    }
  }

  /** Resampling takes the right frame: sample j is that of the frame during which the rational
      clock passes j, that is of frame n with floor(16000 n / R) <= j < floor(16000 (n + 1) / R). */
  lemma {:induction false} EmittedAt(frames: seq<real>, rate: nat, n: nat, j: nat)
    requires 0 < rate && n < |frames|
    requires (MIC_TEST_SAMPLE_RATE_HZ * n) / rate <= j < (MIC_TEST_SAMPLE_RATE_HZ * (n + 1)) / rate
    ensures j < |Emitted(frames, rate)| && Emitted(frames, rate)[j] == Pcm(frames[n])
    decreases |frames|
  {
    var last := |frames| - 1;
    hide Pcm;
    ResamplerIsExact(frames, rate);
    ResamplerIsExact(frames[..last], rate);
    if n < last {
      EmittedAt(frames[..last], rate, n, j);
      assert j < |Emitted(frames[..last], rate)|;
    }
  }

  lemma CarryStep(total: nat, step: nat, rate: nat)
    requires 0 < rate
    ensures (total + step) % rate == (total % rate + step) % rate
    ensures (total + step) / rate == total / rate + (total % rate + step) / rate
  {
    var q, r := total / rate, total % rate;
    var q2, r2 := (r + step) / rate, (r + step) % rate;
    assert total == q * rate + r && r + step == q2 * rate + r2;
    assert (q + q2) * rate == q * rate + q2 * rate;
    DivModUnique(total + step, rate, q + q2, r2);
  }

  lemma PushKeepsLast(stream: seq<int>, sample: int)
    ensures var ring := LastOf(stream, MIC_TEST_MAX_SAMPLES);
            LastOf(stream + [sample], MIC_TEST_MAX_SAMPLES) ==
              (if |ring| == MIC_TEST_MAX_SAMPLES then ring[1..] else ring) + [sample]
  {}

  // ---- Levels ----

  function Squared(x: real): real { x * x }

  function SquareSum(frames: seq<real>): real {
    if frames == [] then 0.0
    else SquareSum(frames[..|frames| - 1]) + Squared(frames[|frames| - 1])
  }

  /** Every frame's square counts once. */
  lemma {:induction false} SquaresOfParts(a: seq<real>, b: seq<real>)
    ensures SquareSum(a + b) == SquareSum(a) + SquareSum(b)
    ensures |b| == 1 ==> SquareSum(b) == b[0] * b[0]
    decreases |b|
  {
    if b == [] {
      assert a + b == a;
    } else {
      var n := |b| - 1;
      assert (a + b)[..|a + b| - 1] == a + b[..n];
      SquaresOfParts(a, b[..n]);
    }
  }

  function Peak(frames: seq<real>): (peak: real)
    ensures peak >= 0.0
  {
    if frames == [] then 0.0
    else
      var before, m := Peak(frames[..|frames| - 1]), Magnitude(frames[|frames| - 1]);
      if m > before then m else before
  }

  /** The peak is the loudest frame. */
  lemma {:induction false} PeakIsLoudest(frames: seq<real>) returns (at: nat)
    ensures forall i | 0 <= i < |frames| :: Magnitude(frames[i]) <= Peak(frames)
    ensures frames != [] ==> at < |frames| && Peak(frames) == Magnitude(frames[at])
  {
    at := 0;
    if frames != [] {
      var n := |frames| - 1;
      at := PeakIsLoudest(frames[..n]);
      assert forall i | 0 <= i < n :: frames[..n][i] == frames[i];
      if n == 0 || Magnitude(frames[n]) > Peak(frames[..n]) { at := n; }
    }
  }

  lemma SquareMonotone(x: real, bound: real)
    requires Magnitude(x) <= bound
    ensures Squared(x) <= Squared(bound)
  {
    var m := Magnitude(x);
    assert Squared(x) == m * m;
    assert m * m <= m * bound <= bound * bound;
  }

  lemma OneMore(n: real, b: real)
    ensures (n + 1.0) * b == n * b + b
  {}

  lemma {:induction false} SquareSumBelowPeak(frames: seq<real>, bound: real)
    requires Peak(frames) <= bound
    ensures SquareSum(frames) <= (|frames| as real) * Squared(bound)
  {
    if frames != [] {
      var n := |frames| - 1;
      SquareSumBelowPeak(frames[..n], bound);
      SquareMonotone(frames[n], bound);
      OneMore(n as real, Squared(bound));
    }
  }

  function MeanSquare(frames: seq<real>): real
    requires frames != []
  {
    SquareSum(frames) / (|frames| as real)
  }

  /** In every callback the squared rms never exceeds the squared peak. */
  lemma RmsBelowPeak(frames: seq<real>)
    requires frames != []
    ensures MeanSquare(frames) <= Squared(Peak(frames))
  {
    SquareSumBelowPeak(frames, Peak(frames));
    DivideBound(SquareSum(frames), |frames| as real, Squared(Peak(frames)));
  }

  lemma DivideBound(x: real, n: real, b: real)
    requires n > 0.0 && x <= n * b
    ensures x / n <= b
  {
    ProductSign(b - x / n, n);
  }

  datatype LevelReading = LevelReading(meanSquare: real, peak: real, clipping: bool, signal: bool)

  /** What one callback that delivered `frames` does to the levels: nothing without a whole
      frame; otherwise the new rms and peak, and flags that only ever turn on. */
  predicate LevelsAfter(before: LevelReading, frames: seq<real>, after: LevelReading) {
    if frames == [] then after == before
    else
      && after.meanSquare == MeanSquare(frames) && after.peak == Peak(frames)
      && after.clipping == (before.clipping || after.peak >= CLIPPING_THRESHOLD)
      && after.signal == (before.signal || after.meanSquare >= SIGNAL_MEAN_SQUARE)
  }

  predicate Measured(frames: seq<real>, squaredSum: real, loudest: real, frameCount: nat) {
    squaredSum == SquareSum(frames) && loudest == Peak(frames) && frameCount == |frames|
  }

  method MeasureFrame(mono: real, squares: real, peak: real, count: nat, ghost frames: seq<real>)
    returns (squaredSum: real, loudest: real, frameCount: nat)
    requires Measured(frames, squares, peak, count)
    ensures Measured(frames + [mono], squaredSum, loudest, frameCount)
  {
    squaredSum, loudest, frameCount := squares + Squared(mono), peak, count + 1;
    if Magnitude(mono) > loudest {
      loudest := Magnitude(mono);
    }
    assert (frames + [mono])[..|frames|] == frames;
  }

  /** The ring and accumulator are exactly what resampling the heard frames yields. */
  predicate Resampled(heard: seq<real>, rate: nat, samples: seq<int>, accumulator: nat)
    requires 0 < rate
  {
    && accumulator == Accumulated(|heard|, rate)
    && samples == LastOf(Emitted(heard, rate), MIC_TEST_MAX_SAMPLES)
  }

  /** The inner loop of process_interleaved: emits one frame's sample as often as the
      accumulator allows. */
  method EmitFrame(mono: real, divisor: nat, ring: seq<int>, accumulator: nat, ghost heard: seq<real>)
    returns (samples: seq<int>, remaining: nat)
    requires 0 < divisor <= U32_MAX
    ensures Resampled(heard, divisor, ring, accumulator) ==> Resampled(heard + [mono], divisor, samples, remaining)
  {
    ghost var exact := Resampled(heard, divisor, ring, accumulator);
    ghost var before := Emitted(heard, divisor);
    samples, remaining := ring, SaturatingAdd(accumulator, MIC_TEST_SAMPLE_RATE_HZ);
    ghost var total, done := remaining, 0;
    assert before + Repeat(Pcm(mono), 0) == before;
    while remaining >= divisor
      invariant exact ==> samples == LastOf(before + Repeat(Pcm(mono), done), MIC_TEST_MAX_SAMPLES)
      invariant total == remaining + done * divisor
    {
      var pcm := Pcm(mono);
      remaining := remaining - divisor;
      if |samples| == MIC_TEST_MAX_SAMPLES {
        samples := samples[1..];
      }
      samples := samples + [pcm];
      PushKeepsLast(before + Repeat(pcm, done), pcm);
      assert before + Repeat(pcm, done) + [pcm] == before + Repeat(pcm, done + 1);
      assert (done + 1) * divisor == done * divisor + divisor;
      done := done + 1;
    }
    DivModUnique(total, divisor, done, remaining);
    assert (heard + [mono])[..|heard|] == heard;
  }

  /** The frame loop of process_interleaved. */
  method MixAndResample(data: seq<real>, channels: nat, divisor: nat, ring: seq<int>, accumulator: nat,
                        ghost heard: seq<real>)
    returns (samples: seq<int>, remaining: nat, squaredSum: real, loudest: real, frameCount: nat)
    requires 0 < channels && 0 < divisor <= U32_MAX
    ensures Resampled(heard, divisor, ring, accumulator) ==>
              Resampled(heard + FramesOf(data, channels), divisor, samples, remaining)
    ensures Measured(FramesOf(data, channels), squaredSum, loudest, frameCount)
  {
    samples, remaining := ring, accumulator;
    squaredSum, loudest, frameCount := 0.0, 0.0, 0;
    var rest := data;
    ghost var frames: seq<real> := [];
    assert heard + frames == heard;
    while |rest| >= channels
      invariant Resampled(heard, divisor, ring, accumulator) ==> Resampled(heard + frames, divisor, samples, remaining)
      invariant FramesOf(data, channels) == frames + FramesOf(rest, channels)
      invariant Measured(frames, squaredSum, loudest, frameCount)
      decreases |rest|
    {
      var mono := Mono(rest[..channels]);
      squaredSum, loudest, frameCount := MeasureFrame(mono, squaredSum, loudest, frameCount, frames);
      samples, remaining := EmitFrame(mono, divisor, samples, remaining, heard + frames);
      assert (heard + frames) + [mono] == heard + (frames + [mono]);
      assert frames + ([mono] + FramesOf(rest[channels..], channels)) == (frames + [mono]) + FramesOf(rest[channels..], channels);
      frames := frames + [mono];
      rest := rest[channels..];
    }
    assert FramesOf(data, channels) == frames;
  }

  /** The probe's state under its lock. `heard` is the mono frames since the last clear; the
      level fields keep the square of the rms. */
  class MicrophoneProbeState {
    var samples: seq<int>
    var sourceSampleRateHz: nat
    var sourceChannelCount: nat
    var resampleAccumulator: nat
    var meanSquare: real
    var peak: real
    var clipping: bool
    var signalDetected: bool
    var captureComplete: bool
    ghost var heard: seq<real>

    ghost function Rate(): nat
      reads this
    {
      Max(sourceSampleRateHz, 1)
    }

    ghost predicate Valid()
      reads this
    {
      sourceSampleRateHz <= U32_MAX && Resampled(heard, Rate(), samples, resampleAccumulator)
    }

    ghost function Levels(): LevelReading
      reads this
    {
      LevelReading(meanSquare, peak, clipping, signalDetected)
    }

    constructor (sampleRateHz: nat, channelCount: nat)
      requires sampleRateHz <= U32_MAX
      ensures Valid() && heard == [] && sourceSampleRateHz == sampleRateHz && sourceChannelCount == channelCount
    {
      samples, resampleAccumulator, heard := [], 0, [];
      sourceSampleRateHz, sourceChannelCount := sampleRateHz, channelCount;
      meanSquare, peak, clipping, signalDetected, captureComplete := 0.0, 0.0, false, false, false;
    }

    /** process_interleaved: mixes, measures and resamples one callback's buffer. */
    method ProcessInterleaved(data: seq<real>)
      requires Valid()
      modifies this
      ensures Valid()
      ensures sourceSampleRateHz == old(sourceSampleRateHz) && sourceChannelCount == old(sourceChannelCount)
      ensures captureComplete == old(captureComplete)
      ensures heard == old(heard) + FramesOf(data, Max(sourceChannelCount, 1))
      ensures LevelsAfter(old(Levels()), FramesOf(data, Max(sourceChannelCount, 1)), Levels())
    {
      var channels, divisor := Max(sourceChannelCount, 1), Max(sourceSampleRateHz, 1);
      var squaredSum, loudest, frameCount;
      samples, resampleAccumulator, squaredSum, loudest, frameCount :=
        MixAndResample(data, channels, divisor, samples, resampleAccumulator, heard);
      heard := heard + FramesOf(data, channels);
      if frameCount > 0 {
        meanSquare := squaredSum / (frameCount as real);
        peak := loudest;
        clipping := clipping || peak >= CLIPPING_THRESHOLD;
        signalDetected := signalDetected || meanSquare >= SIGNAL_MEAN_SQUARE;
      }
    }

    /** mic_test_sample: hands the ring to the caller and empties it, keeping the levels. */
    method TakeSamples() returns (taken: seq<int>)
      requires Valid()
      modifies this
      ensures Valid() && heard == [] && samples == [] && taken == old(samples)
      ensures Levels() == old(Levels()) && captureComplete == old(captureComplete)
      ensures sourceSampleRateHz == old(sourceSampleRateHz) && sourceChannelCount == old(sourceChannelCount)
    {
      taken := samples;
      samples, resampleAccumulator, heard := [], 0, [];
    }

    /** zero_audio_state. */
    method ZeroAudioState()
      requires Valid()
      modifies this
      ensures Valid() && heard == [] && samples == []
      ensures meanSquare == 0.0 && peak == 0.0 && !clipping && !signalDetected && !captureComplete
      ensures sourceSampleRateHz == old(sourceSampleRateHz) && sourceChannelCount == old(sourceChannelCount)
    {
      samples, resampleAccumulator, heard := [], 0, [];
      meanSquare, peak, clipping, signalDetected, captureComplete := 0.0, 0.0, false, false, false;
    }
  }

  /** What a series of process_interleaved calls hears. */
  function HeardFrom(buffers: seq<seq<real>>, channels: nat): seq<real>
    requires 0 < channels
  {
    if buffers == [] then [] else FramesOf(buffers[0], channels) + HeardFrom(buffers[1..], channels)
  }

  ghost predicate FrameAligned(buffers: seq<seq<real>>, channels: nat)
    requires 0 < channels
  {
    forall i :: 0 <= i < |buffers| ==> |buffers[i]| % channels == 0
  }

  /** From a cleared state, the ring, the accumulator and the number of samples emitted depend
      on the audio alone: any split into frame-aligned callbacks gives the same result, and
      floor(16000 n / R) samples have been emitted after n frames. */
  lemma {:induction false} SplitDoesNotMatter(buffers: seq<seq<real>>, channels: nat, rate: nat)
    requires 0 < channels && 0 < rate && FrameAligned(buffers, channels)
    ensures var frames := FramesOf(Flatten(buffers), channels);
            && HeardFrom(buffers, channels) == frames
            && |LastOf(Emitted(frames, rate), MIC_TEST_MAX_SAMPLES)| ==
                 Min((MIC_TEST_SAMPLE_RATE_HZ * |frames|) / rate, MIC_TEST_MAX_SAMPLES)
  {
    ResamplerIsExact(FramesOf(Flatten(buffers), channels), rate);
    if buffers != [] {
      SplitDoesNotMatter(buffers[1..], channels, rate);
      FramesOfSplit(buffers[0], Flatten(buffers[1..]), channels);
    }
  }
}
