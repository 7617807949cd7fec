/** How one capture thread cuts its byte stream into timestamped chunks
    (flush_pending_audio, flush_all_audio and frames_to_ms). */
module ChunkGrid {
  import opened Arith
  import opened Common

  /** What a capture thread knows about its stream once it is built. */
  datatype Stream = Stream(source: nat, sampleRateHz: nat, channelCount: nat, frameBytes: nat, targetBytes: nat) {
    ghost predicate Valid() {
      && 0 < frameBytes <= targetBytes
      && targetBytes % frameBytes == 0
    }
  }

  datatype Chunk = Chunk(source: nat, sampleRateHz: nat, channelCount: nat, startMs: nat, bytes: seq<Byte>)

  /** Frame and chunk sizes of a stream. The chunk size is always a positive whole number
      of frames, so the flushing loop makes progress for every configuration. */
  function OpenStream(source: nat, sampleRateHz: nat, channelCount: nat, chunkMs: nat): (stream: Stream)
    ensures stream.Valid()
  {
    var frameBytes := Max(channelCount * 2, 2);
    var wanted := SaturatingMul(SaturatingMul(SaturatingMul(sampleRateHz, channelCount), 2), chunkMs) / 1000;
    var atLeastOneFrame := Max(wanted, frameBytes);
    RoundDown(atLeastOneFrame, frameBytes);
    Stream(source, sampleRateHz, channelCount, frameBytes, atLeastOneFrame - atLeastOneFrame % frameBytes)
  }

  /** Below saturation a stream with channels has two bytes a sample, and its chunks last as many
      whole frames as the requested time holds, but at least one. */
  lemma ChunkLastsRequestedTime(source: nat, sampleRateHz: nat, channelCount: nat, chunkMs: nat)
    requires 1 <= channelCount && sampleRateHz * channelCount <= U64_MAX
    requires sampleRateHz * channelCount * 2 <= U64_MAX && sampleRateHz * channelCount * 2 * chunkMs <= U64_MAX
    ensures var stream := OpenStream(source, sampleRateHz, channelCount, chunkMs);
            && stream.frameBytes == 2 * channelCount
            && stream.targetBytes == Max(sampleRateHz * chunkMs / 1000, 1) * stream.frameBytes
            && stream.source == source && stream.sampleRateHz == sampleRateHz && stream.channelCount == channelCount
  {
    var wanted := sampleRateHz * channelCount * 2 * chunkMs / 1000;
    Reorder(sampleRateHz, channelCount, chunkMs);
    ScaledQuotient(sampleRateHz * chunkMs, 2 * channelCount, 1000);
    RoundedToUnits(sampleRateHz * chunkMs / 1000, 2 * channelCount, wanted);
    UnsaturatedTarget(source, sampleRateHz, channelCount, chunkMs);
  }

  lemma UnsaturatedTarget(source: nat, sampleRateHz: nat, channelCount: nat, chunkMs: nat)
    requires 1 <= channelCount && sampleRateHz * channelCount <= U64_MAX
    requires sampleRateHz * channelCount * 2 <= U64_MAX && sampleRateHz * channelCount * 2 * chunkMs <= U64_MAX
    ensures var frameBytes := 2 * channelCount;
            var atLeast := Max(sampleRateHz * channelCount * 2 * chunkMs / 1000, frameBytes);
            OpenStream(source, sampleRateHz, channelCount, chunkMs) ==
              Stream(source, sampleRateHz, channelCount, frameBytes, atLeast - atLeast % frameBytes)
  {
    var perSecond := SaturatingMul(SaturatingMul(sampleRateHz, channelCount), 2);
    assert perSecond == sampleRateHz * channelCount * 2;
    assert SaturatingMul(perSecond, chunkMs) == sampleRateHz * channelCount * 2 * chunkMs;
  }

  lemma Reorder(a: nat, b: nat, c: nat)
    ensures a * b * 2 * c == a * c * (2 * b)
  {
    assert a * b * 2 * c == a * (b * (2 * c));
    assert a * c * (2 * b) == a * (c * (2 * b));
  }

  /** Rounding down to whole units, but to one unit at least. */
  lemma RoundedToUnits(units: nat, unit: nat, n: nat)
    requires 0 < unit && n - n % unit == units * unit
    ensures var atLeast := Max(n, unit); atLeast - atLeast % unit == Max(units, 1) * unit
  {
    NoWholeUnit(units, unit, n);
    DivModUnique(unit, unit, 1, 0);
  }

  lemma NoWholeUnit(units: nat, unit: nat, n: nat)
    requires 0 < unit && n - n % unit == units * unit
    ensures units == 0 <==> n < unit
  {
    RoundDown(n, unit);
    if units > 0 { MulAtLeast(units, unit); }
  }

  function FramesToMs(frames: nat, sampleRateHz: nat): nat {
    SaturatingMul(frames, 1000) / Max(sampleRateHz, 1)
  }

  /** All bytes of the chunks, in order. */
  function Payload(chunks: seq<Chunk>): seq<Byte> {
    if chunks == [] then [] else Payload(chunks[..|chunks| - 1]) + chunks[|chunks| - 1].bytes
  }

  function FramesIn(stream: Stream, bytes: seq<Byte>): nat
    requires stream.Valid()
  {
    |bytes| / stream.frameBytes
  }

  /** Number of frames in the chunks. */
  function Frames(stream: Stream, chunks: seq<Chunk>): nat
    requires stream.Valid()
  {
    if chunks == [] then 0
    else Frames(stream, chunks[..|chunks| - 1]) + FramesIn(stream, chunks[|chunks| - 1].bytes)
  }

  /** The whole-frame part of a byte stream. */
  function WholeFrames(bytes: seq<Byte>, frameBytes: nat): seq<Byte>
    requires 0 < frameBytes
  {
    RoundDown(|bytes|, frameBytes);
    bytes[..|bytes| - |bytes| % frameBytes]
  }

  /** The chunk written next, stamped with the frames written before it. */
  function NextChunk(stream: Stream, framesWritten: nat, bytes: seq<Byte>): Chunk {
    Chunk(stream.source, stream.sampleRateHz, stream.channelCount, FramesToMs(framesWritten, stream.sampleRateHz), bytes)
  }

  /** The chunks one source handed to its sink lie on the grid: each holds whole frames,
      carries the stream's parameters and is stamped with the (saturating) number of frames
      in all earlier chunks; all but (once `closed`) the last hold exactly the target size. */
  ghost predicate OnGrid(stream: Stream, chunks: seq<Chunk>, closed: bool)
    requires stream.Valid()
  {
    chunks == [] ||
    (var last := |chunks| - 1;
     && OnGrid(stream, chunks[..last], false)
     && chunks[last] == NextChunk(stream, Min(Frames(stream, chunks[..last]), U64_MAX), chunks[last].bytes)
     && 0 < |chunks[last].bytes|
     && |chunks[last].bytes| % stream.frameBytes == 0
     && (!closed ==> |chunks[last].bytes| == stream.targetBytes))
  }

  /** The thread's frame counter: all frames handed to the sink, saturating. */
  ghost predicate CountsFrames(stream: Stream, chunks: seq<Chunk>, framesWritten: nat)
    requires stream.Valid()
  {
    framesWritten == Min(Frames(stream, chunks), U64_MAX)
  }

  /** Handing one more chunk to the sink keeps the chunks on the grid and the counter exact. */
  lemma GridExtend(stream: Stream, chunks: seq<Chunk>, framesWritten: nat, bytes: seq<Byte>, closed: bool)
    requires stream.Valid() && OnGrid(stream, chunks, false) && CountsFrames(stream, chunks, framesWritten)
    requires 0 < |bytes| && |bytes| % stream.frameBytes == 0
    requires !closed ==> |bytes| == stream.targetBytes
    ensures var more := chunks + [NextChunk(stream, framesWritten, bytes)];
            && OnGrid(stream, more, closed)
            && CountsFrames(stream, more, SaturatingAdd(framesWritten, FramesIn(stream, bytes)))
            && Payload(more) == Payload(chunks) + bytes
  {
    var more := chunks + [NextChunk(stream, framesWritten, bytes)];
    assert more[..|more| - 1] == chunks;
  }

  /** Everything handed to the sink is whole frames, as many as the counter says. */
  lemma {:induction false} GridPayload(stream: Stream, chunks: seq<Chunk>, closed: bool)
    requires stream.Valid() && OnGrid(stream, chunks, closed)
    ensures |Payload(chunks)| % stream.frameBytes == 0
    ensures FramesIn(stream, Payload(chunks)) == Frames(stream, chunks)
  {
    if chunks != [] {
      var last := |chunks| - 1;
      GridPayload(stream, chunks[..last], false);
      AddWholeUnits(|Payload(chunks[..last])|, |chunks[last].bytes|, stream.frameBytes);
    }
  }

  /** What the recursive grid says about chunk k: its stamp, its parameters and its size. */
  lemma {:induction false} GridAt(stream: Stream, chunks: seq<Chunk>, closed: bool, k: nat)
    requires stream.Valid() && OnGrid(stream, chunks, closed) && k < |chunks|
    ensures chunks[k] == NextChunk(stream, Min(Frames(stream, chunks[..k]), U64_MAX), chunks[k].bytes)
    ensures OnGrid(stream, chunks[..k], false)
    ensures 0 < |chunks[k].bytes| && |chunks[k].bytes| % stream.frameBytes == 0
    ensures k < |chunks| - 1 || !closed ==> |chunks[k].bytes| == stream.targetBytes
    decreases |chunks|
  {
    var last := |chunks| - 1;
    if k < last {
      GridAt(stream, chunks[..last], false, k);
      assert chunks[..last][..k] == chunks[..k];
    }
  }

  lemma {:induction false} FramesGrow(stream: Stream, chunks: seq<Chunk>, j: nat, k: nat)
    requires stream.Valid() && j <= k <= |chunks|
    ensures Frames(stream, chunks[..j]) <= Frames(stream, chunks[..k])
    decreases k
  {
    if j < k {
      assert chunks[..k][..k - 1] == chunks[..k - 1];
      FramesGrow(stream, chunks, j, k - 1);
    }
  }

  /** Chunk k starts at the time of its first frame rounded down to a millisecond, where the
      frames are counted from the bytes of all earlier chunks: the rounding error never
      accumulates, stays below one millisecond for every run below saturation, and start
      times never go back. */
  lemma ChunkStartsDoNotDrift(stream: Stream, chunks: seq<Chunk>, closed: bool, j: nat, k: nat)
    requires stream.Valid() && OnGrid(stream, chunks, closed)
    requires j <= k < |chunks|
    requires FramesIn(stream, Payload(chunks[..k])) * 1000 <= U64_MAX
    ensures var rate, frames := Max(stream.sampleRateHz, 1), FramesIn(stream, Payload(chunks[..k]));
            && chunks[k].startMs == frames * 1000 / rate
            && chunks[k].startMs * rate <= frames * 1000 < chunks[k].startMs * rate + rate
    ensures chunks[j].startMs <= chunks[k].startMs
  {
    GridAt(stream, chunks, closed, j);
    GridAt(stream, chunks, closed, k);
    GridPayload(stream, chunks[..k], false);
    FramesGrow(stream, chunks, j, k);
    DivMonotone(Frames(stream, chunks[..j]) * 1000, Frames(stream, chunks[..k]) * 1000, Max(stream.sampleRateHz, 1));
  }

  /** One turn of the flushing loop moves a target-sized chunk out of `pending`. */
  lemma FlushOne(stream: Stream, emitted: seq<Chunk>, framesWritten: nat, pending: seq<Byte>)
    requires stream.Valid() && OnGrid(stream, emitted, false) && CountsFrames(stream, emitted, framesWritten)
    requires stream.targetBytes <= |pending|
    ensures var bytes := pending[..stream.targetBytes];
            var more := emitted + [NextChunk(stream, framesWritten, bytes)];
            && OnGrid(stream, more, false)
            && CountsFrames(stream, more, SaturatingAdd(framesWritten, FramesIn(stream, bytes)))
            && Payload(more) + pending[stream.targetBytes..] == Payload(emitted) + pending
  {
    var bytes, rest := pending[..stream.targetBytes], pending[stream.targetBytes..];
    GridExtend(stream, emitted, framesWritten, bytes, false);
    assert pending == bytes + rest;
    assert (Payload(emitted) + bytes) + rest == Payload(emitted) + (bytes + rest);
  }

  /** flush_pending_audio, with a sink that accepts every chunk: drains whole target-sized
      chunks from the front of `pending` and leaves less than one chunk behind. */
  method FlushPending(stream: Stream, sent: seq<Chunk>, framesWritten: nat, pending: seq<Byte>)
    returns (emitted: seq<Chunk>, frames: nat, rest: seq<Byte>)
    requires stream.Valid() && OnGrid(stream, sent, false) && CountsFrames(stream, sent, framesWritten)
    ensures sent <= emitted
    ensures OnGrid(stream, emitted, false) && CountsFrames(stream, emitted, frames)
    ensures Payload(emitted) + rest == Payload(sent) + pending
    ensures |rest| < stream.targetBytes
  {
    emitted, frames, rest := sent, framesWritten, pending;
    while |rest| >= stream.targetBytes && stream.targetBytes >= stream.frameBytes
      invariant sent <= emitted
      invariant OnGrid(stream, emitted, false) && CountsFrames(stream, emitted, frames)
      invariant Payload(emitted) + rest == Payload(sent) + pending
      decreases |rest|
    {
      FlushOne(stream, emitted, frames, rest);
      var bytes := rest[..stream.targetBytes];
      emitted := emitted + [NextChunk(stream, frames, bytes)];
      frames := SaturatingAdd(frames, FramesIn(stream, bytes));
      rest := rest[stream.targetBytes..];
    }
  }
}
