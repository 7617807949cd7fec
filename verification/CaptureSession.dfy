/** Durable audio capture: stream callbacks, capture threads, the serialized writer and
    the stop call, interleaved one atomic step at a time. The live observer is added in
    ObservedCapture; nothing here depends on it. */
module CaptureSession {
  import opened Arith
  import opened ChunkGrid
  import opened Common

  const CAPTURE_CALLBACK_QUEUE_CAPACITY: nat := 32
  const WRITER_QUEUE_CAPACITY: nat := 64

  datatype Failure = CallbackOverflow | StreamFailed | StreamClosed | WriterUnavailable | StoreFailed

  /** Program points of run_cpal_capture after the stream has started. */
  datatype Pc =
    | LoopTop
    | CheckBefore
    | Receive
    | CheckAfter
    | Flush
    | Writing(chunk: Chunk, last: bool)
    | DropStream
    | Drain
    | TakeFinal
    | FlushAll
    | Finish
    | Exited
    | Panicked

  /** One capture thread, its callback queue and its failure slot. `produced` logs all bytes
      its callbacks ever delivered and `emitted` all chunks it handed to the sink. */
  datatype Producer = Producer(
    stream: Stream,
    pc: Pc,
    streamLive: bool,
    queue: seq<seq<Byte>>,
    failure: Option<Failure>,
    pending: seq<Byte>,
    framesWritten: nat,
    captureError: Option<Failure>,
    callbackError: Option<Failure>,
    flushError: Option<Failure>,
    produced: seq<Byte>,
    emitted: seq<Chunk>)

  datatype Writer = WriterRunning | WriterClosed | WriterPanicked

  datatype Outcome = Verified | NeedsRecovery | JoinFailed

  /** `direct` is the single-source sink that stores chunks itself; otherwise producers share
      the bounded writer queue. */
  datatype Session = Session(
    direct: bool,
    producers: seq<Producer>,
    stop: bool,
    lastError: Option<Failure>,
    writerQueue: seq<Chunk>,
    writer: Writer,
    durable: seq<Chunk>,
    outcome: Option<Outcome>)

  /** What the environment decides in a thread step. */
  datatype Input = Nothing | Data | StreamEnded | Stored | NotStored

  datatype Event =
    | Callback(i: nat, bytes: seq<Byte>)
    | StreamFault(i: nat)
    | Advance(i: nat, input: Input)
    | ThreadPanic(i: nat)
    | WriteNext(stored: bool)
    | WriterFinish
    | WriterPanic
    | RequestStop
    | ReportStop

  ghost predicate Init(s: Session) {
    && 0 < |s.producers|
    && (s.direct ==> |s.producers| == 1 && s.writer.WriterClosed?)
    && (!s.direct ==> s.writer.WriterRunning?)
    && (forall i | 0 <= i < |s.producers| ::
          && s.producers[i].stream.Valid()
          && s.producers[i].stream.source == i
          && s.producers[i] == Producer(s.producers[i].stream, LoopTop, true, [], None, [], 0, None, None, None, [], []))
    && !s.stop && s.lastError.None? && s.writerQueue == [] && s.durable == [] && s.outcome.None?
  }

  function With(s: Session, i: nat, p: Producer): Session
    requires i < |s.producers|
  {
    s.(producers := s.producers[i := p])
  }

  predicate Ended(p: Producer) { p.pc.Exited? || p.pc.Panicked? }

  predicate CanAdvance(s: Session, i: nat, input: Input) {
    i < |s.producers| &&
    match s.producers[i].pc
    case Receive =>
      || input.Nothing?
      || (input.Data? && s.producers[i].queue != [])
      || (input.StreamEnded? && s.producers[i].queue == [])
    case Writing(_, _) =>
      if s.direct then input.Stored? || input.NotStored?
      else input.Nothing? && (s.writer.WriterRunning? ==> |s.writerQueue| < WRITER_QUEUE_CAPACITY)
    case Exited => false
    case Panicked => false
    case _ => input.Nothing?
  }

  /** stop joins the threads in order and returns at the first one that panicked. */
  predicate StopMeetsPanic(s: Session) {
    exists i | 0 <= i < |s.producers| ::
      s.producers[i].pc.Panicked? && forall j | 0 <= j < i :: Ended(s.producers[j])
  }

  /** stop takes the session, so it reports once and nobody asks it to stop afterwards; the
      threads and the writer know nothing of that. */
  predicate Enabled(s: Session, e: Event) {
    match e
    case Callback(i, _) => i < |s.producers| && s.producers[i].streamLive
    case StreamFault(i) => i < |s.producers| && s.producers[i].streamLive
    case Advance(i, input) => CanAdvance(s, i, input)
    case ThreadPanic(i) => i < |s.producers| && !Ended(s.producers[i])
    case WriteNext(_) => s.writer.WriterRunning? && s.writerQueue != []
    case WriterFinish =>
      && s.writer.WriterRunning? && s.writerQueue == []
      && forall i | 0 <= i < |s.producers| :: Ended(s.producers[i])
    case WriterPanic => s.writer.WriterRunning?
    case RequestStop => s.outcome.None?
    case ReportStop =>
      && s.outcome.None? && s.stop
      && (StopMeetsPanic(s)
          || (!s.writer.WriterRunning? && forall i | 0 <= i < |s.producers| :: Ended(s.producers[i])))
  }

  /** record_capture_callback_failure: the first failure wins. */
  function RecordFailure(p: Producer, f: Failure): Producer {
    p.(failure := p.failure.Or(Some(f)))
  }

  /** send_capture_callback_audio: a full queue drops the buffer and records the overflow. */
  function OnCallback(p: Producer, bytes: seq<Byte>): Producer {
    var logged := p.(produced := p.produced + bytes);
    if |p.queue| < CAPTURE_CALLBACK_QUEUE_CAPACITY then logged.(queue := p.queue + [bytes])
    else RecordFailure(logged, CallbackOverflow)
  }

  /** A failure check in the loop: takes the slot and leaves the loop when it is filled. */
  function CheckFailure(p: Producer, next: Pc): Producer {
    if p.failure.Some? then p.(captureError := p.failure, failure := None, pc := DropStream)
    else p.(pc := next)
  }

  /** Cut the next chunk off `pending` and enter the sink. */
  function Emit(p: Producer, length: nat, last: bool): Producer
    requires length <= |p.pending| && p.stream.Valid()
  {
    var chunk := NextChunk(p.stream, p.framesWritten, p.pending[..length]);
    p.(pc := Writing(chunk, last), pending := p.pending[length..],
       framesWritten := SaturatingAdd(p.framesWritten, FramesIn(p.stream, p.pending[..length])),
       emitted := p.emitted + [chunk])
  }

  /** sink.write failed inside flush_pending_audio or flush_all_audio. */
  function WriteFailed(p: Producer, f: Failure): Producer
    requires p.pc.Writing?
  {
    if p.pc.last then p.(flushError := Some(f), pc := Finish)
    else p.(captureError := Some(f), pc := DropStream)
  }

  function WriteDone(p: Producer): Producer
    requires p.pc.Writing?
  {
    p.(pc := if p.pc.last then Finish else Flush)
  }

  /** The steps that only touch the thread's own state. */
  function LocalStep(p: Producer, stop: bool, input: Input): Producer
    requires p.stream.Valid()
    requires !p.pc.Writing? && !p.pc.Finish? && !Ended(p)
    requires p.pc.Receive? && input.Data? ==> p.queue != []
  {
    match p.pc
    case LoopTop => p.(pc := if stop then DropStream else CheckBefore)
    case CheckBefore => CheckFailure(p, Receive)
    case Receive =>
      if input.Data? then p.(pending := p.pending + p.queue[0], queue := p.queue[1..], pc := CheckAfter)
      else if input.StreamEnded? then p.(captureError := Some(StreamClosed), streamLive := false, pc := DropStream)
      else p.(pc := CheckAfter)
    case CheckAfter => CheckFailure(p, Flush)
    case Flush =>
      if |p.pending| >= p.stream.targetBytes && p.stream.targetBytes >= p.stream.frameBytes
      then Emit(p, p.stream.targetBytes, false)
      else p.(pc := LoopTop)
    case DropStream => p.(streamLive := false, pc := Drain)
    case Drain =>
      if p.queue != [] then p.(pending := p.pending + p.queue[0], queue := p.queue[1..])
      else p.(pc := TakeFinal)
    case TakeFinal => p.(callbackError := p.failure, failure := None, pc := FlushAll)
    case FlushAll =>
      RoundDown(|p.pending|, p.stream.frameBytes);
      var full := |p.pending| - |p.pending| % p.stream.frameBytes;
      if full == 0 then p.(pending := [], pc := Finish) else Emit(p, full, true)
  }

  /** CaptureSink::write, without the observer. */
  function SinkStep(s: Session, i: nat, input: Input): Session
    requires CanAdvance(s, i, input) && s.producers[i].pc.Writing?
  {
    var p := s.producers[i];
    if s.direct then
      if input.Stored? then With(s, i, WriteDone(p)).(durable := s.durable + [p.pc.chunk])
      else With(s, i, WriteFailed(p, StoreFailed))
    else if s.writer.WriterRunning? then
      With(s, i, WriteDone(p)).(writerQueue := s.writerQueue + [p.pc.chunk])
    else With(s, i, WriteFailed(p, WriterUnavailable))
  }

  /** The end of the thread: an error stops the session and is kept as its first error. */
  function FinishStep(s: Session, i: nat): Session
    requires i < |s.producers|
  {
    var p := s.producers[i];
    var error := p.captureError.Or(p.callbackError).Or(p.flushError);
    var done := With(s, i, p.(pc := Exited));
    if error.Some? then done.(stop := true, lastError := s.lastError.Or(error)) else done
  }

  ghost predicate WellFormed(s: Session) {
    forall i | 0 <= i < |s.producers| :: s.producers[i].stream.Valid() && s.producers[i].stream.source == i
  }

  ghost function Step(s: Session, e: Event): Session
    requires WellFormed(s) && Enabled(s, e)
  {
    match e
    case Callback(i, bytes) => With(s, i, OnCallback(s.producers[i], bytes))
    case StreamFault(i) => With(s, i, RecordFailure(s.producers[i], StreamFailed))
    case Advance(i, input) =>
      var p := s.producers[i];
      if p.pc.Writing? then SinkStep(s, i, input)
      else if p.pc.Finish? then FinishStep(s, i)
      else With(s, i, LocalStep(p, s.stop, input))
    case ThreadPanic(i) => With(s, i, s.producers[i].(pc := Panicked, streamLive := false))
    case WriteNext(stored) =>
      if stored then s.(durable := s.durable + [s.writerQueue[0]], writerQueue := s.writerQueue[1..])
      else s.(lastError := s.lastError.Or(Some(StoreFailed)), writer := WriterClosed)
    case WriterFinish => s.(writer := WriterClosed)
    case WriterPanic => s.(writer := WriterPanicked)
    case RequestStop => s.(stop := true)
    case ReportStop =>
      if s.writer.WriterPanicked? || (exists i | 0 <= i < |s.producers| :: s.producers[i].pc.Panicked?)
      then s.(outcome := Some(JoinFailed))
      else s.(outcome := Some(if s.lastError.Some? then NeedsRecovery else Verified))
  }

  /** The chunks of one source, in order. */
  function ChunksOf(chunks: seq<Chunk>, source: nat): seq<Chunk> {
    if chunks == [] then []
    else
      var init, c := chunks[..|chunks| - 1], chunks[|chunks| - 1];
      ChunksOf(init, source) + (if c.source == source then [c] else [])
  }

  // ---- Invariant ----

  /** The thread is past flush_all_audio's cut. */
  predicate Closing(p: Producer) {
    p.pc.Finish? || p.pc.Exited? || (p.pc.Writing? && p.pc.last)
  }

  /** A lost buffer or a failed write has left a mark that the thread will report. */
  predicate Marked(p: Producer) {
    p.failure.Some? || p.captureError.Some? || p.callbackError.Some? || p.flushError.Some? || p.pc.Panicked?
  }

  predicate Tainted(s: Session) {
    s.lastError.Some? || s.writer.WriterPanicked? || exists i | 0 <= i < |s.producers| :: Marked(s.producers[i])
  }

  ghost predicate NothingLost(p: Producer)
    requires p.stream.Valid()
  {
    if Closing(p) then Payload(p.emitted) == WholeFrames(p.produced, p.stream.frameBytes)
    else p.produced == Payload(p.emitted) + p.pending + Flatten(p.queue)
  }

  ghost predicate ProducerInv(p: Producer) {
    && p.stream.Valid()
    && OnGrid(p.stream, p.emitted, true)
    && (!Closing(p) && !p.pc.Panicked? ==>
          OnGrid(p.stream, p.emitted, false) && CountsFrames(p.stream, p.emitted, p.framesWritten))
    && (p.pc.Drain? || p.pc.TakeFinal? || p.pc.FlushAll? || Closing(p) || p.pc.Panicked? ==> !p.streamLive)
    && (p.pc.TakeFinal? || p.pc.FlushAll? || Closing(p) ==> p.queue == [])
    && (p.pc.FlushAll? || Closing(p) ==> p.failure.None?)
    && (p.callbackError.Some? ==> p.pc.FlushAll? || Closing(p) || p.pc.Panicked?)
    && (!Marked(p) ==> NothingLost(p))
  }

  function InSink(p: Producer): seq<Chunk> {
    if p.pc.Writing? then [p.pc.chunk] else []
  }

  ghost predicate Delivered(s: Session, i: nat)
    requires i < |s.producers|
  {
    ChunksOf(s.durable + s.writerQueue, i) + InSink(s.producers[i]) == s.producers[i].emitted
  }

  ghost predicate ProducerOk(s: Session, i: nat)
    requires i < |s.producers|
  {
    var p := s.producers[i];
    && ProducerInv(p)
    && p.stream.source == i
    && (p.pc.Writing? ==> p.pc.chunk.source == i)
    && (p.pc.Exited? && Marked(p) ==> s.lastError.Some?)
  }

  ghost predicate AllDelivered(s: Session) {
    forall i | 0 <= i < |s.producers| :: Delivered(s, i)
  }

  predicate AllExited(s: Session) {
    forall i | 0 <= i < |s.producers| :: s.producers[i].pc.Exited?
  }

  predicate AllEnded(s: Session) {
    forall i | 0 <= i < |s.producers| :: Ended(s.producers[i])
  }

  /** stop has joined everything and reported on the recording. */
  predicate Concluded(s: Session) { s.outcome == Some(Verified) || s.outcome == Some(NeedsRecovery) }

  ghost predicate Inv(s: Session) {
    && (forall i | 0 <= i < |s.producers| :: ProducerOk(s, i))
    && (s.direct ==> |s.producers| == 1 && s.writerQueue == [])
    && (s.writer.WriterClosed? && s.lastError.None? ==> s.writerQueue == [])
    && (!Tainted(s) ==> AllDelivered(s))
    && (s.outcome == Some(Verified) ==> !Tainted(s) && s.writerQueue == [] && AllExited(s))
    && (Concluded(s) ==> !s.writer.WriterRunning? && AllEnded(s))
  }

  lemma InitHasInv(s: Session)
    requires Init(s)
    ensures Inv(s) && !Tainted(s)
  {
    forall i | 0 <= i < |s.producers|
      ensures ProducerOk(s, i) && Delivered(s, i)
    {
      assert s.durable + s.writerQueue == [];
    }
  }

  lemma PopKeepsBytes(p: Producer, sent: seq<Byte>)
    requires p.queue != []
    ensures sent + p.pending + Flatten(p.queue) == sent + (p.pending + p.queue[0]) + Flatten(p.queue[1..])
  {
    assert sent + p.pending + (p.queue[0] + Flatten(p.queue[1..])) == sent + (p.pending + p.queue[0]) + Flatten(p.queue[1..]);
  }

  lemma CallbackKeepsInv(p: Producer, bytes: seq<Byte>)
    requires ProducerInv(p) && p.streamLive
    ensures ProducerInv(OnCallback(p, bytes))
    ensures Marked(p) ==> Marked(OnCallback(p, bytes))
    ensures Marked(OnCallback(p, bytes)) <==> Marked(p) || |p.queue| >= CAPTURE_CALLBACK_QUEUE_CAPACITY
  {
    if |p.queue| < CAPTURE_CALLBACK_QUEUE_CAPACITY {
      FlattenSnoc(p.queue, bytes);
      assert p.pending + (Flatten(p.queue) + bytes) == p.pending + Flatten(p.queue) + bytes;
    }
  }

  /** Cutting a chunk moves bytes from `pending` to `emitted` and loses none; closing drops
      less than one frame. */
  lemma EmitKeepsInv(p: Producer, length: nat, last: bool)
    requires ProducerInv(p) && (if last then p.pc.FlushAll? else p.pc.Flush?)
    requires 0 < length <= |p.pending| && length % p.stream.frameBytes == 0
    requires !last ==> length == p.stream.targetBytes
    requires last ==> |p.pending| < length + p.stream.frameBytes
    ensures ProducerInv(Emit(p, length, last))
  {
    hide OnGrid, CountsFrames, NothingLost;
    GridExtend(p.stream, p.emitted, p.framesWritten, p.pending[..length], last);
    GridExtend(p.stream, p.emitted, p.framesWritten, p.pending[..length], true);
    if !Marked(p) { EmitLosesNothing(p, length, last); }
  }

  lemma EmitLosesNothing(p: Producer, length: nat, last: bool)
    requires p.stream.Valid() && length <= |p.pending| && !Closing(p) && NothingLost(p)
    requires OnGrid(p.stream, Emit(p, length, last).emitted, true)
    requires last ==> p.queue == [] && |p.pending| < length + p.stream.frameBytes
    ensures NothingLost(Emit(p, length, last))
  {
    var q := Emit(p, length, last);
    var cut := p.pending[..length];
    assert q.emitted[..|q.emitted| - 1] == p.emitted;
    assert Payload(q.emitted) == Payload(p.emitted) + cut;
    assert p.pending == cut + q.pending;
    assert Payload(p.emitted) + p.pending == Payload(q.emitted) + q.pending;
    if last {
      assert p.produced == Payload(q.emitted) + q.pending;
      CutLeavesWholeFrames(p.stream, q.emitted, q.pending, p.produced);
    }
  }

  lemma CutLeavesWholeFrames(stream: Stream, emitted: seq<Chunk>, rest: seq<Byte>, produced: seq<Byte>)
    requires stream.Valid() && OnGrid(stream, emitted, true)
    requires produced == Payload(emitted) + rest && |rest| < stream.frameBytes
    ensures Payload(emitted) == WholeFrames(produced, stream.frameBytes)
  {
    GridPayload(stream, emitted, true);
    AddWholeUnits(|Payload(emitted)|, |rest|, stream.frameBytes);
    DivModUnique(|rest|, stream.frameBytes, 0, |rest|);
  }

  /** Receiving or draining a buffer. */
  lemma PopKeepsInv(p: Producer, next: Pc)
    requires ProducerInv(p) && p.queue != []
    requires (p.pc.Receive? && next.CheckAfter?) || (p.pc.Drain? && next.Drain?)
    ensures ProducerInv(p.(pending := p.pending + p.queue[0], queue := p.queue[1..], pc := next))
  {
    PopKeepsBytes(p, Payload(p.emitted));
  }

  lemma FlushAllKeepsInv(p: Producer)
    requires ProducerInv(p) && p.pc.FlushAll?
    ensures ProducerInv(LocalStep(p, false, Nothing))
  {
    hide OnGrid, CountsFrames, Emit, WholeFrames, Payload, Flatten;
    RoundDown(|p.pending|, p.stream.frameBytes);
    var full := |p.pending| - |p.pending| % p.stream.frameBytes;
    if full != 0 {
      EmitKeepsInv(p, full, true);
    } else if !Marked(p) {
      NothingFlattens();
      assert p.produced == Payload(p.emitted) + p.pending;
      CutLeavesWholeFrames(p.stream, p.emitted, p.pending, p.produced);
    }
  }

  lemma NothingFlattens()
    ensures Flatten<Byte>([]) == []
  {}

  lemma FlushKeepsInv(p: Producer)
    requires ProducerInv(p) && p.pc.Flush?
    ensures ProducerInv(LocalStep(p, false, Nothing))
  {
    hide OnGrid, CountsFrames, Emit;
    if |p.pending| >= p.stream.targetBytes { EmitKeepsInv(p, p.stream.targetBytes, false); }
  }

  lemma LocalStepKeepsInv(p: Producer, stop: bool, input: Input)
    requires ProducerInv(p) && !p.pc.Writing? && !p.pc.Finish? && !Ended(p)
    requires p.pc.Receive? && input.Data? ==> p.queue != []
    ensures ProducerInv(LocalStep(p, stop, input))
  {
    if p.queue != [] && ((p.pc.Receive? && input.Data?) || p.pc.Drain?) {
      PopKeepsInv(p, if p.pc.Drain? then Drain else CheckAfter);
    } else if p.pc.Flush? {
      FlushKeepsInv(p);
      assert LocalStep(p, stop, input) == LocalStep(p, false, Nothing);
    } else if p.pc.FlushAll? {
      FlushAllKeepsInv(p);
      assert LocalStep(p, stop, input) == LocalStep(p, false, Nothing);
    } else {
      QuietStepKeepsInv(p, stop, input);
    }
  }

  /** Steps that move no audio keep the invariant when the new program point allows it. */
  lemma SameAudioKeepsInv(p: Producer, q: Producer)
    requires ProducerInv(p) && !Closing(p) && !p.pc.Panicked? && !Closing(q) && !q.pc.Panicked?
    requires q == p.(pc := q.pc, streamLive := q.streamLive, failure := q.failure,
                     captureError := q.captureError, callbackError := q.callbackError)
    requires q.pc.Drain? || q.pc.TakeFinal? || q.pc.FlushAll? ==> !q.streamLive
    requires q.pc.TakeFinal? || q.pc.FlushAll? ==> q.queue == []
    requires q.pc.FlushAll? ==> q.failure.None?
    requires q.callbackError.Some? ==> q.pc.FlushAll?
    requires Marked(p) ==> Marked(q)
    ensures ProducerInv(q)
  {}

  lemma QuietStepShape(p: Producer, stop: bool, input: Input)
    requires p.stream.Valid() && !p.pc.Writing? && !p.pc.Finish? && !Ended(p) && !p.pc.Flush? && !p.pc.FlushAll?
    requires p.pc.Receive? ==> !input.Data?
    requires p.pc.Drain? ==> p.queue == []
    requires p.pc.Drain? || p.pc.TakeFinal? ==> !p.streamLive
    requires p.pc.TakeFinal? ==> p.queue == []
    requires p.callbackError.None?
    ensures var q := LocalStep(p, stop, input);
            && !Closing(q) && !q.pc.Panicked?
            && q == p.(pc := q.pc, streamLive := q.streamLive, failure := q.failure,
                       captureError := q.captureError, callbackError := q.callbackError)
            && (q.pc.Drain? || q.pc.TakeFinal? || q.pc.FlushAll? ==> !q.streamLive)
            && (q.pc.TakeFinal? || q.pc.FlushAll? ==> q.queue == [])
            && (q.pc.FlushAll? ==> q.failure.None?)
            && (q.callbackError.Some? ==> q.pc.FlushAll?)
            && (Marked(p) ==> Marked(q))
  {}

  lemma QuietStepKeepsInv(p: Producer, stop: bool, input: Input)
    requires ProducerInv(p) && !p.pc.Writing? && !p.pc.Finish? && !Ended(p) && !p.pc.Flush? && !p.pc.FlushAll?
    requires p.pc.Receive? ==> !input.Data?
    requires p.pc.Drain? ==> p.queue == []
    ensures ProducerInv(LocalStep(p, stop, input))
  {
    QuietStepShape(p, stop, input);
    SameAudioKeepsInv(p, LocalStep(p, stop, input));
  }

  /** What else a local step does: it can only mark the thread when the stream ended early,
      and a chunk it cuts is the one it is about to write. */
  lemma LocalStepEffect(p: Producer, stop: bool, input: Input)
    requires p.stream.Valid() && !p.pc.Writing? && !p.pc.Finish? && !Ended(p)
    requires p.pc.Receive? && input.Data? ==> p.queue != []
    ensures var q := LocalStep(p, stop, input);
            && ((p.pc.TakeFinal? ==> p.callbackError.None?) ==>
                  (Marked(q) <==> Marked(p) || (p.pc.Receive? && input.StreamEnded?)))
            && q.emitted == p.emitted + InSink(q)
            && q.produced == p.produced
            && q.stream == p.stream
            && !q.pc.Exited?
            && (q.pc.Writing? ==> q.pc.chunk.source == p.stream.source)
  {}

  lemma WriteEndKeepsInv(p: Producer, f: Failure)
    requires ProducerInv(p) && p.pc.Writing?
    ensures ProducerInv(WriteDone(p)) && ProducerInv(WriteFailed(p, f))
    ensures Marked(WriteDone(p)) == Marked(p) && Marked(WriteFailed(p, f))
  {}

  /** A chunk that leaves the sink joins exactly its own source's chunks. */
  lemma ChunksOfSnoc(chunks: seq<Chunk>, c: Chunk, source: nat)
    ensures ChunksOf(chunks + [c], source) == ChunksOf(chunks, source) + (if c.source == source then [c] else [])
  {
    assert (chunks + [c])[..|chunks|] == chunks;
  }

  /** Only producer i changed: marks elsewhere, the error slot and the writer decide the taint. */
  lemma TaintOfOneChange(s: Session, s': Session, i: nat)
    requires i < |s.producers| == |s'.producers|
    requires s'.producers == s.producers[i := s'.producers[i]]
    requires Marked(s.producers[i]) ==> Marked(s'.producers[i]) || s'.lastError.Some?
    requires s.lastError.Some? ==> s'.lastError.Some?
    requires s'.writer == s.writer
    ensures Tainted(s') <==> Tainted(s) || Marked(s'.producers[i]) || s'.lastError.Some?
  {
    if Tainted(s) && s'.lastError.None? && !s'.writer.WriterPanicked? {
      var j :| 0 <= j < |s.producers| && Marked(s.producers[j]);
      assert Marked(s'.producers[j]);
    }
    if Tainted(s') && s'.lastError.None? && !s'.writer.WriterPanicked? {
      var j :| 0 <= j < |s'.producers| && Marked(s'.producers[j]);
      if j != i { assert Marked(s.producers[j]); }
    }
  }

  /** Frame for a step of producer i: the other producers and their obligations are untouched. */
  lemma OneChangeKeepsInv(s: Session, s': Session, i: nat)
    requires Inv(s) && i < |s.producers| == |s'.producers|
    requires s'.producers == s.producers[i := s'.producers[i]]
    requires s'.direct == s.direct && s'.writer == s.writer && !Concluded(s')
    requires s.lastError.Some? ==> s'.lastError.Some?
    requires s.direct || !s.writer.WriterRunning? ==> s'.writerQueue == s.writerQueue
    requires ProducerOk(s', i)
    requires !Tainted(s') ==> AllDelivered(s')
    ensures Inv(s')
  {
    hide ProducerInv, ChunksOf;
    forall j | 0 <= j < |s'.producers|
      ensures ProducerOk(s', j)
    {
      if j != i { assert ProducerOk(s, j); }
    }
  }

  /** A chunk accepted by the store or by the writer queue counts for its own source only. */
  lemma SinkKeepsDelivered(s: Session, s': Session, i: nat)
    requires Inv(s) && !Tainted(s) && i < |s.producers| && s.producers[i].pc.Writing?
    requires s'.producers == s.producers[i := WriteDone(s.producers[i])]
    requires s'.durable + s'.writerQueue == (s.durable + s.writerQueue) + [s.producers[i].pc.chunk]
    ensures AllDelivered(s')
  {
    forall j | 0 <= j < |s'.producers|
      ensures Delivered(s', j)
    {
      assert Delivered(s, j) && ProducerOk(s, i);
      ChunksOfSnoc(s.durable + s.writerQueue, s.producers[i].pc.chunk, j);
    }
  }

  lemma SinkStepKeepsInv(s: Session, i: nat, input: Input)
    requires Inv(s) && !Concluded(s) && CanAdvance(s, i, input) && s.producers[i].pc.Writing?
    ensures Inv(SinkStep(s, i, input))
    ensures Tainted(SinkStep(s, i, input)) <==>
              Tainted(s) || (if s.direct then input.NotStored? else !s.writer.WriterRunning?)
  {
    hide ProducerInv, ChunksOf, NextChunk, WellFormed;
    var s', p := SinkStep(s, i, input), s.producers[i];
    assert ProducerOk(s, i);
    WriteEndKeepsInv(p, StoreFailed);
    WriteEndKeepsInv(p, WriterUnavailable);
    TaintOfOneChange(s, s', i);
    if Marked(p) { assert Tainted(s); }
    if !Tainted(s') {
      assert s'.durable + s'.writerQueue == (s.durable + s.writerQueue) + [p.pc.chunk];
      SinkKeepsDelivered(s, s', i);
    }
    OneChangeKeepsInv(s, s', i);
  }

  lemma ProducerStepKeepsInv(s: Session, i: nat, q: Producer)
    requires Inv(s) && !Concluded(s) && i < |s.producers|
    requires ProducerInv(q) && q.stream == s.producers[i].stream && !q.pc.Exited?
    requires !s.producers[i].pc.Writing? || q.pc == s.producers[i].pc || q.pc.Panicked?
    requires Marked(s.producers[i]) ==> Marked(q)
    requires !Marked(q) ==> q.emitted == s.producers[i].emitted + (if s.producers[i].pc.Writing? then [] else InSink(q))
    requires q.pc.Writing? ==> q.pc.chunk.source == i
    ensures Inv(With(s, i, q))
    ensures Tainted(With(s, i, q)) <==> Tainted(s) || Marked(q)
  {
    hide ProducerInv, ChunksOf;
    var s' := With(s, i, q);
    assert ProducerOk(s, i);
    TaintOfOneChange(s, s', i);
    if !Tainted(s') {
      forall j | 0 <= j < |s.producers|
        ensures Delivered(s', j)
      {
        assert Delivered(s, j);
        assert !Marked(s'.producers[j]);
      }
    }
    OneChangeKeepsInv(s, s', i);
  }

  /** Faults: a dropped buffer, a stream error, a stream that ended early, a failed write, a
      closed writer or a panic. */
  ghost predicate Fault(s: Session, e: Event)
    requires Enabled(s, e)
  {
    match e
    case Callback(i, _) => |s.producers[i].queue| >= CAPTURE_CALLBACK_QUEUE_CAPACITY
    case StreamFault(_) => true
    case Advance(i, input) =>
      || (s.producers[i].pc.Receive? && input.StreamEnded?)
      || (s.producers[i].pc.Writing? && (if s.direct then input.NotStored? else !s.writer.WriterRunning?))
    case ThreadPanic(_) => true
    case WriteNext(stored) => !stored
    case WriterPanic => true
    case _ => false
  }

  lemma AdvanceKeepsInv(s: Session, i: nat, input: Input)
    requires Inv(s) && !Concluded(s) && WellFormed(s) && Enabled(s, Advance(i, input))
    ensures Inv(Step(s, Advance(i, input)))
    ensures Tainted(Step(s, Advance(i, input))) <==> Tainted(s) || Fault(s, Advance(i, input))
  {
    var p := s.producers[i];
    assert ProducerOk(s, i);
    if Marked(p) { assert Tainted(s); }
    if p.pc.Writing? {
      SinkStepKeepsInv(s, i, input);
    } else if p.pc.Finish? {
      FinishKeepsInv(s, i);
    } else {
      LocalStepKeepsInv(p, s.stop, input);
      LocalStepEffect(p, s.stop, input);
      ProducerStepKeepsInv(s, i, LocalStep(p, s.stop, input));
    }
  }

  lemma FinishKeepsInv(s: Session, i: nat)
    requires Inv(s) && !Concluded(s) && i < |s.producers| && s.producers[i].pc.Finish?
    ensures Inv(FinishStep(s, i))
    ensures Tainted(FinishStep(s, i)) <==> Tainted(s)
  {
    hide ChunksOf;
    var s' := FinishStep(s, i);
    assert ProducerOk(s, i);
    assert Marked(s.producers[i]) ==> Tainted(s);
    TaintOfOneChange(s, s', i);
    if !Tainted(s') {
      forall j | 0 <= j < |s.producers|
        ensures Delivered(s', j)
      {
        assert Delivered(s, j);
      }
    }
    OneChangeKeepsInv(s, s', i);
  }

  /** Once stop has concluded nothing can happen any more: every thread has ended, its stream is
      gone, and the writer has closed. */
  lemma ConclusionIsFinal(s: Session, e: Event)
    requires Inv(s)
    ensures Concluded(s) ==> !Enabled(s, e)
  {
    if Concluded(s) && e.Callback? && e.i < |s.producers| { assert ProducerOk(s, e.i) && Ended(s.producers[e.i]); }
    if Concluded(s) && e.StreamFault? && e.i < |s.producers| { assert ProducerOk(s, e.i) && Ended(s.producers[e.i]); }
  }

  lemma StepKeepsInv(s: Session, e: Event)
    requires Inv(s) && WellFormed(s) && Enabled(s, e)
    ensures Inv(Step(s, e))
    ensures Tainted(Step(s, e)) <==> Tainted(s) || Fault(s, e)
  {
    ConclusionIsFinal(s, e);
    hide LocalStep, SinkStep, FinishStep, StopMeetsPanic;
    match e
    case Callback(i, bytes) =>
      assert ProducerOk(s, i);
      CallbackKeepsInv(s.producers[i], bytes);
      ProducerStepKeepsInv(s, i, OnCallback(s.producers[i], bytes));
      if Marked(s.producers[i]) { assert Tainted(s); }
    case StreamFault(i) =>
      assert ProducerOk(s, i);
      ProducerStepKeepsInv(s, i, RecordFailure(s.producers[i], StreamFailed));
    case Advance(i, input) => AdvanceKeepsInv(s, i, input);
    case ThreadPanic(i) =>
      assert ProducerOk(s, i);
      ProducerStepKeepsInv(s, i, s.producers[i].(pc := Panicked, streamLive := false));
    case WriteNext(stored) =>
      assert (s.durable + [s.writerQueue[0]]) + s.writerQueue[1..] == s.durable + s.writerQueue;
      SharedStepKeepsInv(s, Step(s, e));
    case _ => SharedStepKeepsInv(s, Step(s, e));
  }

  /** Steps of the writer and of stop leave every producer alone. */
  lemma SharedStepKeepsInv(s: Session, s': Session)
    requires Inv(s) && !Concluded(s)
    requires s'.producers == s.producers && s'.direct == s.direct
    requires s'.durable + s'.writerQueue == s.durable + s.writerQueue
    requires s.direct ==> s'.writerQueue == []
    requires s.lastError.Some? ==> s'.lastError.Some?
    requires s.writer.WriterPanicked? ==> s'.writer.WriterPanicked?
    requires s'.writer.WriterClosed? && s'.lastError.None? ==> s'.writerQueue == []
    requires s'.outcome == Some(Verified) ==>
               s'.lastError.None? && s'.writer.WriterClosed? && AllExited(s)
    requires Concluded(s') ==> !s'.writer.WriterRunning? && AllEnded(s)
    ensures Inv(s')
    ensures Tainted(s') <==> Tainted(s) || s'.lastError.Some? || s'.writer.WriterPanicked?
  {
    hide ProducerInv, ChunksOf;
    forall j | 0 <= j < |s'.producers|
      ensures ProducerOk(s', j)
    {
      assert ProducerOk(s, j);
    }
    if Tainted(s) && s'.lastError.None? && !s'.writer.WriterPanicked? {
      var j :| 0 <= j < |s.producers| && Marked(s.producers[j]);
      assert Marked(s'.producers[j]);
    }
    if Tainted(s') && s'.lastError.None? && !s'.writer.WriterPanicked? {
      var j :| 0 <= j < |s'.producers| && Marked(s'.producers[j]);
      assert Marked(s.producers[j]);
    }
    if s'.outcome == Some(Verified) {
      forall j | 0 <= j < |s'.producers|
        ensures !Marked(s'.producers[j])
      {
        assert ProducerOk(s, j);
      }
    }
    if !Tainted(s') {
      assert !Tainted(s);
      forall j | 0 <= j < |s.producers|
        ensures Delivered(s', j)
      {
        assert Delivered(s, j);
      }
    }
  }

  // ---- Runs ----

  ghost predicate Next(s: Session, e: Event, s': Session) {
    WellFormed(s) && Enabled(s, e) && s' == Step(s, e)
  }

  /** A run: the states before and after each of its events. */
  ghost predicate Run(states: seq<Session>, events: seq<Event>) {
    && |states| == |events| + 1
    && Init(states[0])
    && forall k | 0 <= k < |events| :: Next(states[k], events[k], states[k + 1])
  }

  /** Everything the callbacks of source i delivered, dropped or not. */
  function Delivery(events: seq<Event>, i: nat): seq<Byte> {
    if events == [] then []
    else
      var init, e := events[..|events| - 1], events[|events| - 1];
      Delivery(init, i) + (if e.Callback? && e.i == i then e.bytes else [])
  }

  ghost predicate FaultAt(states: seq<Session>, events: seq<Event>, k: nat)
    requires k < |events| && |states| == |events| + 1
  {
    Enabled(states[k], events[k]) && Fault(states[k], events[k])
  }

  ghost predicate FaultFree(states: seq<Session>, events: seq<Event>)
    requires |states| == |events| + 1
  {
    forall k | 0 <= k < |events| :: !FaultAt(states, events, k)
  }

  lemma {:induction false} RunKeepsInv(states: seq<Session>, events: seq<Event>, k: nat)
    requires Run(states, events) && k <= |events|
    ensures Inv(states[k])
    ensures Tainted(states[k]) <==> exists j | 0 <= j < k :: FaultAt(states, events, j)
  {
    if k == 0 {
      InitHasInv(states[0]);
    } else {
      RunKeepsInv(states, events, k - 1);
      assert Next(states[k - 1], events[k - 1], states[k]);
      StepKeepsInv(states[k - 1], events[k - 1]);
      assert Tainted(states[k]) <==> Tainted(states[k - 1]) || FaultAt(states, events, k - 1);
    }
  }

  lemma StepLogsCallbacks(s: Session, e: Event, i: nat)
    requires WellFormed(s) && Enabled(s, e) && i < |s.producers|
    ensures |Step(s, e).producers| == |s.producers|
    ensures Step(s, e).producers[i].stream == s.producers[i].stream
    ensures Step(s, e).producers[i].produced ==
              s.producers[i].produced + (if e.Callback? && e.i == i then e.bytes else [])
  {
    hide LocalStep, StopMeetsPanic;
    if e.Advance? && e.i == i && !s.producers[i].pc.Writing? && !s.producers[i].pc.Finish? {
      LocalStepEffect(s.producers[i], s.stop, e.input);
    }
  }

  lemma StepLogsLength(s: Session, e: Event)
    requires WellFormed(s) && Enabled(s, e)
    ensures |Step(s, e).producers| == |s.producers|
  {}

  /** The log kept in the state is the log of the run. */
  lemma {:induction false} RunLogsCallbacks(states: seq<Session>, events: seq<Event>, k: nat, i: nat)
    requires Run(states, events) && k <= |events| && i < |states[0].producers|
    ensures i < |states[k].producers|
    ensures states[k].producers[i].stream == states[0].producers[i].stream
    ensures states[k].producers[i].produced == Delivery(events[..k], i)
  {
    if k > 0 {
      RunLogsCallbacks(states, events, k - 1, i);
      assert Next(states[k - 1], events[k - 1], states[k]);
      StepLogsCallbacks(states[k - 1], events[k - 1], i);
      assert events[..k][..k - 1] == events[..k - 1];
    }
  }

  /** In a verified state every source is stored completely. */
  lemma VerifiedState(s: Session, i: nat)
    requires Inv(s) && s.outcome == Some(Verified) && i < |s.producers|
    ensures s.producers[i].stream.Valid()
    ensures Payload(ChunksOf(s.durable, i)) == WholeFrames(s.producers[i].produced, s.producers[i].stream.frameBytes)
    ensures OnGrid(s.producers[i].stream, ChunksOf(s.durable, i), true)
  {
    assert ProducerOk(s, i) && Delivered(s, i) && !Marked(s.producers[i]);
    assert s.durable + s.writerQueue == s.durable;
    assert s.producers[i].pc.Exited? && NothingLost(s.producers[i]);
    assert ChunksOf(s.durable, i) == s.producers[i].emitted;
  }

  /** The integrity theorem: over every interleaving of callbacks, threads, writer and stop,
      a session reported as verified has, for each source, stored exactly the bytes its
      callbacks delivered, in order and cut to whole frames, as chunks on that source's grid. */
  lemma VerifiedMeansComplete(states: seq<Session>, events: seq<Event>, i: nat)
    requires Run(states, events) && states[|events|].outcome == Some(Verified)
    requires i < |states[0].producers|
    ensures var stream, stored := states[0].producers[i].stream, ChunksOf(states[|events|].durable, i);
            && stream.Valid()
            && Payload(stored) == WholeFrames(Delivery(events, i), stream.frameBytes)
            && OnGrid(stream, stored, true)
  {
    RunKeepsInv(states, events, |events|);
    RunLogsCallbacks(states, events, |events|, i);
    VerifiedState(states[|events|], i);
    assert events[..|events|] == events;
  }

  /** Nothing happens after stop has reported on the recording; only a join error, which comes at
      the first panicked thread, can be followed by steps of threads that are still alive. */
  lemma ReportEndsRun(states: seq<Session>, events: seq<Event>, k: nat)
    requires Run(states, events) && k < |events|
    ensures !Concluded(states[k])
  {
    RunKeepsInv(states, events, k);
    ConclusionIsFinal(states[k], events[k]);
    assert Next(states[k], events[k], states[k + 1]);
  }

  // ---- Which failure is reported ----

  predicate Panics(e: Event) { e.ThreadPanic? || e.WriterPanic? }

  predicate AnyPanicked(s: Session) {
    s.writer.WriterPanicked? || exists i | 0 <= i < |s.producers| :: s.producers[i].pc.Panicked?
  }

  lemma LocalStepDoesNotPanic(p: Producer, stop: bool, input: Input)
    requires p.stream.Valid() && !p.pc.Writing? && !p.pc.Finish? && !Ended(p)
    requires p.pc.Receive? && input.Data? ==> p.queue != []
    ensures !LocalStep(p, stop, input).pc.Panicked?
  {}

  lemma SinkStepDoesNotPanic(s: Session, i: nat, input: Input, k: nat)
    requires CanAdvance(s, i, input) && s.producers[i].pc.Writing? && k < |s.producers|
    ensures |SinkStep(s, i, input).producers| == |s.producers|
    ensures SinkStep(s, i, input).producers[k].pc.Panicked? <==> s.producers[k].pc.Panicked?
  {}

  lemma ThreadStepDoesNotPanic(s: Session, e: Event, i: nat)
    requires WellFormed(s) && Enabled(s, e) && i < |s.producers|
    ensures |Step(s, e).producers| == |s.producers|
    ensures Step(s, e).producers[i].pc.Panicked? <==> s.producers[i].pc.Panicked? || e == ThreadPanic(i)
  {
    hide LocalStep, SinkStep, StopMeetsPanic;
    if e.Advance? {
      var p := s.producers[e.i];
      if p.pc.Writing? {
        SinkStepDoesNotPanic(s, e.i, e.input, i);
      } else if !p.pc.Finish? {
        LocalStepDoesNotPanic(p, s.stop, e.input);
      }
    }
  }

  lemma PanicStep(s: Session, e: Event)
    requires WellFormed(s) && Enabled(s, e)
    ensures AnyPanicked(Step(s, e)) <==> AnyPanicked(s) || Panics(e)
  {
    forall i | 0 <= i < |s.producers|
      ensures |Step(s, e).producers| == |s.producers|
      ensures Step(s, e).producers[i].pc.Panicked? <==> s.producers[i].pc.Panicked? || e == ThreadPanic(i)
    {
      ThreadStepDoesNotPanic(s, e, i);
    }
    StepLogsLength(s, e);
    if e.ThreadPanic? { assert Step(s, e).producers[e.i].pc.Panicked?; }
    hide Step;
    if AnyPanicked(s) && !s.writer.WriterPanicked? {
      var i :| 0 <= i < |s.producers| && s.producers[i].pc.Panicked?;
      assert Step(s, e).producers[i].pc.Panicked?;
    }
    WriterPanicStep(s, e);
  }

  lemma WriterPanicStep(s: Session, e: Event)
    requires WellFormed(s) && Enabled(s, e)
    ensures Step(s, e).writer.WriterPanicked? <==> s.writer.WriterPanicked? || e.WriterPanic?
  {}

  lemma {:induction false} PanickedIffPanicEvent(states: seq<Session>, events: seq<Event>, k: nat)
    requires Run(states, events) && k <= |events|
    ensures AnyPanicked(states[k]) <==> exists j | 0 <= j < k :: Panics(events[j])
  {
    if k > 0 {
      PanickedIffPanicEvent(states, events, k - 1);
      assert Next(states[k - 1], events[k - 1], states[k]);
      PanicStep(states[k - 1], events[k - 1]);
    }
  }

  lemma ReportStepReasons(s: Session, e: Event)
    requires WellFormed(s) && Enabled(s, e) && !Concluded(s)
    requires s.outcome == Some(JoinFailed) ==> AnyPanicked(s)
    ensures var t := Step(s, e);
            && (t.outcome == Some(JoinFailed) ==> AnyPanicked(t))
            && (Concluded(t) ==> !AnyPanicked(t))
            && (t.outcome == Some(NeedsRecovery) ==> t.lastError.Some?)
  {
    PanicStep(s, e);
    hide WellFormed;
  }

  /** What the report of a state says of that state. */
  lemma {:induction false} ReportedState(states: seq<Session>, events: seq<Event>, k: nat)
    requires Run(states, events) && k <= |events|
    ensures states[k].outcome == Some(JoinFailed) ==> AnyPanicked(states[k])
    ensures Concluded(states[k]) ==> !AnyPanicked(states[k])
    ensures states[k].outcome == Some(NeedsRecovery) ==> states[k].lastError.Some?
  {
    if k > 0 {
      ReportedState(states, events, k - 1);
      ReportEndsRun(states, events, k - 1);
      assert Next(states[k - 1], events[k - 1], states[k]);
      ReportStepReasons(states[k - 1], events[k - 1]);
    }
  }

  /** Fail closed, both ways: once stop has reported, the session is verified exactly when no
      buffer was dropped, no stream failed, no write failed and no thread panicked. */
  lemma VerifiedIffFaultFree(states: seq<Session>, events: seq<Event>)
    requires Run(states, events) && states[|events|].outcome.Some?
    ensures states[|events|].outcome == Some(Verified) <==> FaultFree(states, events)
  {
    var n := |events|;
    RunKeepsInv(states, events, n);
    ReportedState(states, events, n);
    PanickedIsTainted(states[n]);
    assert Tainted(states[n]) <==> !FaultFree(states, events);
    hide Tainted, AnyPanicked, FaultFree;
    match states[n].outcome.value
    case Verified =>
    case NeedsRecovery =>
    case JoinFailed =>
  }

  lemma PanickedIsTainted(s: Session)
    ensures AnyPanicked(s) || s.lastError.Some? ==> Tainted(s)
  {
    if i :| 0 <= i < |s.producers| && s.producers[i].pc.Panicked? { assert Marked(s.producers[i]); }
  }

  /** Every report is exact: stop fails to join precisely when a thread or the writer panicked,
      which hides any other fault; without a panic it asks for recovery precisely when a buffer
      was dropped, a stream failed or a write failed, and says verified precisely when none did. */
  lemma ReportedExactly(states: seq<Session>, events: seq<Event>)
    requires Run(states, events) && states[|events|].outcome.Some?
    ensures states[|events|].outcome == Some(JoinFailed) <==> exists k | 0 <= k < |events| :: Panics(events[k])
    ensures states[|events|].outcome == Some(NeedsRecovery) <==>
              !FaultFree(states, events) && forall k | 0 <= k < |events| :: !Panics(events[k])
    ensures states[|events|].outcome == Some(Verified) <==> FaultFree(states, events)
  {
    VerifiedIffFaultFree(states, events);
    PanickedIffPanicEvent(states, events, |events|);
    ReportedState(states, events, |events|);
    hide Run, FaultFree, AnyPanicked;
    match states[|events|].outcome.value
    case Verified =>
    case NeedsRecovery =>
    case JoinFailed =>
  }

  // ---- Recording keeps up and goes on ----

  /** The loop's points at which everything received so far has been through a flush. */
  predicate BetweenFlushes(pc: Pc) { pc.LoopTop? || pc.CheckBefore? || pc.Receive? }

  predicate FlushedUp(p: Producer) { BetweenFlushes(p.pc) ==> |p.pending| < p.stream.targetBytes }

  lemma LocalStepFlushesUp(p: Producer, stop: bool, input: Input)
    requires p.stream.Valid() && !p.pc.Writing? && !p.pc.Finish? && !Ended(p)
    requires p.pc.Receive? && input.Data? ==> p.queue != []
    requires FlushedUp(p)
    ensures FlushedUp(LocalStep(p, stop, input))
  {}

  /** The points after the loop, up to the end of the thread. */
  predicate LeftLoop(p: Producer) {
    p.pc.DropStream? || p.pc.Drain? || p.pc.TakeFinal? || p.pc.FlushAll? || p.pc.Finish? || p.pc.Exited?
    || (p.pc.Writing? && p.pc.last)
  }

  /** A thread leaves its loop exactly when it sees the stop flag, a recorded failure or the end of
      its stream. */
  lemma LeavesLoopExactly(p: Producer, stop: bool, input: Input)
    requires p.stream.Valid() && !p.pc.Writing? && !Ended(p) && !LeftLoop(p)
    requires p.pc.Receive? && input.Data? ==> p.queue != []
    ensures LeftLoop(LocalStep(p, stop, input)) <==>
      || (p.pc.LoopTop? && stop)
      || ((p.pc.CheckBefore? || p.pc.CheckAfter?) && p.failure.Some?)
      || (p.pc.Receive? && input.StreamEnded?)
  {}

  lemma LocalStepKeepsReason(p: Producer, stop: bool, input: Input)
    requires p.stream.Valid() && !p.pc.Writing? && !p.pc.Finish? && !Ended(p)
    requires p.pc.Receive? && input.Data? ==> p.queue != []
    requires LeftLoop(p) ==> stop || p.captureError.Some?
    ensures LeftLoop(LocalStep(p, stop, input)) ==> stop || LocalStep(p, stop, input).captureError.Some?
  {}

  /** What holds of every thread in the middle of a recording. */
  ghost predicate GoesOn(s: Session, i: nat)
    requires i < |s.producers|
  {
    FlushedUp(s.producers[i]) && (LeftLoop(s.producers[i]) ==> s.stop || s.producers[i].captureError.Some?)
  }

  lemma ThreadStepGoesOn(s: Session, i: nat, input: Input)
    requires WellFormed(s) && Enabled(s, Advance(i, input)) && GoesOn(s, i)
    ensures |Step(s, Advance(i, input)).producers| == |s.producers| && GoesOn(Step(s, Advance(i, input)), i)
  {
    hide LocalStep;
    var p := s.producers[i];
    if !p.pc.Writing? && !p.pc.Finish? {
      LocalStepFlushesUp(p, s.stop, input);
      LocalStepKeepsReason(p, s.stop, input);
    }
  }

  lemma OtherStepGoesOn(s: Session, e: Event, i: nat)
    requires WellFormed(s) && Enabled(s, e) && i < |s.producers| && GoesOn(s, i)
    requires e.Advance? ==> e.i != i
    ensures |Step(s, e).producers| == |s.producers| && GoesOn(Step(s, e), i)
  {
    hide Step, LocalStep, StopMeetsPanic;
    if e.Advance? { OtherThreadLeaves(s, e, i); } else { EnvironmentLeaves(s, e, i); }
  }

  /** What a step of another thread leaves of this one: all of it, and a stop flag still set. */
  lemma OtherThreadLeaves(s: Session, e: Event, i: nat)
    requires WellFormed(s) && Enabled(s, e) && i < |s.producers| && e.Advance? && e.i != i
    ensures |Step(s, e).producers| == |s.producers| && Step(s, e).producers[i] == s.producers[i]
    ensures s.stop ==> Step(s, e).stop
  {
    hide LocalStep;
  }

  /** Any other step leaves it where it is with what it has pending, or dead. */
  lemma EnvironmentLeaves(s: Session, e: Event, i: nat)
    requires WellFormed(s) && Enabled(s, e) && i < |s.producers| && !e.Advance?
    ensures |Step(s, e).producers| == |s.producers|
    ensures var p, p' := s.producers[i], Step(s, e).producers[i];
            && (p'.pc == p.pc || p'.pc.Panicked?)
            && p'.pending == p.pending && p'.stream == p.stream && p'.captureError == p.captureError
    ensures s.stop ==> Step(s, e).stop
  {
    hide StopMeetsPanic;
  }

  /** Over every run, while a thread records: it has handed everything it took from its queue to
      the sink but less than one chunk; with nothing marked as lost that is all its callbacks
      delivered except what still waits in the queue; and it ends only for the stop flag or for an
      error it will report. */
  lemma {:induction false} RecordingKeepsUp(states: seq<Session>, events: seq<Event>, k: nat, i: nat)
    requires Run(states, events) && k <= |events| && i < |states[0].producers|
    ensures i < |states[k].producers| && GoesOn(states[k], i)
    ensures var p := states[k].producers[i];
            && (BetweenFlushes(p.pc) ==> |p.pending| < p.stream.targetBytes)
            && (BetweenFlushes(p.pc) && !Marked(p) ==> p.produced == Payload(p.emitted) + p.pending + Flatten(p.queue))
            && (LeftLoop(p) ==> states[k].stop || p.captureError.Some?)
  {
    RunLogsCallbacks(states, events, k, i);
    RunKeepsInv(states, events, k);
    assert ProducerOk(states[k], i);
    hide Run, Inv, Step, WellFormed, Enabled, OnGrid, CountsFrames;
    if k == 0 {
      StartGoesOn(states, events, i);
    } else {
      RecordingKeepsUp(states, events, k - 1, i);
      RunIsStep(states, events, k - 1);
      if events[k - 1].Advance? && events[k - 1].i == i {
        ThreadStepGoesOn(states[k - 1], i, events[k - 1].input);
      } else {
        OtherStepGoesOn(states[k - 1], events[k - 1], i);
      }
    }
  }

  lemma StartGoesOn(states: seq<Session>, events: seq<Event>, i: nat)
    requires Run(states, events) && i < |states[0].producers|
    ensures GoesOn(states[0], i)
  {}

  lemma RunIsStep(states: seq<Session>, events: seq<Event>, k: nat)
    requires Run(states, events) && k < |events|
    ensures WellFormed(states[k]) && Enabled(states[k], events[k]) && states[k + 1] == Step(states[k], events[k])
  {
    assert Next(states[k], events[k], states[k + 1]);
  }
}
