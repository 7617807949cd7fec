/** How a capture session moves on: where a thread goes from each of its points, what stop and the
    writer do, and why a session that was asked to stop always gets to its report. */
module CaptureProgress {
  import Arith
  import opened CaptureSession
  import opened ChunkGrid
  import opened Common

  // ---- One step ----

  /** The way through the loop and out of it. */
  lemma LoopStep(p: Producer, stop: bool, input: Input)
    requires p.stream.Valid() && !p.pc.Writing? && !p.pc.Finish? && !Ended(p)
    requires p.pc.Receive? && input.Data? ==> p.queue != []
    ensures var pc := LocalStep(p, stop, input).pc;
            && (pc.CheckBefore? <==> p.pc.LoopTop? && !stop)
            && (pc.Receive? <==> p.pc.CheckBefore? && p.failure.None?)
            && (pc.CheckAfter? <==> p.pc.Receive? && !input.StreamEnded?)
            && (pc.Flush? <==> p.pc.CheckAfter? && p.failure.None?)
            && (pc.LoopTop? <==> p.pc.Flush? && |p.pending| < p.stream.targetBytes)
            && (pc.Drain? <==> p.pc.DropStream? || (p.pc.Drain? && p.queue != []))
            && (pc.TakeFinal? <==> p.pc.Drain? && p.queue == [])
            && (pc.FlushAll? <==> p.pc.TakeFinal?)
  {}

  /** What is cut for the sink: a full chunk in the loop, all whole frames at the end. */
  lemma CutStep(p: Producer, stop: bool, input: Input)
    requires p.stream.Valid() && !p.pc.Writing? && !p.pc.Finish? && !Ended(p)
    requires p.pc.Receive? && input.Data? ==> p.queue != []
    ensures var q := LocalStep(p, stop, input);
            && (q.pc.Writing? ==> if q.pc.last then p.pc.FlushAll? else p.pc.Flush?)
            && (p.pc.Flush? && |p.pending| >= p.stream.targetBytes ==> q.pc.Writing? && |q.pc.chunk.bytes| == p.stream.targetBytes)
            && (p.pc.FlushAll? && |p.pending| >= p.stream.frameBytes ==>
                  q.pc.Writing? && |p.pending| - p.stream.frameBytes < |q.pc.chunk.bytes| <= |p.pending|)
            && (p.pc.FlushAll? && |p.pending| < p.stream.frameBytes ==> q.pc.Finish? && q.pending == [])
            && (q.pc.Writing? ==> p.pending == q.pc.chunk.bytes + q.pending)
  {
    if |p.pending| < p.stream.frameBytes { Arith.DivModUnique(|p.pending|, p.stream.frameBytes, 0, |p.pending|); }
    Arith.RoundDown(|p.pending|, p.stream.frameBytes);
  }

  /** Receiving and draining take the oldest buffer, whole, and nothing else touches the queue. */
  lemma TakeStep(p: Producer, stop: bool, input: Input)
    requires p.stream.Valid() && !p.pc.Writing? && !p.pc.Finish? && !Ended(p)
    requires p.pc.Receive? && input.Data? ==> p.queue != []
    ensures var q := LocalStep(p, stop, input);
            if (p.pc.Receive? && input.Data?) || (p.pc.Drain? && p.queue != [])
            then p.queue == [p.queue[0]] + q.queue && q.pending == p.pending + p.queue[0]
            else q.queue == p.queue
  {}

  /** Which errors a thread notes: the recorded failure at a check of the loop, the end of its
      stream, and what was recorded last when the stream is gone; taking a failure empties its slot. */
  lemma ErrorStep(p: Producer, stop: bool, input: Input)
    requires p.stream.Valid() && !p.pc.Writing? && !p.pc.Finish? && !Ended(p)
    requires p.pc.Receive? && input.Data? ==> p.queue != []
    ensures var q := LocalStep(p, stop, input);
            var checks := p.pc.CheckBefore? || p.pc.CheckAfter?;
            && q.captureError == (if checks && p.failure.Some? then p.failure
                                  else if p.pc.Receive? && input.StreamEnded? then Some(StreamClosed) else p.captureError)
            && q.callbackError == (if p.pc.TakeFinal? then p.failure else p.callbackError)
            && q.failure == (if checks || p.pc.TakeFinal? then None else p.failure)
            && q.flushError == p.flushError
            && (q.streamLive <==> p.streamLive && !p.pc.DropStream? && !(p.pc.Receive? && input.StreamEnded?))
  {}

  /** A callback queues its buffer if there is room and otherwise drops it with the overflow noted; a
      stream error is noted too; in both cases the failure noted first stays. */
  lemma EnvironmentStep(s: Session, e: Event)
    requires WellFormed(s) && Enabled(s, e) && (e.Callback? || e.StreamFault?)
    ensures var p, q := s.producers[e.i], Step(s, e).producers[e.i];
            var full := e.Callback? && |p.queue| >= CAPTURE_CALLBACK_QUEUE_CAPACITY;
            && q.queue == (if e.Callback? && !full then p.queue + [e.bytes] else p.queue)
            && q.failure == (if p.failure.Some? then p.failure
                             else if full then Some(CallbackOverflow)
                             else if e.StreamFault? then Some(StreamFailed) else None)
            && q.pc == p.pc && q.pending == p.pending
  {}

  /** A write that fails ends the loop, or the thread, with its error noted; one that succeeds goes
      on where it came from. */
  lemma WriteStep(s: Session, i: nat, input: Input)
    requires WellFormed(s) && Enabled(s, Advance(i, input)) && s.producers[i].pc.Writing?
    ensures var p, t := s.producers[i], Step(s, Advance(i, input));
            var taken := if s.direct then input.Stored? else s.writer.WriterRunning?;
            var f := if s.direct then StoreFailed else WriterUnavailable;
            && i < |t.producers|
            && t.producers[i].pc == (if p.pc.last then Finish else if taken then Flush else DropStream)
            && t.producers[i].flushError == (if p.pc.last && !taken then Some(f) else p.flushError)
            && t.producers[i].captureError == (if !p.pc.last && !taken then Some(f) else p.captureError)
            && t.durable == s.durable + (if taken && s.direct then [p.pc.chunk] else [])
            && t.writerQueue == s.writerQueue + (if taken && !s.direct then [p.pc.chunk] else [])
  {}

  /** The error a thread ends with: of its loop, of its callbacks, of its last flush, in this order. */
  function EndError(p: Producer): Option<Failure> {
    if p.captureError.Some? then p.captureError
    else if p.callbackError.Some? then p.callbackError else p.flushError
  }

  predicate Finishes(s: Session, e: Event) { e.Advance? && e.i < |s.producers| && s.producers[e.i].pc.Finish? }

  lemma SharedStep(s: Session, e: Event)
    requires WellFormed(s) && Enabled(s, e)
    ensures var t := Step(s, e);
            && (t.stop <==> s.stop || e.RequestStop? || (Finishes(s, e) && EndError(s.producers[e.i]).Some?))
            && (t.writer.WriterRunning? <==>
                  s.writer.WriterRunning? && !e.WriterFinish? && !e.WriterPanic? && e != WriteNext(false))
            && (t.writer.WriterPanicked? <==> s.writer.WriterPanicked? || e.WriterPanic?)
            && (t.outcome.Some? <==> s.outcome.Some? || e.ReportStop?)
            && t.lastError == (if s.lastError.Some? then s.lastError
                               else if e == WriteNext(false) then Some(StoreFailed)
                               else if Finishes(s, e) then EndError(s.producers[e.i]) else None)
            && (Finishes(s, e) ==> e.i < |t.producers| && t.producers[e.i].pc.Exited?)
  {
    hide LocalStep, StopMeetsPanic, OnCallback, RecordFailure;
  }

  ghost predicate Stops(states: seq<Session>, events: seq<Event>, j: nat)
    requires |states| == |events| + 1
  {
    j < |events| && (events[j].RequestStop? || (Finishes(states[j], events[j]) && EndError(states[j].producers[events[j].i]).Some?))
  }

  /** Over every run the threads are told to stop if and only if stop was called or a thread ended
      with an error. */
  lemma {:induction false} StoppedExactly(states: seq<Session>, events: seq<Event>, k: nat)
    requires Run(states, events) && k <= |events|
    ensures states[k].stop <==> exists j: nat :: j < k && Stops(states, events, j)
  {
    if k > 0 {
      StoppedExactly(states, events, k - 1);
      RunIsStep(states, events, k - 1);
      hide Step, Enabled, WellFormed, Run, Finishes;
      SharedStep(states[k - 1], events[k - 1]);
      assert Stops(states, events, k - 1) || (states[k].stop <==> states[k - 1].stop);
    }
  }

  // ---- Stopping ends ----

  /** How far a thread that was told to stop is from its end. */
  function Stage(pc: Pc): nat {
    match pc
    case CheckBefore => 12
    case Receive => 11
    case CheckAfter => 10
    case Flush => 9
    case Writing(_, last) => if last then 3 else 9
    case LoopTop => 8
    case DropStream => 7
    case Drain => 6
    case TakeFinal => 5
    case FlushAll => 4
    case Finish => 2
    case Exited => 0
    case Panicked => 0
  }

  /** How much is left to do at that stage: chunks to cut, or buffers to drain. */
  function Work(p: Producer): nat {
    match p.pc
    case Flush => 2 * |p.pending|
    case Writing(_, last) => if last then 0 else 2 * |p.pending| + 1
    case Drain => |p.queue|
    case _ => 0
  }

  predicate Closer(q: Producer, p: Producer) {
    Stage(q.pc) < Stage(p.pc) || (Stage(q.pc) == Stage(p.pc) && Work(q) < Work(p))
  }

  predicate NoFarther(q: Producer, p: Producer) { Closer(q, p) || (Stage(q.pc) == Stage(p.pc) && Work(q) == Work(p)) }

  lemma LocalStepGetsCloser(p: Producer, input: Input)
    requires p.stream.Valid() && !p.pc.Writing? && !p.pc.Finish? && !Ended(p)
    requires p.pc.Receive? && input.Data? ==> p.queue != []
    ensures Closer(LocalStep(p, true, input), p)
  {}

  /** Once the flag is up, every step of a thread brings it closer to its end. */
  lemma OwnStepGetsCloser(s: Session, i: nat, input: Input)
    requires WellFormed(s) && Enabled(s, Advance(i, input)) && s.stop
    ensures i < |Step(s, Advance(i, input)).producers|
    ensures Closer(Step(s, Advance(i, input)).producers[i], s.producers[i])
  {
    hide LocalStep;
    var p := s.producers[i];
    if !p.pc.Writing? && !p.pc.Finish? { LocalStepGetsCloser(p, input); }
  }

  /** And no other step takes it away again. */
  lemma OthersDoNotDelay(s: Session, e: Event, i: nat)
    requires Inv(s) && WellFormed(s) && Enabled(s, e) && i < |s.producers| && (e.Advance? ==> e.i != i)
    ensures i < |Step(s, e).producers| && NoFarther(Step(s, e).producers[i], s.producers[i])
    ensures s.stop ==> Step(s, e).stop
  {
    assert ProducerOk(s, i);
    hide LocalStep, StopMeetsPanic, Inv, OnGrid, CountsFrames, NothingLost;
    if e.Advance? { OtherThreadLeaves(s, e, i); } else { OutsideStep(s, e, i); }
  }

  lemma OutsideStep(s: Session, e: Event, i: nat)
    requires WellFormed(s) && Enabled(s, e) && i < |s.producers| && !e.Advance?
    requires s.producers[i].pc.Drain? ==> !s.producers[i].streamLive
    ensures |Step(s, e).producers| == |s.producers|
    ensures NoFarther(Step(s, e).producers[i], s.producers[i])
    ensures s.stop ==> Step(s, e).stop
  {
    hide StopMeetsPanic;
  }

  /** The next step towards the report: of thread i, or of the writer it waits for. */
  function Toward(s: Session, i: nat): Event
    requires i < |s.producers|
  {
    var p := s.producers[i];
    if p.pc.Writing? && !s.direct && s.writer.WriterRunning? && |s.writerQueue| >= WRITER_QUEUE_CAPACITY then WriteNext(true)
    else Advance(i, if p.pc.Writing? && s.direct then Stored else Nothing)
  }

  /** A thread that has not ended can always take a step, or waits for a writer that can. */
  lemma AlwaysAStep(s: Session, i: nat)
    requires i < |s.producers| && !Ended(s.producers[i])
    ensures Enabled(s, Toward(s, i))
  {}

  /** A run continued by steps of the session's own threads. */
  ghost predicate Continues(states: seq<Session>, events: seq<Event>, more: seq<Session>, all: seq<Event>) {
    && Run(more, all) && states != [] && more[0] == states[0] && |events| <= |all| && all[..|events|] == events
    && forall k | |events| <= k < |all| :: OwnWork(all[k])
  }

  predicate OwnWork(e: Event) { e.Advance? || e == WriteNext(true) || e.WriterFinish? || e.ReportStop? }

  lemma ContinueWith(states: seq<Session>, events: seq<Event>, e: Event) returns (more: seq<Session>, all: seq<Event>)
    requires Run(states, events) && Enabled(states[|events|], e) && OwnWork(e)
    ensures WellFormed(states[|events|]) && more == states + [Step(states[|events|], e)] && all == events + [e]
    ensures Continues(states, events, more, all) && more[|all|] == Step(states[|events|], e)
  {
    RunIsWellFormed(states, events, |events|);
    more, all := states + [Step(states[|events|], e)], events + [e];
    forall k | 0 <= k < |all|
      ensures Next(more[k], all[k], more[k + 1])
    {
      if k < |events| { assert Next(states[k], events[k], states[k + 1]); }
    }
  }

  lemma RunIsWellFormed(states: seq<Session>, events: seq<Event>, k: nat)
    requires Run(states, events) && k <= |events|
    ensures WellFormed(states[k])
  {
    RunKeepsInv(states, events, k);
    forall i | 0 <= i < |states[k].producers|
      ensures states[k].producers[i].stream.Valid() && states[k].producers[i].stream.source == i
    {
      assert ProducerOk(states[k], i);
    }
  }

  lemma ContinuesOn(states: seq<Session>, events: seq<Event>, mid: seq<Session>, half: seq<Event>,
                    more: seq<Session>, all: seq<Event>)
    requires Continues(states, events, mid, half) && Continues(mid, half, more, all)
    ensures Continues(states, events, more, all)
  {
    assert all[..|events|] == half[..|events|];
    forall k | |events| <= k < |all|
      ensures OwnWork(all[k])
    {
      if k < |half| { assert all[k] == half[k]; }
    }
  }

  /** What a session that was told to stop keeps while its threads end one by one. */
  predicate StillStopping(s: Session, t: Session) {
    && t.stop && t.outcome == s.outcome && |t.producers| == |s.producers|
    && forall j | 0 <= j < |s.producers| && Ended(s.producers[j]) :: Ended(t.producers[j])
  }

  lemma TowardKeepsStopping(s: Session, i: nat)
    requires WellFormed(s) && i < |s.producers| && !Ended(s.producers[i]) && s.stop
    ensures Enabled(s, Toward(s, i)) && StillStopping(s, Step(s, Toward(s, i)))
    ensures Toward(s, i).WriteNext? ==>
              && Step(s, Toward(s, i)).producers == s.producers
              && |Step(s, Toward(s, i)).writerQueue| < |s.writerQueue|
  {
    hide LocalStep;
    AlwaysAStep(s, i);
  }

  lemma {:induction false} EndThread(states: seq<Session>, events: seq<Event>, i: nat)
    returns (more: seq<Session>, all: seq<Event>)
    requires Run(states, events) && states[|events|].stop && i < |states[|events|].producers|
    ensures Continues(states, events, more, all)
    ensures StillStopping(states[|events|], more[|all|]) && Ended(more[|all|].producers[i])
    decreases Stage(states[|events|].producers[i].pc), Work(states[|events|].producers[i]), |states[|events|].writerQueue|
  {
    var s := states[|events|];
    if Ended(s.producers[i]) {
      more, all := states, events;
    } else {
      RunIsWellFormed(states, events, |events|);
      TowardKeepsStopping(s, i);
      if !Toward(s, i).WriteNext? { OwnStepGetsCloser(s, i, Toward(s, i).input); }
      hide Run, Step, Enabled, WellFormed, Toward, Stage, Work;
      var mid, half := ContinueWith(states, events, Toward(s, i));
      more, all := EndThread(mid, half, i);
      ContinuesOn(states, events, mid, half, more, all);
    }
  }

  lemma {:induction false} EndThreads(states: seq<Session>, events: seq<Event>, n: nat)
    returns (more: seq<Session>, all: seq<Event>)
    requires Run(states, events) && states[|events|].stop && n <= |states[|events|].producers|
    ensures Continues(states, events, more, all)
    ensures StillStopping(states[|events|], more[|all|])
    ensures forall j | 0 <= j < n :: Ended(more[|all|].producers[j])
  {
    more, all := states, events;
    if n > 0 {
      hide Run;
      var mid, half := EndThreads(states, events, n - 1);
      more, all := EndThread(mid, half, n - 1);
      ContinuesOn(states, events, mid, half, more, all);
    }
  }

  /** With all threads ended the writer stores what is queued and closes. */
  lemma {:induction false} CloseWriter(states: seq<Session>, events: seq<Event>)
    returns (more: seq<Session>, all: seq<Event>)
    requires Run(states, events) && states[|events|].stop && AllEnded(states[|events|])
    ensures Continues(states, events, more, all)
    ensures var t := more[|all|]; t.stop && AllEnded(t) && !t.writer.WriterRunning? && t.outcome == states[|events|].outcome
    decreases |states[|events|].writerQueue|
  {
    var s := states[|events|];
    more, all := states, events;
    if s.writer.WriterRunning? {
      var e := if s.writerQueue == [] then WriterFinish else WriteNext(true);
      more, all := ContinueWith(states, events, e);
      if s.writerQueue != [] {
        hide Run;
        var mid, half := more, all;
        more, all := CloseWriter(mid, half);
        ContinuesOn(states, events, mid, half, more, all);
      }
    }
  }

  /** From every point of every run at which the threads have been told to stop, the session can
      get to its report by its own steps alone: no thread waits for the environment, for another
      thread, or for a writer that cannot go on. */
  lemma StoppedSessionCanReport(states: seq<Session>, events: seq<Event>)
    returns (more: seq<Session>, all: seq<Event>)
    requires Run(states, events) && states[|events|].stop
    ensures Continues(states, events, more, all) && more[|all|].outcome.Some?
  {
    var s := states[|events|];
    if s.outcome.Some? {
      more, all := states, events;
    } else {
      hide Run;
      var mid, half := EndThreads(states, events, |s.producers|);
      var closed, later := CloseWriter(mid, half);
      ContinuesOn(states, events, mid, half, closed, later);
      more, all := Report(closed, later);
      ContinuesOn(states, events, closed, later, more, all);
    }
  }

  lemma Report(states: seq<Session>, events: seq<Event>) returns (more: seq<Session>, all: seq<Event>)
    requires Run(states, events)
    requires var s := states[|events|]; s.stop && s.outcome.None? && AllEnded(s) && !s.writer.WriterRunning?
    ensures Continues(states, events, more, all) && more[|all|].outcome.Some?
  {
    more, all := ContinueWith(states, events, ReportStop);
  }
}
