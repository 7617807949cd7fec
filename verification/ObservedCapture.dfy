/** Capture with a live observer attached: the sink of a capture thread stores or queues each
    chunk, publishes it on the tap and only then returns, while consumers attach, detach, stall
    and vanish at any moment. */
module ObservedCapture {
  import C = CaptureSession
  import opened ChunkGrid
  import opened Common
  import T = LivePcmTap

  /** Where a thread is inside sink.write. `observe` is what the queue sink learnt from the tap;
      a publishing thread has handed its chunk on but has not returned from the write. */
  datatype Phase =
    | Idle
    | Noticed(observe: bool)
    | Publishing(chunk: Chunk)
    | Sending(chunk: Chunk, serial: nat)

  /** `session` holds the threads at their actual program points. */
  datatype Observed = Observed(session: C.Session, phases: seq<Phase>, tap: T.TapState)

  datatype Event =
    | Capture(e: C.Event)
    | Notice(i: nat)
    | SelectSender(i: nat)
    | Send(i: nat)
    | AttachConsumer(sources: set<nat>)
    | DetachToken(token: T.Token)
    | DropReceiver(serial: nat)
    | Receive(serial: nat)

  predicate OfConsumer(e: Event) { e.AttachConsumer? || e.DetachToken? || e.DropReceiver? || e.Receive? }

  ghost predicate Init(s: Observed) {
    && C.Init(s.session)
    && s.tap == T.DETACHED
    && |s.phases| == |s.session.producers|
    && forall i | 0 <= i < |s.phases| :: s.phases[i].Idle?
  }

  predicate Publishes(phase: Phase) { phase.Publishing? || phase.Sending? }

  /** Threads inside a phase are at the write, and only the queue sink asks the tap first. */
  ghost predicate Shape(s: Observed) {
    && |s.phases| == |s.session.producers|
    && forall i | 0 <= i < |s.phases| ::
         && (!s.phases[i].Idle? ==> s.session.producers[i].pc.Writing?)
         && (s.phases[i].Noticed? ==> !s.session.direct)
  }

  /** Which thread step the sink allows: the queue sink asks the tap first, and a publish must
      end before the thread goes on. */
  predicate ThreadReady(s: Observed, i: nat) {
    && i < |s.phases| == |s.session.producers|
    && if s.session.producers[i].pc.Writing? && !s.session.direct then s.phases[i].Noticed? else s.phases[i].Idle?
  }

  ghost predicate Enabled(s: Observed, e: Event) {
    && Shape(s)
    && match e
       case Capture(core) =>
         C.WellFormed(s.session) && C.Enabled(s.session, core) && (core.Advance? ==> ThreadReady(s, core.i))
       case Notice(i) =>
         i < |s.phases| && s.phases[i].Idle? && s.session.producers[i].pc.Writing? && !s.session.direct
       case SelectSender(i) => i < |s.phases| && s.phases[i].Publishing?
       case Send(i) => i < |s.phases| && s.phases[i].Sending? && s.phases[i].serial in s.tap.channels
       case AttachConsumer(_) => true
       case DetachToken(token) => T.Issued(s.tap, token)
       case DropReceiver(serial) => serial in s.tap.channels && s.tap.channels[serial].open && s.tap.sender != Some(serial)
       case Receive(serial) => serial in s.tap.channels && s.tap.channels[serial].queued != []
  }

  /** The write returns to its caller. */
  function Returned(s: Observed, i: nat, p: C.Producer): Observed
    requires i < |s.phases| == |s.session.producers|
  {
    s.(session := C.With(s.session, i, p), phases := s.phases[i := Idle])
  }

  /** The direct sink: a chunk that is not stored returns early, a stored one is published. */
  function WriteDirect(s: Observed, i: nat, input: C.Input): Observed
    requires i < |s.phases| == |s.session.producers| && s.session.producers[i].pc.Writing?
  {
    var p := s.session.producers[i];
    if input.NotStored? then Returned(s, i, C.WriteFailed(p, C.StoreFailed))
    else
      s.(session := s.session.(durable := s.session.durable + [p.pc.chunk]), phases := s.phases[i := Publishing(p.pc.chunk)])
  }

  /** The queue sink: an observed chunk is cloned into the queue and then published, another one
      is moved into it; a closed queue returns early from either. */
  function WriteQueue(s: Observed, i: nat): Observed
    requires i < |s.phases| == |s.session.producers| && s.session.producers[i].pc.Writing? && s.phases[i].Noticed?
  {
    var p := s.session.producers[i];
    var chunk := p.pc.chunk;
    if s.phases[i].observe then
      if !s.session.writer.WriterRunning? then Returned(s, i, C.WriteFailed(p, C.WriterUnavailable))
      else
        var queued := s.session.(writerQueue := s.session.writerQueue + [chunk]);
        s.(session := queued, phases := s.phases[i := Publishing(chunk)])
    else
      if !s.session.writer.WriterRunning? then Returned(s, i, C.WriteFailed(p, C.WriterUnavailable))
      else
        var queued := s.session.(writerQueue := s.session.writerQueue + [chunk]);
        Returned(s.(session := queued), i, C.WriteDone(p))
  }

  ghost function OnCapture(s: Observed, e: C.Event): Observed
    requires Enabled(s, Capture(e))
  {
    match e
    case Advance(i, input) =>
      if !s.session.producers[i].pc.Writing? then s.(session := C.Step(s.session, e))
      else if s.session.direct then WriteDirect(s, i, input)
      else WriteQueue(s, i)
    case ThreadPanic(i) => s.(session := C.Step(s.session, e), phases := s.phases[i := Idle])
    case RequestStop => s.(session := C.Step(s.session, e), tap := T.DetachCurrent(s.tap))
    case _ => s.(session := C.Step(s.session, e))
  }

  ghost function Step(s: Observed, e: Event): Observed
    requires Enabled(s, e)
  {
    match e
    case Capture(core) => OnCapture(s, core)
    case Notice(i) => s.(phases := s.phases[i := Noticed(T.Accepts(s.tap, i))])
    case SelectSender(i) =>
      var sender := T.Select(s.tap, i);
      if sender.Some? then s.(phases := s.phases[i := Sending(s.phases[i].chunk, sender.value)])
      else Returned(s, i, C.WriteDone(s.session.producers[i]))
    case Send(i) =>
      Returned(s.(tap := T.TrySend(s.tap, s.phases[i].serial, s.phases[i].chunk)), i, C.WriteDone(s.session.producers[i]))
    case AttachConsumer(sources) => s.(tap := T.Attach(s.tap, sources).0)
    case DetachToken(token) => s.(tap := T.Detach(s.tap, token.generation))
    case DropReceiver(serial) => s.(tap := T.CloseReceiver(s.tap, serial))
    case Receive(serial) => s.(tap := T.Consume(s.tap, serial))
  }

  ghost predicate Next(s: Observed, e: Event, s': Observed) {
    Enabled(s, e) && s' == Step(s, e)
  }

  ghost predicate Run(states: seq<Observed>, events: seq<Event>) {
    && |states| == |events| + 1
    && Init(states[0])
    && forall k | 0 <= k < |events| :: Next(states[k], events[k], states[k + 1])
  }

  // ---- Refinement: the observed sink is the plain sink ----

  /** A publishing thread counts as having written. */
  function CoreProducer(p: C.Producer, phase: Phase): C.Producer
    requires !phase.Idle? ==> p.pc.Writing?
  {
    if Publishes(phase) then C.WriteDone(p) else p
  }

  /** The session as the durable path sees it. */
  ghost function Core(s: Observed): C.Session
    requires Shape(s)
  {
    s.session.(producers := seq(|s.phases|, i requires 0 <= i < |s.phases| => CoreProducer(s.session.producers[i], s.phases[i])))
  }

  /** Changing one thread and its phase changes one thread of the core. */
  lemma CoreOfOneChange(s: Observed, s': Observed, i: nat)
    requires Shape(s) && Shape(s') && i < |s.phases| == |s'.phases|
    requires s'.session.producers == s.session.producers[i := s'.session.producers[i]]
    requires s'.phases == s.phases[i := s'.phases[i]]
    ensures Core(s').producers == Core(s).producers[i := CoreProducer(s'.session.producers[i], s'.phases[i])]
  {}

  /** Publishing hides nothing of a thread but that it is still in its write. */
  lemma CoreProgress(s: Observed)
    requires Shape(s)
    ensures |Core(s).producers| == |s.session.producers|
    ensures forall i | 0 <= i < |s.phases| ::
              && Core(s).producers[i].stream == s.session.producers[i].stream
              && Core(s).producers[i].streamLive == s.session.producers[i].streamLive
              && (C.Ended(Core(s).producers[i]) <==> C.Ended(s.session.producers[i]))
              && (Core(s).producers[i].pc.Panicked? <==> s.session.producers[i].pc.Panicked?)
  {}

  lemma CoreWellFormed(s: Observed)
    requires Shape(s)
    ensures C.WellFormed(Core(s)) <==> C.WellFormed(s.session)
  {
    CoreProgress(s);
    hide Core;
  }

  lemma CoreJoins(s: Observed)
    requires Shape(s)
    ensures C.StopMeetsPanic(Core(s)) <==> C.StopMeetsPanic(s.session)
    ensures (exists i | 0 <= i < |s.phases| :: Core(s).producers[i].pc.Panicked?) <==>
              (exists i | 0 <= i < |s.phases| :: s.session.producers[i].pc.Panicked?)
  {
    CoreProgress(s);
    hide Core, C.Ended;
    if i :| 0 <= i < |s.phases| && s.session.producers[i].pc.Panicked? {
      assert Core(s).producers[i].pc.Panicked?;
    }
    if i :| 0 <= i < |s.phases| && s.session.producers[i].pc.Panicked? && forall j | 0 <= j < i :: C.Ended(s.session.producers[j]) {
      assert Core(s).producers[i].pc.Panicked?;
    }
  }

  /** The sink itself: both branches of the queue sink and both of the direct one are the plain
      sink's step, whatever the tap answered. */
  lemma SinkRefines(s: Observed, i: nat, input: C.Input)
    requires Enabled(s, Capture(C.Advance(i, input))) && s.session.producers[i].pc.Writing?
    ensures Shape(Step(s, Capture(C.Advance(i, input))))
    ensures C.CanAdvance(Core(s), i, input) && Core(s).producers[i].pc.Writing?
    ensures Core(Step(s, Capture(C.Advance(i, input)))) == C.SinkStep(Core(s), i, input)
  {
    CoreOfOneChange(s, Step(s, Capture(C.Advance(i, input))), i);
  }

  lemma ThreadStepRefines(s: Observed, i: nat, input: C.Input)
    requires Enabled(s, Capture(C.Advance(i, input))) && !s.session.producers[i].pc.Writing?
    ensures Shape(Step(s, Capture(C.Advance(i, input))))
    ensures C.Next(Core(s), C.Advance(i, input), Core(Step(s, Capture(C.Advance(i, input)))))
  {
    CoreWellFormed(s);
    hide C.WellFormed, C.LocalStep, C.StopMeetsPanic;
    var after := Step(s, Capture(C.Advance(i, input)));
    assert after.phases == s.phases && after.session == C.Step(s.session, C.Advance(i, input));
    CoreOfOneChange(s, after, i);
    assert Core(s).producers[i] == s.session.producers[i];
  }

  /** What the environment does to a thread commutes with the return of its write. */
  lemma EnvironmentCommutes(p: C.Producer, bytes: seq<Byte>)
    requires p.pc.Writing?
    ensures C.OnCallback(p, bytes).pc == p.pc
    ensures C.WriteDone(C.OnCallback(p, bytes)) == C.OnCallback(C.WriteDone(p), bytes)
    ensures C.WriteDone(C.RecordFailure(p, C.StreamFailed)) == C.RecordFailure(C.WriteDone(p), C.StreamFailed)
  {}

  /** The environment's steps on one thread do not see where it publishes. */
  lemma EnvironmentRefines(s: Observed, e: C.Event)
    requires Enabled(s, Capture(e)) && (e.Callback? || e.StreamFault? || e.ThreadPanic?)
    ensures Shape(Step(s, Capture(e))) && C.Next(Core(s), e, Core(Step(s, Capture(e))))
  {
    CoreWellFormed(s);
    CoreProgress(s);
    var p := s.session.producers[e.i];
    if p.pc.Writing? { EnvironmentCommutes(p, if e.Callback? then e.bytes else []); }
    hide C.WellFormed, C.StopMeetsPanic, C.Ended;
    CoreOfOneChange(s, Step(s, Capture(e)), e.i);
  }

  /** Nor do the writer and stop. */
  lemma SharedStepRefines(s: Observed, e: C.Event)
    requires Enabled(s, Capture(e)) && (e.WriteNext? || e.WriterFinish? || e.WriterPanic? || e.RequestStop?)
    ensures Shape(Step(s, Capture(e))) && C.Next(Core(s), e, Core(Step(s, Capture(e))))
  {
    CoreWellFormed(s);
    CoreProgress(s);
    hide C.WellFormed, C.StopMeetsPanic, C.Ended;
    assert Step(s, Capture(e)).session.producers == s.session.producers;
  }

  lemma ReportRefines(s: Observed)
    requires Enabled(s, Capture(C.ReportStop))
    ensures Shape(Step(s, Capture(C.ReportStop)))
    ensures C.Next(Core(s), C.ReportStop, Core(Step(s, Capture(C.ReportStop))))
  {
    CoreWellFormed(s);
    CoreProgress(s);
    CoreJoins(s);
    hide C.WellFormed, C.StopMeetsPanic, C.Ended, CoreProducer;
    assert Step(s, Capture(C.ReportStop)).session.producers == s.session.producers;
  }

  lemma PublishStepRefines(s: Observed, e: Event)
    requires Enabled(s, e) && (e.Notice? || e.SelectSender? || e.Send?)
    ensures Shape(Step(s, e)) && Core(Step(s, e)) == Core(s)
  {
    CoreOfOneChange(s, Step(s, e), e.i);
  }

  /** Every observed step is the plain capture step of the same name, or none at all. */
  lemma StepRefines(s: Observed, e: Event)
    requires Enabled(s, e)
    ensures Shape(Step(s, e))
    ensures e.Capture? ==> C.Next(Core(s), e.e, Core(Step(s, e)))
    ensures !e.Capture? ==> Core(Step(s, e)) == Core(s)
  {
    match e
    case Capture(Advance(i, input)) =>
      if s.session.producers[i].pc.Writing? {
        SinkRefines(s, i, input);
        CoreWellFormed(s);
      } else {
        ThreadStepRefines(s, i, input);
      }
    case Capture(core) =>
      if core.Callback? || core.StreamFault? || core.ThreadPanic? {
        EnvironmentRefines(s, core);
      } else if core.ReportStop? {
        ReportRefines(s);
      } else {
        SharedStepRefines(s, core);
      }
    case Notice(_) => PublishStepRefines(s, e);
    case SelectSender(_) => PublishStepRefines(s, e);
    case Send(_) => PublishStepRefines(s, e);
    case _ =>
  }

  // ---- Erasing the observer ----

  function CaptureEvents(events: seq<Event>): seq<C.Event> {
    if events == [] then []
    else
      var init, e := events[..|events| - 1], events[|events| - 1];
      CaptureEvents(init) + (if e.Capture? then [e.e] else [])
  }

  lemma {:induction false} RunKeepsShape(states: seq<Observed>, events: seq<Event>, k: nat)
    requires Run(states, events) && k <= |events|
    ensures Shape(states[k])
  {
    if k > 0 {
      assert Next(states[k - 1], events[k - 1], states[k]);
      StepRefines(states[k - 1], events[k - 1]);
    }
  }

  /** Erasing the observer from a run leaves a run of plain capture, with the same final core. */
  lemma {:induction false} ErasureIsCaptureRun(states: seq<Observed>, events: seq<Event>) returns (cores: seq<C.Session>)
    requires Run(states, events)
    ensures C.Run(cores, CaptureEvents(events)) && cores[0] == states[0].session
    ensures Shape(states[|events|]) && cores[|CaptureEvents(events)|] == Core(states[|events|])
    decreases |events|
  {
    RunKeepsShape(states, events, |events|);
    if events == [] {
      assert Core(states[0]).producers == states[0].session.producers;
      cores := [states[0].session];
    } else {
      var n := |events| - 1;
      assert Run(states[..n + 1], events[..n]) by {
        assert forall k | 0 <= k < n :: Next(states[k], events[k], states[k + 1]);
      }
      cores := ErasureIsCaptureRun(states[..n + 1], events[..n]);
      assert Next(states[n], events[n], states[n + 1]);
      StepRefines(states[n], events[n]);
      if events[n].Capture? {
        CaptureRunSnoc(cores, CaptureEvents(events[..n]), events[n].e, Core(states[n + 1]));
        cores := cores + [Core(states[n + 1])];
      }
    }
  }

  lemma CaptureRunSnoc(states: seq<C.Session>, events: seq<C.Event>, e: C.Event, last: C.Session)
    requires C.Run(states, events) && C.Next(states[|events|], e, last)
    ensures C.Run(states + [last], events + [e])
  {
    var more, all := states + [last], events + [e];
    forall k | 0 <= k < |all|
      ensures C.Next(more[k], all[k], more[k + 1])
    {
      if k < |events| { assert C.Next(states[k], events[k], states[k + 1]); }
    }
  }

  lemma {:induction false} CaptureIsDeterministic(a: seq<C.Session>, b: seq<C.Session>, events: seq<C.Event>, k: nat)
    requires C.Run(a, events) && C.Run(b, events) && a[0] == b[0] && k <= |events|
    ensures a[k] == b[k]
  {
    if k > 0 {
      CaptureIsDeterministic(a, b, events, k - 1);
      assert C.Next(a[k - 1], events[k - 1], a[k]) && C.Next(b[k - 1], events[k - 1], b[k]);
    }
  }

  /** Non-interference: two runs with the same capture events, whatever their consumers do,
      store the same chunks in the same order and report the same outcome. */
  lemma ObserverCannotAffectCapture(a: seq<Observed>, es: seq<Event>, b: seq<Observed>, fs: seq<Event>)
    requires Run(a, es) && Run(b, fs)
    requires a[0].session == b[0].session && CaptureEvents(es) == CaptureEvents(fs)
    ensures a[|es|].session.durable == b[|fs|].session.durable
    ensures a[|es|].session.outcome == b[|fs|].session.outcome
  {
    var as' := ErasureIsCaptureRun(a, es);
    var bs' := ErasureIsCaptureRun(b, fs);
    CaptureIsDeterministic(as', bs', CaptureEvents(es), |CaptureEvents(es)|);
  }

  /** The integrity theorem holds with an observer attached. */
  lemma VerifiedMeansCompleteWhenObserved(states: seq<Observed>, events: seq<Event>, i: nat)
    requires Run(states, events) && states[|events|].session.outcome == Some(C.Verified)
    requires i < |states[0].session.producers|
    ensures var stream, stored := states[0].session.producers[i].stream, C.ChunksOf(states[|events|].session.durable, i);
            && stream.Valid()
            && Payload(stored) == WholeFrames(C.Delivery(CaptureEvents(events), i), stream.frameBytes)
            && OnGrid(stream, stored, true)
  {
    var cores := ErasureIsCaptureRun(states, events);
    C.VerifiedMeansComplete(cores, CaptureEvents(events), i);
  }

  // ---- The tap over whole runs ----

  ghost predicate Inv(s: Observed) {
    && Shape(s)
    && T.TapInv(s.tap)
    && (forall i | 0 <= i < |s.phases| && s.phases[i].Sending? :: s.phases[i].serial in s.tap.channels)
  }

  lemma CaptureKeepsTap(s: Observed, e: C.Event)
    requires Shape(s) && Enabled(s, Capture(e))
    ensures OnCapture(s, e).tap == s.tap || OnCapture(s, e).tap == T.DetachCurrent(s.tap)
    ensures |OnCapture(s, e).phases| == |s.phases|
    ensures forall i | 0 <= i < |s.phases| && OnCapture(s, e).phases[i].Sending? :: OnCapture(s, e).phases[i] == s.phases[i]
  {
    hide C.Step, C.WellFormed, C.CanAdvance, T.DetachCurrent;
  }

  lemma DetachKeepsTapInv(t: T.TapState)
    requires T.TapInv(t)
    ensures T.TapInv(T.DetachCurrent(t)) && T.DetachCurrent(t).channels == t.channels
  {}

  lemma TapStepKeepsInv(s: Observed, e: Event)
    requires Inv(s) && Enabled(s, e) && !e.Capture?
    ensures T.TapInv(Step(s, e).tap) && s.tap.channels.Keys <= Step(s, e).tap.channels.Keys
    ensures |Step(s, e).phases| == |s.phases|
    ensures forall i | 0 <= i < |s.phases| && Step(s, e).phases[i].Sending? ::
              Step(s, e).phases[i] == s.phases[i] || Step(s, e).phases[i].serial in s.tap.channels
  {
    match e
    case Send(i) => T.TrySendKeepsInv(s.tap, s.phases[i].serial, s.phases[i].chunk);
    case AttachConsumer(sources) => T.AttachKeepsInv(s.tap, sources);
    case DropReceiver(serial) => T.ReceiverKeepsInv(s.tap, serial);
    case Receive(serial) => T.ReceiverKeepsInv(s.tap, serial);
    case _ =>
  }

  lemma StepKeepsInv(s: Observed, e: Event)
    requires Inv(s) && Enabled(s, e)
    ensures Inv(Step(s, e))
  {
    StepRefines(s, e);
    if e.Capture? {
      CaptureKeepsTap(s, e.e);
      DetachKeepsTapInv(s.tap);
      assert Step(s, e) == OnCapture(s, e.e);
      hide OnCapture, T.TapInv, T.DetachCurrent;
    } else {
      TapStepKeepsInv(s, e);
    }
  }

  /** Over every run and for every consumer that ever attached: what was offered to it is
      delivered, queued (at most four), discarded with it or counted as dropped, in order. */
  lemma {:induction false} EveryConsumerIsAccounted(states: seq<Observed>, events: seq<Event>, k: nat)
    requires Run(states, events) && k <= |events|
    ensures Inv(states[k])
    ensures forall serial | serial in states[k].tap.channels :: T.Accounted(states[k].tap.channels[serial])
  {
    if k > 0 {
      EveryConsumerIsAccounted(states, events, k - 1);
      assert Next(states[k - 1], events[k - 1], states[k]);
      StepKeepsInv(states[k - 1], events[k - 1]);
    }
  }

  // ---- Who takes a consumer off the tap ----

  /** A step that detaches whoever is attached: stop, a token of the current generation, or a send
      on a channel whose receiver is gone, be it an earlier consumer's. */
  predicate Unseats(s: Observed, e: Event) {
    match e
    case Capture(core) => core.RequestStop?
    case DetachToken(token) => token.generation == s.tap.generation
    case Send(i) =>
      i < |s.phases| && s.phases[i].Sending? && s.phases[i].serial in s.tap.channels
      && !s.tap.channels[s.phases[i].serial].open
    case _ => false
  }

  lemma UnseatedExactly(s: Observed, e: Event)
    requires Inv(s) && Enabled(s, e) && s.tap.sender.Some?
    ensures Step(s, e).tap.sender == s.tap.sender <==> !Unseats(s, e)
  {
    hide C.Step, C.Enabled, C.WellFormed;
  }

  /** Serials are never given twice. */
  lemma SerialsGrow(s: Observed, e: Event, serial: nat)
    requires Inv(s) && Enabled(s, e) && serial <= s.tap.attachCount
    ensures serial <= Step(s, e).tap.attachCount
    ensures s.tap.sender != Some(serial) ==> Step(s, e).tap.sender != Some(serial)
  {
    hide C.Step, C.Enabled, C.WellFormed;
  }

  /** Over every run a consumer stays attached exactly as long as none of these steps occurs. */
  lemma {:induction false} AttachedUntilUnseated(states: seq<Observed>, events: seq<Event>, j: nat, k: nat, serial: nat)
    requires Run(states, events) && j <= k <= |events| && states[j].tap.sender == Some(serial)
    ensures serial <= states[k].tap.attachCount
    ensures states[k].tap.sender == Some(serial) <==> forall i | j <= i < k :: !Unseats(states[i], events[i])
    decreases k
  {
    EveryConsumerIsAccounted(states, events, k);
    if j < k {
      var n := k - 1;
      AttachedUntilUnseated(states, events, j, n, serial);
      EveryConsumerIsAccounted(states, events, n);
      assert Next(states[n], events[n], states[k]);
      SerialsGrow(states[n], events[n], serial);
      if states[n].tap.sender == Some(serial) { UnseatedExactly(states[n], events[n]); }
      hide Unseats, Step, Enabled, Inv, Run;
    }
  }

  /** What a consumer's own steps do: attaching to a free tap seats it with an empty channel for the
      sources it asked for, receiving takes the oldest queued chunk, and going away gives up what is
      still queued; no step of one consumer touches another's channel. */
  lemma ConsumerStep(s: Observed, e: Event, serial: nat)
    requires Inv(s) && Enabled(s, e) && OfConsumer(e) && serial in s.tap.channels
    ensures var t := Step(s, e).tap;
            && serial in t.channels
            && match e
               case AttachConsumer(sources) =>
                 && t.channels[serial] == s.tap.channels[serial]
                 && (s.tap.sender.Some? ==> t == s.tap)
               case DetachToken(token) => t.channels == s.tap.channels
               case DropReceiver(other) => serial != other ==> t.channels[serial] == s.tap.channels[serial]
               case Receive(other) => serial != other ==> t.channels[serial] == s.tap.channels[serial]
               case _ => true
    ensures e == Receive(serial) ==>
              var c, c' := s.tap.channels[serial], Step(s, e).tap.channels[serial];
              c.queued == [c.queued[0]] + c'.queued && c'.delivered == c.delivered + [c.queued[0]] && c'.offers == c.offers
    ensures e == DropReceiver(serial) ==>
              var c, c' := s.tap.channels[serial], Step(s, e).tap.channels[serial];
              !c'.open && c'.queued == [] && c'.discarded == c.discarded + c.queued && c'.offers == c.offers
  {
    hide Shape, T.Accounted, T.Consume, T.CloseReceiver;
    if e.Receive? || e.DropReceiver? {
      T.ReceivedExactly(s.tap, e.serial, serial);
      ReceiverKeepsChannels(s.tap, e.serial);
    }
  }

  lemma ReceiverKeepsChannels(t: T.TapState, serial: nat)
    requires serial in t.channels
    ensures t.channels[serial].queued != [] ==> T.Consume(t, serial).channels.Keys == t.channels.Keys
    ensures T.CloseReceiver(t, serial).channels.Keys == t.channels.Keys
  {}

  lemma SeatedExactly(s: Observed, sources: set<nat>)
    requires Inv(s) && s.tap.sender.None?
    ensures Enabled(s, AttachConsumer(sources))
    ensures var t := Step(s, AttachConsumer(sources)).tap;
            && t.sender.Some? && t.sender.value !in s.tap.channels && t.sender.value in t.channels
            && t.channels[t.sender.value] == T.Channel(sources, true, [], 0, [], [], [])
            && t.selected == Some(sources)
  {}

  // ---- A consumer sees the sources it selected ----

  /** A thread writes chunks of its own source. */
  ghost predicate WritesOwn(s: Observed) {
    && Shape(s) && C.WellFormed(s.session)
    && (forall i | 0 <= i < |s.phases| && s.session.producers[i].pc.Writing? :: s.session.producers[i].pc.chunk.source == i)
    && (forall i | 0 <= i < |s.phases| && Publishes(s.phases[i]) :: s.phases[i].chunk.source == i)
  }

  /** Only chunks of selected sources are on their way to a consumer or have been offered to it. */
  ghost predicate Selective(s: Observed) {
    && (s.tap.sender.Some? && s.tap.selected.Some? ==>
          s.tap.sender.value in s.tap.channels && s.tap.selected.value == s.tap.channels[s.tap.sender.value].sources)
    && (forall i | 0 <= i < |s.phases| && s.phases[i].Sending? ::
          s.phases[i].serial in s.tap.channels && i in s.tap.channels[s.phases[i].serial].sources)
    && (forall serial | serial in s.tap.channels :: OffersSelected(s.tap.channels[serial]))
  }

  ghost predicate OffersSelected(c: T.Channel) {
    forall n | 0 <= n < |c.offers| :: c.offers[n].chunk.source in c.sources
  }

  /** Frame: a step that touches at most one thread and its phase. */
  lemma OneThreadWrites(s: Observed, s': Observed, i: nat)
    requires WritesOwn(s) && Shape(s') && i < |s.phases| == |s'.phases|
    requires s'.session.producers == s.session.producers[i := s'.session.producers[i]]
    requires s'.phases == s.phases[i := s'.phases[i]]
    requires s'.session.producers[i].stream == s.session.producers[i].stream
    requires s'.session.producers[i].pc.Writing? ==> s'.session.producers[i].pc.chunk.source == i
    requires Publishes(s'.phases[i]) ==> s'.phases[i].chunk.source == i
    ensures WritesOwn(s')
  {}

  lemma LocalStepWritesOwn(p: C.Producer, stop: bool, input: C.Input)
    requires p.stream.Valid() && !p.pc.Writing? && !p.pc.Finish? && !C.Ended(p)
    requires p.pc.Receive? && input.Data? ==> p.queue != []
    ensures var p' := C.LocalStep(p, stop, input); p'.stream == p.stream && (p'.pc.Writing? ==> p'.pc.chunk.source == p.stream.source)
  {}

  lemma OwnWrites(s: Observed, i: nat, input: C.Input)
    requires WritesOwn(s) && Enabled(s, Capture(C.Advance(i, input)))
    ensures WritesOwn(Step(s, Capture(C.Advance(i, input))))
  {
    StepRefines(s, Capture(C.Advance(i, input)));
    var p := s.session.producers[i];
    if !p.pc.Writing? && !p.pc.Finish? { LocalStepWritesOwn(p, s.session.stop, input); }
    OwnStepFrame(s, i, input);
    hide Step, Enabled, WritesOwn, Shape, C.LocalStep;
    OneThreadWrites(s, Step(s, Capture(C.Advance(i, input))), i);
  }

  lemma OwnStepFrame(s: Observed, i: nat, input: C.Input)
    requires WritesOwn(s) && Enabled(s, Capture(C.Advance(i, input)))
    ensures var s' := Step(s, Capture(C.Advance(i, input)));
            && i < |s'.phases| == |s.phases| && |s'.session.producers| == |s.session.producers|
            && s'.session.producers == s.session.producers[i := s'.session.producers[i]]
            && s'.phases == s.phases[i := s'.phases[i]]
            && (Publishes(s'.phases[i]) ==> s'.phases[i].chunk.source == i)
            && var p, p' := s.session.producers[i], s'.session.producers[i];
               if p.pc.Writing? then p'.stream == p.stream && (p'.pc.Writing? ==> p'.pc == p.pc)
               else if p.pc.Finish? then p'.stream == p.stream && !p'.pc.Writing?
               else p' == C.LocalStep(p, s.session.stop, input)
  {
    hide C.LocalStep;
  }

  lemma EnvironmentWrites(s: Observed, e: C.Event)
    requires WritesOwn(s) && Enabled(s, Capture(e)) && (e.Callback? || e.StreamFault? || e.ThreadPanic?)
    ensures WritesOwn(Step(s, Capture(e)))
  {
    EnvironmentRefines(s, e);
    OneThreadWrites(s, Step(s, Capture(e)), e.i);
  }

  lemma SharedWrites(s: Observed, e: C.Event)
    requires WritesOwn(s) && Enabled(s, Capture(e)) && !e.Advance? && !e.Callback? && !e.StreamFault? && !e.ThreadPanic?
    ensures WritesOwn(Step(s, Capture(e)))
  {
    hide C.StopMeetsPanic;
    assert Step(s, Capture(e)).session.producers == s.session.producers && Step(s, Capture(e)).phases == s.phases;
  }

  lemma PublishStepWrites(s: Observed, e: Event)
    requires WritesOwn(s) && Enabled(s, e) && (e.Notice? || e.SelectSender? || e.Send?)
    ensures WritesOwn(Step(s, e))
  {
    PublishStepRefines(s, e);
    hide C.WellFormed;
    OneThreadWrites(s, Step(s, e), e.i);
  }

  lemma ConsumerWrites(s: Observed, e: Event)
    requires WritesOwn(s) && Enabled(s, e) && OfConsumer(e)
    ensures WritesOwn(Step(s, e)) && Step(s, e).session == s.session && Step(s, e).phases == s.phases
  {}

  lemma StepKeepsWritesOwn(s: Observed, e: Event)
    requires WritesOwn(s) && Enabled(s, e)
    ensures WritesOwn(Step(s, e))
  {
    hide Step, WritesOwn, Enabled;
    match e
    case Capture(Advance(i, input)) => OwnWrites(s, i, input);
    case Capture(core) =>
      if core.Callback? || core.StreamFault? || core.ThreadPanic? { EnvironmentWrites(s, core); } else { SharedWrites(s, core); }
    case Notice(_) => PublishStepWrites(s, e);
    case SelectSender(_) => PublishStepWrites(s, e);
    case Send(_) => PublishStepWrites(s, e);
    case _ => ConsumerWrites(s, e);
  }

  lemma CaptureKeepsSelective(s: Observed, e: C.Event)
    requires Selective(s) && Shape(s) && Enabled(s, Capture(e))
    ensures Selective(Step(s, Capture(e)))
  {
    CaptureKeepsTap(s, e);
    assert Step(s, Capture(e)) == OnCapture(s, e);
    hide OnCapture, Step, Enabled, OffersSelected;
  }

  lemma SentKeepsSelected(t: T.TapState, serial: nat, chunk: Chunk)
    requires serial in t.channels && chunk.source in t.channels[serial].sources
    requires forall other | other in t.channels :: OffersSelected(t.channels[other])
    ensures var t' := T.TrySend(t, serial, chunk);
            && t'.channels.Keys == t.channels.Keys
            && ((t'.sender == t.sender && t'.selected == t.selected) || t'.sender.None?)
            && (forall other | other in t'.channels ::
                  OffersSelected(t'.channels[other]) && t'.channels[other].sources == t.channels[other].sources)
  {
    forall other | other in t.channels
      ensures OffersSelected(T.TrySend(t, serial, chunk).channels[other])
    {
      T.SentExactly(t, serial, chunk, other);
      assert OffersSelected(t.channels[other]);
    }
  }

  lemma SendKeepsSelective(s: Observed, i: nat)
    requires Inv(s) && Selective(s) && WritesOwn(s) && Enabled(s, Send(i))
    ensures Selective(Step(s, Send(i)))
  {
    hide T.TrySend, T.TapInv, C.WellFormed, OffersSelected;
    SentKeepsSelected(s.tap, s.phases[i].serial, s.phases[i].chunk);
  }

  lemma AskingKeepsSelective(s: Observed, e: Event)
    requires Inv(s) && Selective(s) && Enabled(s, e) && (e.Notice? || e.SelectSender?)
    ensures Selective(Step(s, e))
  {
    hide OffersSelected;
  }

  lemma ConsumerKeepsSelective(s: Observed, e: Event)
    requires Inv(s) && Selective(s) && Enabled(s, e) && OfConsumer(e)
    ensures Selective(Step(s, e))
  {}

  /** Over every run, whatever a consumer is offered is of a source it selected when it attached. */
  lemma {:induction false} OfferedOnlySelected(states: seq<Observed>, events: seq<Event>, k: nat)
    requires Run(states, events) && k <= |events|
    ensures WritesOwn(states[k]) && Selective(states[k])
    ensures forall serial, n | serial in states[k].tap.channels && 0 <= n < |states[k].tap.channels[serial].offers| ::
              states[k].tap.channels[serial].offers[n].chunk.source in states[k].tap.channels[serial].sources
  {
    if k > 0 {
      OfferedOnlySelected(states, events, k - 1);
      EveryConsumerIsAccounted(states, events, k - 1);
      assert Next(states[k - 1], events[k - 1], states[k]);
      SelectiveStep(states[k - 1], events[k - 1]);
    }
  }

  lemma SelectiveStep(s: Observed, e: Event)
    requires Inv(s) && WritesOwn(s) && Selective(s) && Enabled(s, e)
    ensures WritesOwn(Step(s, e)) && Selective(Step(s, e))
  {
    hide Step, Selective, Enabled;
    StepKeepsWritesOwn(s, e);
    match e
    case Capture(core) => CaptureKeepsSelective(s, core);
    case Send(i) => SendKeepsSelective(s, i);
    case Notice(_) => AskingKeepsSelective(s, e);
    case SelectSender(_) => AskingKeepsSelective(s, e);
    case _ => ConsumerKeepsSelective(s, e);
  }

  /** A thread starts to publish exactly the chunk its sink has just taken: the one it stored
      itself, or the one it queued after it saw that its source is observed. */
  predicate Publicises(s: Observed, e: Event, i: nat, chunk: Chunk) {
    && e.Capture? && e.e.Advance? && e.e.i == i && i < |s.phases| == |s.session.producers|
    && s.session.producers[i].pc.Writing? && s.session.producers[i].pc.chunk == chunk
    && if s.session.direct then e.e.input.Stored?
       else s.phases[i] == Noticed(true) && s.session.writer.WriterRunning?
  }

  lemma PublishesExactly(s: Observed, e: Event, i: nat, chunk: Chunk)
    requires Shape(s) && Enabled(s, e) && i < |s.phases| && !s.phases[i].Publishing?
    ensures i < |Step(s, e).phases|
    ensures Step(s, e).phases[i] == Publishing(chunk) <==> Publicises(s, e, i, chunk)
  {
    hide C.Step, C.WellFormed;
  }

  /** It then sends it to the consumer that is attached and selected its source, if there is one,
      and what an open receiver is offered is that chunk. */
  lemma SendsExactly(s: Observed, i: nat, serial: nat)
    requires Inv(s) && Selective(s) && i < |s.phases| && s.phases[i].Publishing?
    ensures Enabled(s, SelectSender(i)) && |Step(s, SelectSender(i)).phases| == |s.phases|
    ensures Step(s, SelectSender(i)).phases[i] == Sending(s.phases[i].chunk, serial) <==>
              s.tap.sender == Some(serial) && i in s.tap.channels[serial].sources
    ensures Step(s, SelectSender(i)).tap == s.tap
  {}

  /** An observed chunk is noticed exactly if its source is selected at that moment. */
  lemma NoticesExactly(s: Observed, i: nat)
    requires Inv(s) && Selective(s) && Enabled(s, Notice(i))
    ensures Step(s, Notice(i)).phases[i] ==
              Noticed(s.tap.sender.Some? && i in s.tap.channels[s.tap.sender.value].sources)
  {}

  /** What a step offers to a consumer. */
  function Offered(s: Observed, e: Event, serial: nat): seq<T.Offer> {
    if e.Send? && e.i < |s.phases| && s.phases[e.i].Sending? && s.phases[e.i].serial == serial
       && serial in s.tap.channels && s.tap.channels[serial].open
    then [T.Offer(s.phases[e.i].chunk, |s.tap.channels[serial].queued| < T.LIVE_PCM_QUEUE_CAPACITY)]
    else []
  }

  ghost predicate OffersGrown(s: Observed, s': Observed, serial: nat, offers: seq<T.Offer>)
    requires serial in s.tap.channels
  {
    && serial in s'.tap.channels
    && s'.tap.channels[serial].offers == s.tap.channels[serial].offers + offers
    && s'.tap.channels[serial].sources == s.tap.channels[serial].sources
  }

  lemma CaptureOffersNothing(s: Observed, e: C.Event, serial: nat)
    requires Inv(s) && Enabled(s, Capture(e)) && serial in s.tap.channels
    ensures OffersGrown(s, Step(s, Capture(e)), serial, [])
  {
    CaptureKeepsTap(s, e);
    assert Step(s, Capture(e)) == OnCapture(s, e);
    hide Step, OnCapture, Enabled, Inv;
  }

  lemma SendOffers(s: Observed, i: nat, serial: nat)
    requires Inv(s) && Enabled(s, Send(i)) && serial in s.tap.channels
    ensures OffersGrown(s, Step(s, Send(i)), serial, Offered(s, Send(i), serial))
  {
    hide T.TrySend, T.TapInv, C.WriteDone;
    T.SentExactly(s.tap, s.phases[i].serial, s.phases[i].chunk, serial);
    SendKeepsChannels(s.tap, s.phases[i].serial, s.phases[i].chunk);
  }

  lemma SendKeepsChannels(t: T.TapState, serial: nat, chunk: Chunk)
    requires serial in t.channels
    ensures T.TrySend(t, serial, chunk).channels.Keys == t.channels.Keys
  {}

  lemma OthersOfferNothing(s: Observed, e: Event, serial: nat)
    requires Inv(s) && Enabled(s, e) && serial in s.tap.channels && !e.Capture? && !e.Send?
    ensures OffersGrown(s, Step(s, e), serial, [])
  {}

  lemma OffersGrow(s: Observed, e: Event, serial: nat)
    requires Inv(s) && Enabled(s, e) && serial in s.tap.channels
    ensures OffersGrown(s, Step(s, e), serial, Offered(s, e, serial))
  {
    hide Step, Inv, Enabled, OffersGrown;
    match e
    case Capture(core) => CaptureOffersNothing(s, core, serial);
    case Send(i) => SendOffers(s, i, serial);
    case _ => OthersOfferNothing(s, e, serial);
  }

  /** A chunk on its way stays on its way until it is sent or its thread dies. */
  lemma StaysSending(s: Observed, e: Event, i: nat)
    requires Shape(s) && Enabled(s, e) && i < |s.phases| && s.phases[i].Sending?
    ensures i < |Step(s, e).phases|
    ensures e != Send(i) && e != Capture(C.ThreadPanic(i)) ==> Step(s, e).phases[i] == s.phases[i]
  {
    hide C.Step, C.WellFormed;
  }

  /** Over every run: a chunk its sink has taken from a selected source while the consumer is
      attached is offered to that consumer, whatever happens in between, unless the thread dies or
      the receiver goes away first. */
  lemma {:induction false} SelectedIsOffered(states: seq<Observed>, events: seq<Event>, j: nat, k: nat, i: nat, serial: nat)
    requires Run(states, events) && j < k < |events|
    requires events[j] == SelectSender(i) && i < |states[j].phases| && states[j].phases[i].Publishing?
    requires states[j].tap.sender == Some(serial) && serial in states[j].tap.channels
    requires i in states[j].tap.channels[serial].sources
    requires forall m | j < m < k :: events[m] != Send(i) && events[m] != Capture(C.ThreadPanic(i))
    ensures i < |states[k].phases| && states[k].phases[i] == Sending(states[j].phases[i].chunk, serial)
    ensures serial in states[k].tap.channels && serial in states[k + 1].tap.channels
    ensures events[k] == Send(i) && states[k].tap.channels[serial].open ==>
              var c, c' := states[k].tap.channels[serial], states[k + 1].tap.channels[serial];
              c'.offers == c.offers + [T.Offer(states[j].phases[i].chunk, |c.queued| < T.LIVE_PCM_QUEUE_CAPACITY)]
    decreases k
  {
    hide Step, Shape, Enabled, C.WellFormed;
    RunStep(states, events, j);
    RunStep(states, events, k - 1);
    RunStep(states, events, k);
    OfferedOnlySelected(states, events, j);
    EveryConsumerIsAccounted(states, events, k);
    if j < k - 1 {
      SelectedIsOffered(states, events, j, k - 1, i, serial);
      StaysSending(states[k - 1], events[k - 1], i);
    } else {
      EveryConsumerIsAccounted(states, events, j);
      SendsExactly(states[j], i, serial);
    }
    OffersGrow(states[k], events[k], serial);
  }

  lemma RunStep(states: seq<Observed>, events: seq<Event>, k: nat)
    requires Run(states, events) && k < |events|
    ensures Shape(states[k]) && Enabled(states[k], events[k]) && states[k + 1] == Step(states[k], events[k])
  {
    assert Next(states[k], events[k], states[k + 1]);
  }

  // ---- Lifting: consumers cannot stop capture either ----

  /** What the consumers do before each step of the threads: any events at all, of which those
      that are not possible at their turn are skipped. */
  type Plan = nat -> seq<Event>

  ghost function Consumers(s: Observed, batch: seq<Event>): Observed
    decreases |batch|
  {
    if batch == [] then s
    else
      var e := batch[0];
      Consumers(if OfConsumer(e) && Enabled(s, e) then Step(s, e) else s, batch[1..])
  }

  lemma {:induction false} ConsumersKeepCore(s: Observed, batch: seq<Event>)
    requires Inv(s)
    ensures Inv(Consumers(s, batch))
    ensures Core(Consumers(s, batch)) == Core(s)
    ensures Consumers(s, batch).session == s.session && Consumers(s, batch).phases == s.phases
    decreases |batch|
  {
    if batch != [] {
      var e := batch[0];
      var t := if OfConsumer(e) && Enabled(s, e) then Step(s, e) else s;
      if OfConsumer(e) && Enabled(s, e) { StepKeepsInv(s, e); }
      ConsumersKeepCore(t, batch[1..]);
    }
  }

  /** Steps of the threads and the environment, with the consumers acting before each one. */
  ghost predicate Rounds(states: seq<Observed>, steps: seq<Event>, plan: Plan) {
    && |states| == |steps| + 1
    && forall k | 0 <= k < |steps| :: Round(states[k], steps[k], states[k + 1], plan(k))
  }

  ghost predicate Round(s: Observed, e: Event, s': Observed, batch: seq<Event>) {
    !OfConsumer(e) && Next(Consumers(s, batch), e, s')
  }

  lemma RoundsSnoc(states: seq<Observed>, steps: seq<Event>, plan: Plan, e: Event) returns (more: seq<Observed>, all: seq<Event>)
    requires Rounds(states, steps, plan) && Inv(states[|steps|]) && !OfConsumer(e)
    requires Enabled(Consumers(states[|steps|], plan(|steps|)), e)
    ensures Rounds(more, all, plan) && all == steps + [e] && more[0] == states[0]
    ensures more[|all|] == Step(Consumers(states[|steps|], plan(|steps|)), e) && Inv(more[|all|])
    ensures CaptureEvents(all) == CaptureEvents(steps) + (if e.Capture? then [e.e] else [])
  {
    var s := Consumers(states[|steps|], plan(|steps|));
    ConsumersKeepCore(states[|steps|], plan(|steps|));
    StepKeepsInv(s, e);
    more, all := states + [Step(s, e)], steps + [e];
    forall k | 0 <= k < |all|
      ensures Round(more[k], all[k], more[k + 1], plan(k))
    {
      if k < |steps| { assert Round(states[k], steps[k], states[k + 1], plan(k)); }
    }
    assert all[..|all| - 1] == steps;
  }

  /** A thread's own steps around its write are possible however the consumers acted before. */
  lemma ConsumersAllowOwnStep(s: Observed, t: Observed, e: Event)
    requires Inv(s) && Inv(t) && t.session == s.session && t.phases == s.phases
    requires (e.Notice? || e.SelectSender? || e.Send?) && Enabled(s, e)
    ensures Enabled(t, e) && e.i < |Step(t, e).phases|
    ensures e.Notice? ==> ThreadReady(Step(t, e), e.i) && !Publishes(Step(t, e).phases[e.i])
    ensures e.SelectSender? ==> !Step(t, e).phases[e.i].Publishing?
    ensures e.Send? ==> Step(t, e).phases[e.i].Idle?
  {
    hide T.TapInv, C.WriteDone;
  }

  lemma OwnStep(states: seq<Observed>, steps: seq<Event>, plan: Plan, e: Event)
    returns (more: seq<Observed>, all: seq<Event>)
    requires Rounds(states, steps, plan) && Inv(states[|steps|])
    requires (e.Notice? || e.SelectSender? || e.Send?) && Enabled(states[|steps|], e)
    ensures Rounds(more, all, plan) && Inv(more[|all|]) && more[0] == states[0]
    ensures |all| == |steps| + 1 && CaptureEvents(all) == CaptureEvents(steps)
    ensures Core(more[|all|]) == Core(states[|steps|]) && e.i < |more[|all|].phases|
    ensures e.Notice? ==> ThreadReady(more[|all|], e.i) && !Publishes(more[|all|].phases[e.i])
    ensures e.SelectSender? ==> !more[|all|].phases[e.i].Publishing?
    ensures e.Send? ==> more[|all|].phases[e.i].Idle?
  {
    ConsumersKeepCore(states[|steps|], plan(|steps|));
    var s := Consumers(states[|steps|], plan(|steps|));
    ConsumersAllowOwnStep(states[|steps|], s, e);
    InvIsShape(s);
    PublishStepRefines(s, e);
    hide CaptureEvents, Consumers, Core, Inv, Shape, Enabled, Step, ThreadReady, Publishes;
    more, all := RoundsSnoc(states, steps, plan, e);
  }

  lemma InvIsShape(s: Observed)
    requires Inv(s)
    ensures Shape(s)
  {}

  /** A publish always ends: whatever the consumers do, two more steps of its thread at most and
      the write has returned, with the core as it was. */
  lemma PublishEnds(states: seq<Observed>, steps: seq<Event>, plan: Plan, i: nat)
    returns (more: seq<Observed>, all: seq<Event>)
    requires Rounds(states, steps, plan) && Inv(states[|steps|]) && i < |states[|steps|].phases|
    ensures Rounds(more, all, plan) && Inv(more[|all|]) && more[0] == states[0]
    ensures |steps| <= |all| <= |steps| + 2 && CaptureEvents(all) == CaptureEvents(steps)
    ensures i < |more[|all|].phases| && !Publishes(more[|all|].phases[i]) && Core(more[|all|]) == Core(states[|steps|])
  {
    hide CaptureEvents, Core;
    more, all := states, steps;
    if more[|all|].phases[i].Publishing? { more, all := OwnStep(more, all, plan, SelectSender(i)); }
    if more[|all|].phases[i].Sending? { more, all := OwnStep(more, all, plan, Send(i)); }
  }

  /** Before any step of its core a thread gets ready for it by publishing and asking alone. */
  lemma ThreadGetsReady(states: seq<Observed>, steps: seq<Event>, plan: Plan, i: nat)
    returns (more: seq<Observed>, all: seq<Event>)
    requires Rounds(states, steps, plan) && Inv(states[|steps|]) && i < |states[|steps|].phases|
    ensures Rounds(more, all, plan) && Inv(more[|all|]) && more[0] == states[0]
    ensures |all| <= |steps| + 3 && CaptureEvents(all) == CaptureEvents(steps)
    ensures ThreadReady(more[|all|], i) && !Publishes(more[|all|].phases[i])
    ensures Core(more[|all|]) == Core(states[|steps|])
  {
    more, all := PublishEnds(states, steps, plan, i);
    hide CaptureEvents, Core, Rounds;
    if !ThreadReady(more[|all|], i) { more, all := OwnStep(more, all, plan, Notice(i)); }
  }

  /** A step the core can take, the observed system can take once its thread is ready. */
  lemma CoreStepIsEnabled(s: Observed, e: C.Event)
    requires Inv(s) && C.WellFormed(Core(s)) && C.Enabled(Core(s), e)
    requires e.Advance? ==> ThreadReady(s, e.i) && !Publishes(s.phases[e.i])
    ensures Enabled(s, Capture(e))
  {
    CoreWellFormed(s);
    if e.Advance? {
      CoreAdvanceIsEnabled(s, e.i, e.input);
    } else {
      OtherCoreStepIsEnabled(s, e);
    }
    hide Core, C.Enabled, C.WellFormed;
  }

  lemma CoreAdvanceIsEnabled(s: Observed, i: nat, input: C.Input)
    requires Shape(s) && C.Enabled(Core(s), C.Advance(i, input)) && i < |s.phases| && !Publishes(s.phases[i])
    ensures C.Enabled(s.session, C.Advance(i, input))
  {
    assert Core(s).producers[i] == s.session.producers[i];
  }

  lemma OtherCoreStepIsEnabled(s: Observed, e: C.Event)
    requires Shape(s) && C.Enabled(Core(s), e) && !e.Advance?
    ensures C.Enabled(s.session, e)
  {
    CoreProgress(s);
    CoreJoins(s);
    hide C.CanAdvance, C.StopMeetsPanic, C.Ended, CoreProducer;
  }

  /** Whatever the consumers do, and however often: every run of plain capture is the core of an
      observed run with that behaviour woven in, so an observer can neither change what capture
      stores nor keep it from storing it. */
  lemma {:induction false} EveryCaptureRunLifts(cores: seq<C.Session>, events: seq<C.Event>, plan: Plan)
    returns (states: seq<Observed>, steps: seq<Event>)
    requires C.Run(cores, events)
    ensures Rounds(states, steps, plan) && CaptureEvents(steps) == events
    ensures Init(states[0]) && states[0].session == cores[0]
    ensures Inv(states[|steps|]) && Core(states[|steps|]) == cores[|events|]
    decreases |events|
  {
    if events == [] {
      var start := Observed(cores[0], seq(|cores[0].producers|, _ => Idle), T.DETACHED);
      states, steps := [start], [];
      assert Core(start).producers == cores[0].producers;
    } else {
      var n := |events| - 1;
      var e := events[n];
      assert C.Run(cores[..n + 1], events[..n]) by {
        assert forall k | 0 <= k < n :: C.Next(cores[k], events[k], cores[k + 1]);
      }
      states, steps := EveryCaptureRunLifts(cores[..n + 1], events[..n], plan);
      assert C.Next(cores[n], e, cores[n + 1]);
      hide C.Run, C.Step, C.Enabled, C.WellFormed, Consumers, Rounds;
      if e.Advance? { states, steps := ThreadGetsReady(states, steps, plan, e.i); }
      ConsumersKeepCore(states[|steps|], plan(|steps|));
      var s := Consumers(states[|steps|], plan(|steps|));
      CoreStepIsEnabled(s, e);
      StepRefines(s, Capture(e));
      states, steps := RoundsSnoc(states, steps, plan, Capture(e));
      assert events == events[..n] + [e];
    }
  }

  // ---- Rounds are runs ----

  ghost predicate Path(states: seq<Observed>, events: seq<Event>) {
    |states| == |events| + 1 && forall k | 0 <= k < |events| :: Next(states[k], events[k], states[k + 1])
  }

  lemma PathSnoc(states: seq<Observed>, events: seq<Event>, e: Event) returns (more: seq<Observed>, all: seq<Event>)
    requires Path(states, events) && Enabled(states[|events|], e)
    ensures Path(more, all) && more[0] == states[0] && more[|all|] == Step(states[|events|], e)
    ensures CaptureEvents(all) == CaptureEvents(events) + (if e.Capture? then [e.e] else [])
  {
    more, all := states + [Step(states[|events|], e)], events + [e];
    forall k | 0 <= k < |all|
      ensures Next(more[k], all[k], more[k + 1])
    {
      if k < |events| { assert Next(states[k], events[k], states[k + 1]); }
    }
    assert all[..|all| - 1] == events;
  }

  lemma {:induction false} ConsumersArePath(states: seq<Observed>, events: seq<Event>, batch: seq<Event>)
    returns (more: seq<Observed>, all: seq<Event>)
    requires Path(states, events)
    ensures Path(more, all) && more[0] == states[0] && more[|all|] == Consumers(states[|events|], batch)
    ensures CaptureEvents(all) == CaptureEvents(events)
    decreases |batch|
  {
    more, all := states, events;
    if batch != [] {
      var e := batch[0];
      if OfConsumer(e) && Enabled(more[|all|], e) { more, all := PathSnoc(more, all, e); }
      more, all := ConsumersArePath(more, all, batch[1..]);
    }
  }

  /** Rounds are runs in which the consumers' steps have been written out. */
  lemma {:induction false} RoundsAreRun(states: seq<Observed>, steps: seq<Event>, plan: Plan)
    returns (more: seq<Observed>, all: seq<Event>)
    requires Rounds(states, steps, plan) && Init(states[0])
    ensures Run(more, all) && more[|all|] == states[|steps|] && CaptureEvents(all) == CaptureEvents(steps)
    ensures more[0] == states[0]
    decreases |steps|
  {
    if steps == [] {
      more, all := states, [];
    } else {
      var n := |steps| - 1;
      assert Rounds(states[..n + 1], steps[..n], plan) by {
        assert forall k | 0 <= k < n :: Round(states[k], steps[k], states[k + 1], plan(k));
      }
      more, all := RoundsAreRun(states[..n + 1], steps[..n], plan);
      assert Round(states[n], steps[n], states[n + 1], plan(n));
      more, all := ConsumersArePath(more, all, plan(n));
      more, all := PathSnoc(more, all, steps[n]);
    }
  }

  /** Non-interference without fixing a schedule: what any observed run stored, it could have
      stored, with the same outcome, under any other behaviour of its consumers. */
  lemma AnyConsumersSameCapture(states: seq<Observed>, events: seq<Event>, plan: Plan)
    returns (rounds: seq<Observed>, steps: seq<Event>, more: seq<Observed>, all: seq<Event>)
    requires Run(states, events)
    ensures Rounds(rounds, steps, plan) && Run(more, all)
    ensures more[0].session == states[0].session && more[|all|] == rounds[|steps|]
    ensures CaptureEvents(all) == CaptureEvents(events)
    ensures more[|all|].session.durable == states[|events|].session.durable
    ensures more[|all|].session.outcome == states[|events|].session.outcome
  {
    var cores := ErasureIsCaptureRun(states, events);
    rounds, steps := EveryCaptureRunLifts(cores, CaptureEvents(events), plan);
    more, all := RoundsAreRun(rounds, steps, plan);
    ObserverCannotAffectCapture(states, events, more, all);
  }
}
