/** The supervisor of the core process: requests, responses, timeouts, exits and restarts, and
    the obligation to recover a capture whose fate is unknown. Every handler is one atomic step. */
module CoreSupervisor {
  import opened Common
  import H = Histories
  import R = RequestRegistry

  datatype Lifecycle = Stopped | Starting | Running | Stopping | Exited | Failed | Degraded

  /** What degraded the connection: an exit, the timeout of a request, or an earlier session. */
  datatype Trigger = ProcessExit | RequestTimeout(m: R.Method) | EarlierSession

  datatype Metadata = Metadata(trigger: Trigger, recordingId: Option<string>)

  datatype State = State(
    child: Option<nat>,
    spawned: nat,
    lifecycle: Lifecycle,
    captureActive: bool,
    activeRecordingId: Option<string>,
    degraded: Option<Metadata>,
    recoveryRequired: bool,
    protocolFault: bool,
    registry: R.Registry)

  const INITIAL := State(None, 0, Stopped, false, None, None, false, false, R.EMPTY)

  /** The parts of a successful result the supervisor looks at. */
  datatype Reply = Reply(id: nat, ok: bool, resultValid: bool, active: bool, recordingId: Option<string>)

  datatype Event =
    | Call(id: nat, m: R.Method, spawnOk: bool, writable: bool)
    | Spawned(child: nat)
    | ChildError(child: nat)
    | Response(child: nat, reply: Reply)
    | BadLine(child: nat)
    | WriteError(id: nat)
    | Timeout(id: nat)
    | Exit(child: nat)
    | Restore(metadata: Metadata)
    | CompleteRecovery
    | RetryConfirmed
    | Shutdown

  predicate HasMethod(s: State, m: R.Method) { exists id | id in s.registry.pending :: s.registry.pending[id] == m }

  datatype GuardPhase = IdlePhase | StartingPhase | RecordingPhase | FinalizingPhase

  function CaptureGuardPhase(s: State): GuardPhase {
    if HasMethod(s, R.CaptureStop) then FinalizingPhase
    else if HasMethod(s, R.CaptureStart) then StartingPhase
    else if s.captureActive then RecordingPhase
    else IdlePhase
  }

  /** Request ids are fresh; a timer only fires while its request is pending; shutdown is
      denied unless the capture guard is idle. */
  predicate Enabled(s: State, e: Event) {
    match e
    case Call(id, _, _, _) => id !in s.registry.issued
    case Timeout(id) => id in s.registry.pending
    case Shutdown => CaptureGuardPhase(s).IdlePhase? && s.child.Some?
    case _ => true
  }

  function EnterCaptureRecovery(s: State, trigger: Trigger): State {
    s.(lifecycle := Degraded, degraded := Some(Metadata(trigger, s.activeRecordingId)), recoveryRequired := true)
  }

  /** The fields start() resets before it spawns a new child. */
  function Restarting(s: State): State {
    s.(lifecycle := Starting, degraded := None, protocolFault := false)
  }

  function OnCall(s: State, id: nat, m: R.Method, spawnOk: bool, writable: bool): State {
    var started :=
      if s.child.Some? then s
      else if spawnOk then Restarting(s).(child := Some(s.spawned), spawned := s.spawned + 1)
      else Restarting(s).(lifecycle := Failed);
    if started.child.Some? && writable then started.(registry := R.Register(s.registry, id, m)) else started
  }

  function FailProtocol(s: State): State {
    s.(protocolFault := true, lifecycle := Failed, registry := R.SettleAll(s.registry))
  }

  function UpdateCaptureState(s: State, m: R.Method, reply: Reply): State {
    if !reply.ok then s
    else match m
      case CaptureStop =>
        s.(captureActive := false, activeRecordingId := None, recoveryRequired := false, degraded := None,
           lifecycle := if s.lifecycle.Degraded? then Running else s.lifecycle)
      case CaptureStart => s.(captureActive := true, activeRecordingId := reply.recordingId)
      case CaptureStatus =>
        var known := s.(captureActive := reply.active, activeRecordingId := if reply.active then reply.recordingId else None);
        if s.lifecycle.Degraded? then known.(lifecycle := Running, degraded := None, recoveryRequired := false) else known
      case OtherMethod => s
  }

  function OnResponse(s: State, reply: Reply): State {
    if reply.id !in s.registry.pending then FailProtocol(s)
    else if reply.ok && !reply.resultValid then
      s.(registry := R.Settle(s.registry, reply.id, R.Rejected), protocolFault := true, lifecycle := Failed)
    else
      UpdateCaptureState(s.(registry := R.Settle(s.registry, reply.id, R.Answered)), s.registry.pending[reply.id], reply)
  }

  function OnTimeout(s: State, id: nat): State
    requires id in s.registry.pending
  {
    var m := s.registry.pending[id];
    var timed := s.(registry := R.Settle(s.registry, id, R.TimedOut));
    if s.captureActive || m.CaptureStart? then
      EnterCaptureRecovery(if m.CaptureStart? then timed.(captureActive := true) else timed, RequestTimeout(m))
    else timed.(lifecycle := Failed, protocolFault := true)
  }

  function OnExit(s: State): State {
    var noted := if s.captureActive then EnterCaptureRecovery(s, ProcessExit) else s;
    noted.(child := None, captureActive := false, activeRecordingId := None,
           lifecycle := if s.protocolFault then Failed else if s.lifecycle.Stopping? then Stopped else Exited,
           registry := R.SettleAll(s.registry))
  }

  function Step(s: State, e: Event): State
    requires Enabled(s, e)
  {
    match e
    case Call(id, m, spawnOk, writable) => OnCall(s, id, m, spawnOk, writable)
    case Spawned(c) => if s.child == Some(c) then s.(lifecycle := Running) else s
    case ChildError(c) => if s.child == Some(c) then s.(lifecycle := Failed) else s
    case Response(c, reply) => if s.child == Some(c) then OnResponse(s, reply) else s
    case BadLine(c) => if s.child == Some(c) then FailProtocol(s) else s
    case WriteError(id) => s.(registry := R.Settle(s.registry, id, R.Rejected))
    case Timeout(id) => OnTimeout(s, id)
    case Exit(c) => if s.child == Some(c) then OnExit(s) else s
    case Restore(metadata) =>
      s.(lifecycle := Degraded, degraded := Some(metadata), recoveryRequired := true, activeRecordingId := metadata.recordingId)
    case CompleteRecovery =>
      s.(captureActive := false, activeRecordingId := None, recoveryRequired := false, degraded := None,
         lifecycle := if s.lifecycle.Degraded? then Running else s.lifecycle)
    case RetryConfirmed => s.(lifecycle := Running, degraded := None)
    case Shutdown => s.(lifecycle := Stopping)
  }

  ghost predicate Next(s: State, e: Event, s': State) {
    Enabled(s, e) && s' == Step(s, e)
  }

  ghost predicate Run(states: seq<State>, events: seq<Event>) {
    && |states| == |events| + 1
    && states[0] == INITIAL
    && forall k | 0 <= k < |events| :: Next(states[k], events[k], states[k + 1])
  }

  ghost predicate Inv(s: State) {
    && R.ExactlyOnce(s.registry)
    && (s.child.None? ==> s.registry.pending == map[])
    && (s.lifecycle.Degraded? ==> s.degraded.Some?)
    && (s.degraded.Some? ==> s.recoveryRequired)
  }

  /** Reading a reply never touches the table or the child, and keeps the degraded metadata
      tied to the obligation. */
  lemma UpdateKeepsRest(s: State, m: R.Method, reply: Reply)
    requires s.lifecycle.Degraded? ==> s.degraded.Some?
    requires s.degraded.Some? ==> s.recoveryRequired
    ensures var t := UpdateCaptureState(s, m, reply);
            && t.registry == s.registry && t.child == s.child
            && (t.lifecycle.Degraded? ==> t.degraded.Some?)
            && (t.degraded.Some? ==> t.recoveryRequired)
  {}

  lemma ResponseKeepsInv(s: State, reply: Reply)
    requires Inv(s) && s.child.Some?
    ensures Inv(OnResponse(s, reply))
  {
    hide R.ExactlyOnce, R.SettleAll;
    if reply.id !in s.registry.pending {
      LossKeepsInv(s);
    } else if reply.ok && !reply.resultValid {
      R.SettleKeepsExactlyOnce(s.registry, reply.id, R.Rejected);
    } else {
      R.SettleKeepsExactlyOnce(s.registry, reply.id, R.Answered);
      var answered := s.(registry := R.Settle(s.registry, reply.id, R.Answered));
      UpdateKeepsRest(answered, s.registry.pending[reply.id], reply);
    }
  }

  lemma LossKeepsInv(s: State)
    requires Inv(s)
    ensures Inv(OnExit(s)) && (s.child.Some? ==> Inv(FailProtocol(s)))
  {
    R.SettleAllKeepsExactlyOnce(s.registry);
  }

  lemma TimeoutKeepsInv(s: State, id: nat)
    requires Inv(s) && id in s.registry.pending
    ensures Inv(OnTimeout(s, id))
  {
    hide R.ExactlyOnce, R.Settle;
    R.SettleKeepsExactlyOnce(s.registry, id, R.TimedOut);
  }

  lemma StepKeepsInv(s: State, e: Event)
    requires Inv(s) && Enabled(s, e)
    ensures Inv(Step(s, e))
  {
    match e
    case Call(id, m, _, _) => R.RegisterKeepsExactlyOnce(s.registry, id, m);
    case Response(c, reply) => if s.child == Some(c) { ResponseKeepsInv(s, reply); }
    case BadLine(_) => LossKeepsInv(s);
    case WriteError(id) => R.SettleKeepsExactlyOnce(s.registry, id, R.Rejected);
    case Timeout(id) => TimeoutKeepsInv(s, id);
    case Exit(_) => LossKeepsInv(s);
    case _ =>
  }

  lemma {:induction false} RunKeepsInv(states: seq<State>, events: seq<Event>, k: nat)
    requires Run(states, events) && k <= |events|
    ensures Inv(states[k])
  {
    if k > 0 {
      RunKeepsInv(states, events, k - 1);
      assert Next(states[k - 1], events[k - 1], states[k]);
      StepKeepsInv(states[k - 1], events[k - 1]);
    }
  }

  // ---- Exactly-once settlement ----

  /** Over every run, each request ever registered is pending with a live child, or was settled
      exactly once; none survives the exit of its child. */
  lemma RequestsSettleExactlyOnce(states: seq<State>, events: seq<Event>, k: nat, id: nat)
    requires Run(states, events) && k <= |events| && id in states[k].registry.issued
    ensures var r := states[k].registry;
            if id in r.pending then r.settled[id] == 0 && id !in r.outcomes && states[k].child.Some?
            else r.settled[id] == 1 && id in r.outcomes
  {
    RunKeepsInv(states, events, k);
  }

  /** What a step does to the table. */
  lemma StepTable(s: State, e: Event)
    requires Enabled(s, e)
    ensures Step(s, e).registry ==
            match e
            case Call(id, m, spawnOk, writable) => if writable && (s.child.Some? || spawnOk) then R.Register(s.registry, id, m) else s.registry
            case Response(c, reply) =>
              if s.child != Some(c) then s.registry
              else if reply.id !in s.registry.pending then R.SettleAll(s.registry)
              else R.Settle(s.registry, reply.id, if reply.ok && !reply.resultValid then R.Rejected else R.Answered)
            case BadLine(c) => if s.child == Some(c) then R.SettleAll(s.registry) else s.registry
            case Exit(c) => if s.child == Some(c) then R.SettleAll(s.registry) else s.registry
            case WriteError(id) => R.Settle(s.registry, id, R.Rejected)
            case Timeout(id) => R.Settle(s.registry, id, R.TimedOut)
            case _ => s.registry
  {
    hide R.Settle, R.SettleAll;
  }

  lemma OutcomeIsKept(s: State, e: Event, id: nat)
    requires Inv(s) && Enabled(s, e) && id in s.registry.outcomes
    ensures id in Step(s, e).registry.outcomes && Step(s, e).registry.outcomes[id] == s.registry.outcomes[id]
  {
    hide Step, R.Settle, R.SettleAll, R.ExactlyOnce;
    StepTable(s, e);
    var settled := if e.Response? then e.reply.id else if e.WriteError? || e.Timeout? then e.id else id;
    R.OutcomesStand(s.registry, settled, R.Rejected, id);
    R.OutcomesStand(s.registry, settled, R.Answered, id);
    R.OutcomesStand(s.registry, settled, R.TimedOut, id);
  }

  /** The first settlement stands: later responses, timeouts, rejections and exits change nothing. */
  lemma {:induction false} SettlementIsFinal(states: seq<State>, events: seq<Event>, j: nat, k: nat, id: nat)
    requires Run(states, events) && j <= k <= |events|
    requires id in states[j].registry.outcomes
    ensures id in states[k].registry.outcomes
    ensures states[k].registry.outcomes[id] == states[j].registry.outcomes[id]
    decreases k
  {
    if j < k {
      SettlementIsFinal(states, events, j, k - 1, id);
      RunKeepsInv(states, events, k - 1);
      assert Next(states[k - 1], events[k - 1], states[k]);
      OutcomeIsKept(states[k - 1], events[k - 1], id);
    }
  }

  /** How a step settles a pending request: the answer of its own child, one of the rejections,
      its timer, or the loss of the child or of the protocol. */
  function SettlesAs(s: State, e: Event, id: nat): Option<R.How> {
    match e
    case Response(c, reply) =>
      if s.child != Some(c) then None
      else if reply.id !in s.registry.pending then Some(R.MassRejected)
      else if reply.id != id then None
      else Some(if reply.ok && !reply.resultValid then R.Rejected else R.Answered)
    case BadLine(c) => if s.child == Some(c) then Some(R.MassRejected) else None
    case Exit(c) => if s.child == Some(c) then Some(R.MassRejected) else None
    case WriteError(failed) => if failed == id then Some(R.Rejected) else None
    case Timeout(late) => if late == id then Some(R.TimedOut) else None
    case _ => None
  }

  /** A pending request keeps its place and its method until a step settles it, and then has
      the outcome of that step. */
  lemma SettledExactly(s: State, e: Event, id: nat)
    requires Inv(s) && Enabled(s, e) && id in s.registry.pending
    ensures var r := Step(s, e).registry;
            match SettlesAs(s, e, id)
            case None => id in r.pending && r.pending[id] == s.registry.pending[id]
            case Some(how) => id !in r.pending && id in r.outcomes && r.outcomes[id] == how
  {
    hide Step, R.ExactlyOnce;
    StepTable(s, e);
    if e.Call? { FreshIsNotPending(s, e.id); }
  }

  /** A request becomes pending exactly when it is written to a child, started for it if need be. */
  lemma RegisteredExactly(s: State, e: Event, id: nat, m: R.Method)
    requires Inv(s) && Enabled(s, e) && id !in s.registry.pending
    ensures (id in Step(s, e).registry.pending && Step(s, e).registry.pending[id] == m)
            <==> e.Call? && e.id == id && e.m == m && e.writable && (s.child.Some? || e.spawnOk)
  {
    hide Step, R.ExactlyOnce;
    StepTable(s, e);
  }

  // ---- One child at a time ----

  /** The child a step hears from. */
  function HeardFrom(e: Event): Option<nat> {
    match e
    case Spawned(c) => Some(c)
    case ChildError(c) => Some(c)
    case Response(c, _) => Some(c)
    case BadLine(c) => Some(c)
    case Exit(c) => Some(c)
    case _ => None
  }

  lemma {:induction false} HeldChildIsLatest(states: seq<State>, events: seq<Event>, k: nat)
    requires Run(states, events) && k <= |events|
    ensures states[k].child.Some? ==> states[k].spawned == states[k].child.value + 1
  {
    if k > 0 {
      HeldChildIsLatest(states, events, k - 1);
      assert Next(states[k - 1], events[k - 1], states[k]);
      ChildExactly(states[k - 1], events[k - 1]);
    }
  }

  /** The held child is the one just spawned for a call, until that child exits. */
  lemma ChildExactly(s: State, e: Event)
    requires Enabled(s, e)
    ensures Step(s, e).child ==
            if e.Call? && s.child.None? && e.spawnOk then Some(s.spawned)
            else if e.Exit? && s.child == Some(e.child) then None
            else s.child
    ensures Step(s, e).spawned == if e.Call? && s.child.None? && e.spawnOk then s.spawned + 1 else s.spawned
  {}

  /** Over every run, whatever an earlier child still says or does changes nothing. */
  lemma EarlierChildrenAreIgnored(states: seq<State>, events: seq<Event>, k: nat)
    requires Run(states, events) && k < |events|
    requires HeardFrom(events[k]).Some? && HeardFrom(events[k]).value + 1 < states[k].spawned
    ensures states[k + 1] == states[k]
  {
    HeldChildIsLatest(states, events, k);
    assert Next(states[k], events[k], states[k + 1]);
  }

  // ---- Whether a capture is running ----

  /** A well-formed successful answer of the held child to a pending request of this kind. */
  predicate Answers(s: State, e: Event, m: R.Method) {
    && e.Response? && s.child == Some(e.child)
    && e.reply.id in s.registry.pending && s.registry.pending[e.reply.id] == m
    && e.reply.ok && e.reply.resultValid
  }

  /** A capture starts: a start is confirmed, a status reply reports one, or a start request
      times out and may have taken effect. */
  predicate Activates(s: State, e: Event) {
    || Answers(s, e, R.CaptureStart)
    || (Answers(s, e, R.CaptureStatus) && e.reply.active)
    || (e.Timeout? && e.id in s.registry.pending && s.registry.pending[e.id].CaptureStart?)
  }

  /** It ends: a stop is confirmed, a status reply reports none, the child is gone, or recovery
      is complete. */
  predicate Deactivates(s: State, e: Event) {
    || Answers(s, e, R.CaptureStop)
    || (Answers(s, e, R.CaptureStatus) && !e.reply.active)
    || (e.Exit? && s.child == Some(e.child))
    || e.CompleteRecovery?
  }

  ghost function Activations(states: seq<State>, events: seq<Event>): set<nat>
    requires |states| == |events| + 1
  {
    set j: nat | j < |events| && Activates(states[j], events[j])
  }

  ghost function Deactivations(states: seq<State>, events: seq<Event>): set<nat>
    requires |states| == |events| + 1
  {
    set j: nat | j < |events| && Deactivates(states[j], events[j])
  }

  /** A capture was started or reported at some step and has not ended since. */
  ghost predicate Recording(states: seq<State>, events: seq<Event>, k: nat)
    requires |states| == |events| + 1
  {
    H.Since(Activations(states, events), Deactivations(states, events), k)
  }

  lemma ActivityStep(s: State, e: Event)
    requires Enabled(s, e)
    ensures Step(s, e).captureActive <==> Activates(s, e) || (s.captureActive && !Deactivates(s, e))
  {
    hide R.Settle, R.SettleAll, R.Register;
  }

  /** Over every run, the client takes a capture to be running exactly when the events say so. */
  lemma CaptureActiveExactly(states: seq<State>, events: seq<Event>, k: nat)
    requires Run(states, events) && k <= |events|
    ensures states[k].captureActive <==> Recording(states, events, k)
  {
    var flags := seq(|states|, i requires 0 <= i < |states| => states[i].captureActive);
    forall n: nat | n < k
      ensures flags[n + 1] <==> n in Activations(states, events) || (flags[n] && n !in Deactivations(states, events))
    {
      assert Next(states[n], events[n], states[n + 1]);
      ActivityStep(states[n], events[n]);
    }
    H.FlagIsHistory(flags, Activations(states, events), Deactivations(states, events), k);
  }

  ghost predicate Awaits(s: State, m: R.Method) {
    exists id :: id in s.registry.pending && s.registry.pending[id] == m
  }

  /** Over every run, the guard is finalizing exactly while a stop is pending, starting while a
      start is, recording while a capture runs, and idle, so that a shutdown is allowed, exactly
      when none of these holds. */
  lemma GuardPhaseExactly(states: seq<State>, events: seq<Event>, k: nat)
    requires Run(states, events) && k <= |events|
    ensures var s, phase := states[k], CaptureGuardPhase(states[k]);
            && (phase.FinalizingPhase? <==> Awaits(s, R.CaptureStop))
            && (phase.StartingPhase? <==> Awaits(s, R.CaptureStart) && !Awaits(s, R.CaptureStop))
            && (phase.RecordingPhase? <==>
                  Recording(states, events, k) && !Awaits(s, R.CaptureStart) && !Awaits(s, R.CaptureStop))
            && (phase.IdlePhase? <==>
                  !Recording(states, events, k) && !Awaits(s, R.CaptureStart) && !Awaits(s, R.CaptureStop))
            && (Enabled(s, Shutdown) <==> phase.IdlePhase? && s.child.Some?)
  {
    CaptureActiveExactly(states, events, k);
    AwaitsMeansHas(states[k], R.CaptureStop);
    AwaitsMeansHas(states[k], R.CaptureStart);
    hide Awaits, HasMethod, Recording;
  }

  lemma AwaitsMeansHas(s: State, m: R.Method)
    ensures Awaits(s, m) <==> HasMethod(s, m)
  {}

  /** The process is only asked to shut down while no capture runs, starts or stops. */
  lemma NoShutdownWhileRecording(states: seq<State>, events: seq<Event>, k: nat)
    requires Run(states, events) && k < |events| && events[k].Shutdown?
    ensures !Recording(states, events, k)
    ensures forall id | id in states[k].registry.pending ::
              !states[k].registry.pending[id].CaptureStart? && !states[k].registry.pending[id].CaptureStop?
  {
    CaptureActiveExactly(states, events, k);
    assert Next(states[k], events[k], states[k + 1]);
    assert !HasMethod(states[k], R.CaptureStart) && !HasMethod(states[k], R.CaptureStop);
  }

  // ---- Which recording it is ----

  /** What a step says about the recording: its id as the reply or the saved metadata gives it,
      or that there is none. */
  function Names(s: State, e: Event): Option<Option<string>> {
    if Answers(s, e, R.CaptureStart) || (Answers(s, e, R.CaptureStatus) && e.reply.active) then Some(e.reply.recordingId)
    else if e.Restore? then Some(e.metadata.recordingId)
    else if Deactivates(s, e) then Some(None)
    else None
  }

  lemma NamingStep(s: State, e: Event)
    requires Enabled(s, e)
    ensures Step(s, e).activeRecordingId == match Names(s, e) { case Some(id) => id case None => s.activeRecordingId }
  {
    hide R.Settle, R.SettleAll, R.Register;
  }

  ghost predicate SilentFrom(states: seq<State>, events: seq<Event>, j: nat, k: nat)
    requires |states| == |events| + 1 && k <= |events|
  {
    forall i | j <= i < k :: Names(states[i], events[i]).None?
  }

  ghost predicate NamedFrom(states: seq<State>, events: seq<Event>, j: nat, k: nat, id: Option<string>)
    requires |states| == |events| + 1 && k <= |events|
  {
    j < k && Names(states[j], events[j]) == Some(id) && SilentFrom(states, events, j + 1, k)
  }

  /** The id the run has named last before step k. */
  ghost predicate LastNamed(states: seq<State>, events: seq<Event>, k: nat, id: Option<string>)
    requires |states| == |events| + 1 && k <= |events|
  {
    (exists j: nat :: NamedFrom(states, events, j, k, id)) || (id.None? && SilentFrom(states, events, 0, k))
  }

  lemma LastNamedStep(states: seq<State>, events: seq<Event>, n: nat, id: Option<string>)
    requires |states| == |events| + 1 && n < |events|
    requires Names(states[n], events[n]) == Some(id) || (Names(states[n], events[n]).None? && LastNamed(states, events, n, id))
    ensures LastNamed(states, events, n + 1, id)
  {
    hide Names;
    if Names(states[n], events[n]) == Some(id) {
      assert NamedFrom(states, events, n, n + 1, id);
    } else if j: nat :| NamedFrom(states, events, j, n, id) {
      assert NamedFrom(states, events, j, n + 1, id);
    }
  }

  /** Over every run the client knows the recording by the id named last. */
  lemma {:induction false} KnownByLastName(states: seq<State>, events: seq<Event>, k: nat)
    requires Run(states, events) && k <= |events|
    ensures LastNamed(states, events, k, states[k].activeRecordingId)
  {
    if k > 0 {
      KnownByLastName(states, events, k - 1);
      assert Next(states[k - 1], events[k - 1], states[k]);
      NamingStep(states[k - 1], events[k - 1]);
      LastNamedStep(states, events, k - 1, states[k].activeRecordingId);
    }
  }

  // ---- The capture-recovery obligation ----

  /** The fate of a capture becomes unknown: an exit or a timeout while one is recording, a
      start request that times out, or an obligation restored from an earlier session. */
  predicate Raises(s: State, e: Event, recording: bool) {
    match e
    case Exit(c) => s.child == Some(c) && recording
    case Timeout(id) => id in s.registry.pending && (recording || s.registry.pending[id].CaptureStart?)
    case Restore(_) => true
    case _ => false
  }

  /** The core or the recovery flow has accounted for the capture. */
  predicate Clears(s: State, e: Event) {
    || Answers(s, e, R.CaptureStop)
    || (Answers(s, e, R.CaptureStatus) && s.lifecycle.Degraded?)
    || e.CompleteRecovery?
  }

  ghost function Raisings(states: seq<State>, events: seq<Event>): set<nat>
    requires |states| == |events| + 1
  {
    set j: nat | j < |events| && Raises(states[j], events[j], Recording(states, events, j))
  }

  ghost function Clearings(states: seq<State>, events: seq<Event>): set<nat>
    requires |states| == |events| + 1
  {
    set j: nat | j < |events| && Clears(states[j], events[j])
  }

  /** The obligation is owed: it was raised at some point and not accounted for since. */
  ghost predicate Owed(states: seq<State>, events: seq<Event>, k: nat)
    requires |states| == |events| + 1
  {
    H.Since(Raisings(states, events), Clearings(states, events), k)
  }

  lemma ObligationStep(s: State, e: Event)
    requires Enabled(s, e)
    ensures Step(s, e).recoveryRequired <==> Raises(s, e, s.captureActive) || (s.recoveryRequired && !Clears(s, e))
  {}

  lemma LostSightExactly(states: seq<State>, events: seq<Event>, n: nat)
    requires Run(states, events) && n < |events|
    ensures n in Raisings(states, events) <==> Raises(states[n], events[n], states[n].captureActive)
    ensures n in Clearings(states, events) <==> Clears(states[n], events[n])
    ensures states[n + 1].recoveryRequired <==> n in Raisings(states, events) || (states[n].recoveryRequired && n !in Clearings(states, events))
  {
    hide Raises, Clears, Recording, Step;
    assert Next(states[n], events[n], states[n + 1]);
    ObligationStep(states[n], events[n]);
    CaptureActiveExactly(states, events, n);
  }

  /** The recovery obligation is exact over every run and any number of process restarts: it is
      required precisely when the events lost sight of a running capture and nothing has
      accounted for it since; and a degraded connection always carries its metadata and the
      obligation. */
  lemma RecoveryIsRequiredExactlyWhenOwed(states: seq<State>, events: seq<Event>, k: nat)
    requires Run(states, events) && k <= |events|
    ensures states[k].recoveryRequired <==> Owed(states, events, k)
    ensures states[k].lifecycle.Degraded? ==> states[k].degraded.Some?
    ensures states[k].degraded.Some? ==> states[k].recoveryRequired
  {
    hide Raisings, Clearings, H.Since;
    RunKeepsInv(states, events, k);
    var flags := seq(|states|, i requires 0 <= i < |states| => states[i].recoveryRequired);
    forall n: nat | n < k
      ensures flags[n + 1] <==> n in Raisings(states, events) || (flags[n] && n !in Clearings(states, events))
    {
      LostSightExactly(states, events, n);
    }
    H.FlagIsHistory(flags, Raisings(states, events), Clearings(states, events), k);
  }

  // ---- The metadata of a degraded connection ----

  /** What is noted when the obligation is raised. */
  function Notice(s: State, e: Event): Metadata {
    match e
    case Timeout(id) => Metadata(if id in s.registry.pending then RequestTimeout(s.registry.pending[id]) else ProcessExit, s.activeRecordingId)
    case Restore(metadata) => metadata
    case _ => Metadata(ProcessExit, s.activeRecordingId)
  }

  /** The note is dropped: the capture is accounted for, a retry is confirmed, or a new child
      is started. */
  predicate Withdraws(s: State, e: Event) {
    Clears(s, e) || e.RetryConfirmed? || (e.Call? && s.child.None?)
  }

  lemma NoticeStep(s: State, e: Event)
    requires Enabled(s, e)
    ensures Step(s, e).degraded ==
            if Raises(s, e, s.captureActive) then Some(Notice(s, e)) else if Withdraws(s, e) then None else s.degraded
  {}

  /** The same along a run. */
  lemma NotedNext(states: seq<State>, events: seq<Event>, n: nat)
    requires Run(states, events) && n < |events|
    ensures states[n + 1].degraded ==
            if n in Raisings(states, events) then Some(Notice(states[n], events[n]))
            else if Withdraws(states[n], events[n]) then None else states[n].degraded
  {
    hide Step, Raises, Withdraws, Recording, Notice;
    assert Next(states[n], events[n], states[n + 1]);
    NoticeStep(states[n], events[n]);
    CaptureActiveExactly(states, events, n);
  }

  /** The degraded metadata at step k is what step j noted. */
  ghost predicate NotedAt(states: seq<State>, events: seq<Event>, j: nat, k: nat)
    requires |states| == |events| + 1 && k <= |events|
  {
    && j < k && j in Raisings(states, events)
    && forall i | j < i < k :: i !in Raisings(states, events) && !Withdraws(states[i], events[i])
  }

  /** Over every run the metadata is that of the last loss not withdrawn since: its trigger, and
      the recording by the id named last before it. */
  lemma {:induction false} MetadataNamesTheRecording(states: seq<State>, events: seq<Event>, j: nat, k: nat)
    requires Run(states, events) && k <= |events| && NotedAt(states, events, j, k)
    ensures states[k].degraded == Some(Notice(states[j], events[j]))
    ensures events[j].Restore? || LastNamed(states, events, j, states[k].degraded.value.recordingId)
    decreases k
  {
    hide Step, Raisings, Withdraws, LastNamed;
    KnownByLastName(states, events, j);
    NotedNext(states, events, k - 1);
    if j < k - 1 {
      MetadataNamesTheRecording(states, events, j, k - 1);
    }
  }

  /** No metadata without such a loss. */
  lemma {:induction false} MetadataHasALoss(states: seq<State>, events: seq<Event>, k: nat)
    requires Run(states, events) && k <= |events| && states[k].degraded.Some?
    ensures exists j: nat :: NotedAt(states, events, j, k)
  {
    hide Step, Raisings, Withdraws, Notice;
    assert k > 0;
    var n := k - 1;
    NotedNext(states, events, n);
    if n in Raisings(states, events) {
      assert NotedAt(states, events, n, k);
    } else {
      MetadataHasALoss(states, events, n);
      var j: nat :| NotedAt(states, events, j, n);
      assert NotedAt(states, events, j, k);
    }
  }

  // ---- Faults and the lifecycle ----

  /** The protocol is broken: a line that is no response, an unknown id, a result that breaks its
      contract, or silence outside a capture. */
  predicate Faults(s: State, e: Event) {
    match e
    case BadLine(c) => s.child == Some(c)
    case Response(c, reply) => s.child == Some(c) && (reply.id !in s.registry.pending || (reply.ok && !reply.resultValid))
    case Timeout(id) => !Raises(s, e, s.captureActive)
    case _ => false
  }

  /** A fault stands until the next child is started, whatever else happens. */
  lemma FaultStep(s: State, e: Event)
    requires Enabled(s, e)
    ensures Step(s, e).protocolFault <==> Faults(s, e) || (s.protocolFault && !(e.Call? && s.child.None?))
  {}

  /** How a step leaves the connection: degraded by a loss it survives, failed by a fault, an
      error or a failed start, running when the child is up or the capture is accounted for. */
  lemma LifecycleStep(s: State, e: Event)
    requires Enabled(s, e)
    ensures var t := Step(s, e).lifecycle; var exits := e.Exit? && s.child == Some(e.child);
            && (Raises(s, e, s.captureActive) && !exits ==> t.Degraded?)
            && (Faults(s, e) || (e.ChildError? && s.child == Some(e.child)) ==> t.Failed?)
            && (e.Call? && s.child.None? ==> t == if e.spawnOk then Starting else Failed)
            && (e.Spawned? && s.child == Some(e.child) ==> t.Running?)
            && (Clears(s, e) && s.lifecycle.Degraded? ==> t.Running?)
            && (e.RetryConfirmed? ==> t.Running?) && (e.Shutdown? ==> t.Stopping?)
            && (exits ==> t == if s.protocolFault then Failed else if s.lifecycle.Stopping? then Stopped else Exited)
  {}

  /** Nothing else moves it. */
  lemma LifecycleStands(s: State, e: Event)
    requires Enabled(s, e) && Step(s, e).lifecycle != s.lifecycle
    ensures || Raises(s, e, s.captureActive) || Faults(s, e) || (e.Call? && s.child.None?) || (Clears(s, e) && s.lifecycle.Degraded?)
            || e.RetryConfirmed? || e.Shutdown?
            || ((e.Exit? || e.ChildError? || e.Spawned?) && s.child == Some(e.child))
  {}

  lemma FreshIsNotPending(s: State, id: nat)
    requires Inv(s) && id !in s.registry.issued
    ensures id !in s.registry.pending
  {}

  /** An exit can always be handled, and leaves nothing pending. */
  lemma ExitIsEnabled(s: State, c: nat)
    ensures Enabled(s, Exit(c))
    ensures R.SettleAll(s.registry).pending == map[]
  {}

  /** The client object. Its registry is a separate object it owns. */
  class CoreClient {
    var child: Option<nat>
    var spawned: nat
    var lifecycle: Lifecycle
    var captureActive: bool
    var activeRecordingId: Option<string>
    var degraded: Option<Metadata>
    var recoveryRequired: bool
    var protocolFault: bool
    const registry: R.RequestRegistry

    ghost function View(): State
      reads this, registry
    {
      State(child, spawned, lifecycle, captureActive, activeRecordingId, degraded, recoveryRequired, protocolFault, registry.View())
    }

    constructor ()
      ensures View() == INITIAL && Inv(View()) && fresh(registry)
    {
      child, spawned, lifecycle, captureActive := None, 0, Stopped, false;
      activeRecordingId, degraded, recoveryRequired, protocolFault := None, None, false, false;
      registry := new R.RequestRegistry();
    }

    method EnterRecovery(trigger: Trigger)
      modifies this
      ensures View() == EnterCaptureRecovery(old(View()), trigger)
    {
      lifecycle := Degraded;
      degraded := Some(Metadata(trigger, activeRecordingId));
      recoveryRequired := true;
    }

    /** rawCall: starts the core if needed, then registers and writes the request. */
    method RawCall(id: nat, m: R.Method, spawnOk: bool, writable: bool)
      requires Inv(View()) && Enabled(View(), Call(id, m, spawnOk, writable))
      modifies this, registry
      ensures View() == Step(old(View()), Call(id, m, spawnOk, writable))
      ensures Inv(View())
    {
      hide Inv, R.ExactlyOnce;
      StepKeepsInv(View(), Call(id, m, spawnOk, writable));
      FreshIsNotPending(View(), id);
      if child.None? {
        lifecycle := Starting;
        degraded := None;
        protocolFault := false;
        if !spawnOk {
          lifecycle := Failed;
          return;
        }
        child := Some(spawned);
        spawned := spawned + 1;
      }
      if writable {
        var _ := registry.Add(id, m);
      }
    }

    method Fail(c: nat)
      requires Inv(View())
      modifies this, registry
      ensures View() == Step(old(View()), BadLine(c))
      ensures Inv(View())
    {
      hide Inv, R.SettleAll;
      StepKeepsInv(View(), BadLine(c));
      if child != Some(c) {
        return;
      }
      protocolFault := true;
      lifecycle := Failed;
      registry.RejectAll();
    }

    /** The part of handleStdout that deals with one well-formed response. */
    method HandleResponse(c: nat, reply: Reply)
      modifies this, registry
      ensures View() == Step(old(View()), Response(c, reply))
    {
      if child != Some(c) {
        return;
      }
      if reply.id !in registry.pending {
        protocolFault := true;
        lifecycle := Failed;
        registry.RejectAll();
        return;
      }
      var m := registry.pending[reply.id];
      if reply.ok && !reply.resultValid {
        var _ := registry.SettleOne(reply.id, R.Rejected);
        protocolFault := true;
        lifecycle := Failed;
        return;
      }
      var _ := registry.SettleOne(reply.id, R.Answered);
      UpdateCapture(m, reply);
    }

    method UpdateCapture(m: R.Method, reply: Reply)
      modifies this
      ensures View() == UpdateCaptureState(old(View()), m, reply)
    {
      if !reply.ok {
        return;
      }
      match m {
        case CaptureStop =>
          captureActive := false;
          activeRecordingId := None;
          recoveryRequired := false;
          degraded := None;
          if lifecycle.Degraded? { lifecycle := Running; }
        case CaptureStart =>
          captureActive := true;
          activeRecordingId := reply.recordingId;
        case CaptureStatus =>
          captureActive := reply.active;
          activeRecordingId := if reply.active then reply.recordingId else None;
          if lifecycle.Degraded? {
            lifecycle := Running;
            degraded := None;
            recoveryRequired := false;
          }
        case OtherMethod =>
      }
    }

    method HandleTimeout(id: nat)
      requires Inv(View()) && id in registry.pending
      modifies this, registry
      ensures View() == Step(old(View()), Timeout(id))
      ensures Inv(View())
      ensures old(captureActive) ==> recoveryRequired
    {
      hide Inv, R.Settle, R.ExactlyOnce;
      StepKeepsInv(View(), Timeout(id));
      var m := registry.pending[id];
      var _ := registry.SettleOne(id, R.TimedOut);
      if captureActive || m.CaptureStart? {
        if m.CaptureStart? { captureActive := true; }
        EnterRecovery(RequestTimeout(m));
        return;
      }
      lifecycle := Failed;
      protocolFault := true;
    }

    method HandleExit(c: nat)
      requires Inv(View())
      modifies this, registry
      ensures View() == Step(old(View()), Exit(c))
      ensures Inv(View())
      ensures old(child) == Some(c) ==> registry.pending == map[] && (old(captureActive) ==> recoveryRequired)
    {
      hide Inv, Enabled, R.ExactlyOnce, R.SettleAll;
      ExitIsEnabled(View(), c);
      StepKeepsInv(View(), Exit(c));
      if child != Some(c) {
        return;
      }
      var wasStopping := lifecycle.Stopping?;
      if captureActive { EnterRecovery(ProcessExit); }
      child := None;
      captureActive := false;
      activeRecordingId := None;
      lifecycle := if protocolFault then Failed else if wasStopping then Stopped else Exited;
      registry.RejectAll();
    }
  }
}
