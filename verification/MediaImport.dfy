/** The media-import handler: submit, poll, cancel and confirm against a core that may answer
    late, wrongly or not at all. A job is named by the flight that submitted it. */
module MediaImport {
  import opened Common

  const CONFIRM_ATTEMPTS: nat := 200

  datatype JobState = Queued | Running | Cancelling | Paused | Completed | Cancelled | Failed | Unknown

  /** A reply of the core about a job, as the handler sees it. */
  datatype Reply =
    | CallFailed
    | NotOk
    | Report(jobId: Option<nat>, isMediaImport: bool, state: JobState, terminal: bool, complete: bool)

  /** A reply to the submit call: it never arrived, it refused, or it accepted. */
  datatype SubmitReply =
    | Lost
    | Refusal(thrown: bool)
    | Acceptance(jobId: Option<nat>, wellFormed: bool)

  datatype Confirmation = ConfirmedCancelled | ConfirmedCompleted | TerminalOther | Unconfirmed

  /** confirmMediaImportCancellation as a process. */
  datatype Cancel =
    | NotStarted
    | AwaitCancelReply
    | AwaitJobReply(reportedCompleted: bool)
    | Resolved(kind: Confirmation)

  datatype PollVerdict = Return | Throw | Continue

  predicate IsTerminal(state: JobState) { state.Completed? || state.Cancelled? || state.Failed? }

  predicate VerifiedTerminal(reply: Reply, jobId: nat) {
    && reply.Report? && reply.jobId == Some(jobId) && reply.isMediaImport
    && reply.terminal && IsTerminal(reply.state)
  }

  function KindOf(state: JobState): Confirmation {
    if state.Cancelled? then ConfirmedCancelled
    else if state.Completed? then ConfirmedCompleted
    else TerminalOther
  }

  function OnCancelReply(reply: Reply, jobId: nat): Cancel {
    if reply.Report? && reply.jobId == Some(jobId) && reply.terminal then
      if reply.state.Cancelled? then Resolved(ConfirmedCancelled)
      else if reply.state.Completed? then AwaitJobReply(true)
      else if reply.state.Failed? then Resolved(TerminalOther)
      else AwaitJobReply(false)
    else AwaitJobReply(false)
  }

  function OnJobReply(reportedCompleted: bool, reply: Reply, jobId: nat): Cancel {
    if !reply.Report? then AwaitJobReply(reportedCompleted)
    else if reply.jobId != Some(jobId) || !reply.isMediaImport then Resolved(Unconfirmed)
    else if VerifiedTerminal(reply, jobId) then Resolved(KindOf(reply.state))
    else AwaitJobReply(reportedCompleted)
  }

  function OnGiveUp(reportedCompleted: bool, delayFailed: bool): Cancel {
    Resolved(if reportedCompleted && !delayFailed then ConfirmedCompleted else Unconfirmed)
  }

  function JudgePoll(reply: Reply, jobId: nat): PollVerdict {
    if !reply.Report? || reply.jobId != Some(jobId) || !reply.isMediaImport then Throw
    else match reply.state
      case Completed => if reply.complete then Return else Throw
      case Cancelled => Return
      case Failed => Return
      case Unknown => Throw
      case _ => Continue
  }

  // ---- The two loops ----

  /** What the confirmation process makes of the replies it receives before it gives up. */
  function Confirm(jobId: nat, cancel: Cancel, replies: seq<Reply>): Cancel
    decreases |replies|
  {
    if replies == [] || !cancel.AwaitJobReply? then cancel
    else Confirm(jobId, OnJobReply(cancel.reportedCompleted, replies[0], jobId), replies[1..])
  }

  /** A reply that leaves no doubt that this import is over: it is about it, it calls it terminal, and
      it names one of the three ends. */
  predicate Proves(reply: Reply, jobId: nat) {
    && reply.Report? && reply.jobId == Some(jobId) && reply.isMediaImport && reply.terminal
    && (reply.state.Cancelled? || reply.state.Completed? || reply.state.Failed?)
  }

  /** A job reply that decides the confirmation: it is about another job, or it proves an end. */
  predicate Decides(reply: Reply, jobId: nat) {
    reply.Report? && (reply.jobId != Some(jobId) || !reply.isMediaImport || Proves(reply, jobId))
  }

  predicate ReportsEnd(reply: Reply, jobId: nat, state: JobState) {
    reply.Report? && reply.jobId == Some(jobId) && reply.terminal && reply.state == state
  }

  /** The job replies alone: the first that decides gives the verdict. */
  lemma {:induction false} FirstDecisionCounts(jobId: nat, cancel: Cancel, replies: seq<Reply>, k: nat)
    requires cancel.AwaitJobReply? && k <= |replies| && forall i | 0 <= i < k :: !Decides(replies[i], jobId)
    requires k < |replies| ==> Decides(replies[k], jobId)
    ensures k == |replies| ==> Confirm(jobId, cancel, replies) == cancel
    ensures k < |replies| ==> Confirm(jobId, cancel, replies) == Resolved(
                                if !Proves(replies[k], jobId) then Unconfirmed
                                else if replies[k].state.Cancelled? then ConfirmedCancelled
                                else if replies[k].state.Completed? then ConfirmedCompleted else TerminalOther)
    decreases |replies|
  {
    if k > 0 {
      FirstDecisionCounts(jobId, cancel, replies[1..], k - 1);
    }
  }

  /** A cancel reply that reports the job cancelled or failed is final; one that reports it
      completed is only remembered; any other leaves everything to the job replies. */
  lemma CancelReplyCounts(reply: Reply, jobId: nat)
    ensures OnCancelReply(reply, jobId) ==
            if ReportsEnd(reply, jobId, Cancelled) then Resolved(ConfirmedCancelled)
            else if ReportsEnd(reply, jobId, Failed) then Resolved(TerminalOther)
            else AwaitJobReply(ReportsEnd(reply, jobId, Completed))
  {}

  /** confirmMediaImportCancellation: one cancel call, then up to 200 jobs.get calls until the
      deadline; `answered` is how many are answered before the deadline or a failed delay. */
  method ConfirmMediaImportCancellation(jobId: nat, cancelReply: Reply, replies: seq<Reply>, answered: nat, delayFailed: bool)
    returns (kind: Confirmation)
    requires answered <= |replies| && answered <= CONFIRM_ATTEMPTS
    ensures var last := Confirm(jobId, OnCancelReply(cancelReply, jobId), replies[..answered]);
            Resolved(kind) == (if last.AwaitJobReply? then OnGiveUp(last.reportedCompleted, delayFailed) else last)
    ensures !kind.Unconfirmed? ==>
              || (cancelReply.Report? && cancelReply.jobId == Some(jobId) && cancelReply.terminal && IsTerminal(cancelReply.state))
              || exists k | 0 <= k < answered :: Proves(replies[k], jobId)
  {
    var phase := OnCancelReply(cancelReply, jobId);
    var attempt := 0;
    while attempt < answered && phase.AwaitJobReply?
      invariant 0 <= attempt <= answered
      invariant phase.AwaitJobReply? || phase.Resolved?
      invariant Confirm(jobId, OnCancelReply(cancelReply, jobId), replies[..answered]) == Confirm(jobId, phase, replies[attempt..answered])
      invariant (phase.Resolved? && !phase.kind.Unconfirmed?) || (phase.AwaitJobReply? && phase.reportedCompleted) ==>
                  || (cancelReply.Report? && cancelReply.jobId == Some(jobId) && cancelReply.terminal && IsTerminal(cancelReply.state))
                  || exists k | 0 <= k < attempt :: Proves(replies[k], jobId)
    {
      assert replies[attempt..answered][1..] == replies[attempt + 1..answered];
      phase := OnJobReply(phase.reportedCompleted, replies[attempt], jobId);
      attempt := attempt + 1;
    }
    if phase.AwaitJobReply? {
      phase := OnGiveUp(phase.reportedCompleted, delayFailed);
    }
    kind := phase.kind;
  }

  // ---- The handler against the core ----

  datatype Submission = InFlight | Refused | Job(terminal: bool)

  datatype Pc = BeforeSubmit | AwaitSubmit | Polling | Catching | Done

  /** The closure variables of one handler invocation. */
  datatype Flight = Flight(
    pc: Pc,
    aborted: bool,
    acceptedJobId: Option<nat>,
    submitStarted: bool,
    cancel: Cancel,
    reconciling: bool)

  datatype State = State(
    active: Option<nat>,
    flights: map<nat, Flight>,
    submissions: map<nat, Submission>,
    listeners: set<nat>,
    unsubscribe: Option<nat>)

  datatype Event =
    | Invoke(f: nat)
    | Abort(f: nat)
    | ReturnEarly(f: nat)
    | ThrowEarly(f: nat)
    | Submit(f: nat)
    | CoreAccepts(f: nat)
    | CoreRefuses(f: nat)
    | JobEnds(f: nat)
    | SubmitAnswered(f: nat, submitReply: SubmitReply)
    | PollAnswered(f: nat, reply: Reply)
    | PollInterrupted(f: nat)
    | CancelAnswered(f: nat, reply: Reply)
    | JobAnswered(f: nat, reply: Reply)
    | ConfirmGivesUp(f: nat, delayFailed: bool)
    | CatchContinues(f: nat, subscribes: bool)
    | TerminalEvent(f: nat)
    | ReconcileAnswered(f: nat, reply: Reply)
    | Teardown

  const INITIAL := State(None, map[], map[], {}, None)

  /** Core replies are truthful: a terminal state reported for job f means job f has ended. */
  predicate Truthful(s: State, f: nat, reply: Reply) {
    reply.Report? && reply.jobId == Some(f) && (reply.terminal || IsTerminal(reply.state)) ==>
      f in s.submissions && s.submissions[f] == Job(true)
  }

  predicate At(s: State, f: nat, pc: Pc) { f in s.flights && s.flights[f].pc == pc }

  /** `identified`: every accepting reply carries the job's well-formed id. */
  predicate Enabled(s: State, e: Event, identified: bool) {
    match e
    case Invoke(f) => f !in s.flights
    case Abort(f) => f in s.flights
    case ReturnEarly(f) => At(s, f, BeforeSubmit)
    case ThrowEarly(f) => At(s, f, BeforeSubmit)
    case Submit(f) => At(s, f, BeforeSubmit) && !s.flights[f].aborted
    case CoreAccepts(f) => f in s.submissions && s.submissions[f].InFlight?
    case CoreRefuses(f) => f in s.submissions && s.submissions[f].InFlight?
    case JobEnds(f) => f in s.submissions && s.submissions[f] == Job(false)
    case SubmitAnswered(f, reply) =>
      && At(s, f, AwaitSubmit) && f in s.submissions
      && (reply.Refusal? ==> s.submissions[f].Refused?)
      && (reply.Acceptance? ==> s.submissions[f].Job? && (reply.jobId.Some? ==> reply.jobId == Some(f)))
      && (reply.Acceptance? && identified ==> reply.jobId.Some?)
    case PollAnswered(f, reply) => At(s, f, Polling) && !s.flights[f].aborted && Truthful(s, f, reply)
    case PollInterrupted(f) => At(s, f, Polling)
    case CancelAnswered(f, reply) => f in s.flights && s.flights[f].cancel.AwaitCancelReply? && Truthful(s, f, reply)
    case JobAnswered(f, reply) => f in s.flights && s.flights[f].cancel.AwaitJobReply? && Truthful(s, f, reply)
    case ConfirmGivesUp(f, _) => f in s.flights && s.flights[f].cancel.AwaitJobReply?
    case CatchContinues(f, _) => At(s, f, Catching) && (s.flights[f].acceptedJobId.None? || s.flights[f].cancel.Resolved?)
    case TerminalEvent(f) => f in s.listeners && f in s.submissions && s.submissions[f] == Job(true)
    case ReconcileAnswered(f, reply) => f in s.flights && s.flights[f].reconciling && Truthful(s, f, reply)
    case Teardown => true
  }

  function Put(s: State, f: nat, flight: Flight): State { s.(flights := s.flights[f := flight]) }

  /** cancelAcceptedJob: starts the confirmation once, and only for an accepted job. */
  function StartCancel(flight: Flight): Flight {
    if flight.acceptedJobId.Some? && flight.cancel.NotStarted? then flight.(cancel := AwaitCancelReply) else flight
  }

  /** A throw inside the try block: the catch block first awaits cancelAcceptedJob. */
  function Thrown(flight: Flight): Flight { StartCancel(flight.(pc := Catching)) }

  /** The finally block; the lock is given back only if this flight still holds it. */
  function Finally(s: State, f: nat, flight: Flight, retain: bool): State {
    var done := Put(s, f, flight.(pc := Done));
    if !retain && s.active == Some(f) then done.(active := None) else done
  }

  /** releaseRetainedJob: drops whatever listener is current, then the lock if it is still f's. */
  function Release(s: State, f: nat): State {
    var quiet := s.(listeners := if s.unsubscribe.Some? then s.listeners - {s.unsubscribe.value} else s.listeners,
                    unsubscribe := None);
    if s.active == Some(f) then quiet.(active := None) else quiet
  }

  function OnAbort(s: State, f: nat): State
    requires f in s.flights
  {
    var flight := s.flights[f].(aborted := true);
    Put(s, f, if flight.pc.Done? then flight else StartCancel(flight))
  }

  function OnSubmitAnswered(s: State, f: nat, reply: SubmitReply): State
    requires f in s.flights
  {
    var flight := s.flights[f];
    match reply
    case Lost => Put(s, f, Thrown(flight))
    case Refusal(thrown) =>
      if thrown then Put(s, f, Thrown(flight.(submitStarted := false)))
      else Finally(s, f, flight.(submitStarted := false), false)
    case Acceptance(jobId, wellFormed) =>
      var accepted := flight.(submitStarted := false, acceptedJobId := jobId);
      if jobId.None? || !wellFormed || flight.aborted then Put(s, f, Thrown(accepted))
      else Put(s, f, accepted.(pc := Polling))
  }

  /** The rest of the catch block, once the cancellation is settled. */
  function OnCatch(s: State, f: nat, subscribes: bool): State
    requires f in s.flights
    requires s.flights[f].acceptedJobId.None? || s.flights[f].cancel.Resolved?
  {
    var flight := s.flights[f];
    if flight.acceptedJobId.Some? && flight.cancel.kind.Unconfirmed? then
      var retained := Finally(s, f, flight.(reconciling := true), true);
      if subscribes then retained.(listeners := s.listeners + {f}, unsubscribe := Some(f)) else retained
    else Finally(s, f, flight, flight.acceptedJobId.None? && flight.submitStarted)
  }

  function Step(s: State, e: Event, identified: bool): State
    requires Enabled(s, e, identified)
  {
    match e
    case Invoke(f) =>
      if s.active.Some? then s
      else Put(s, f, Flight(BeforeSubmit, false, None, false, NotStarted, false)).(active := Some(f))
    case Abort(f) => OnAbort(s, f)
    case ReturnEarly(f) => Finally(s, f, s.flights[f], false)
    case ThrowEarly(f) => Put(s, f, Thrown(s.flights[f]))
    case Submit(f) =>
      Put(s, f, s.flights[f].(pc := AwaitSubmit, submitStarted := true)).(submissions := s.submissions[f := InFlight])
    case CoreAccepts(f) => s.(submissions := s.submissions[f := Job(false)])
    case CoreRefuses(f) => s.(submissions := s.submissions[f := Refused])
    case JobEnds(f) => s.(submissions := s.submissions[f := Job(true)])
    case SubmitAnswered(f, reply) => OnSubmitAnswered(s, f, reply)
    case PollAnswered(f, reply) =>
      (match JudgePoll(reply, f)
       case Return => Finally(s, f, s.flights[f], false)
       case Throw => Put(s, f, Thrown(s.flights[f]))
       case Continue => s)
    case PollInterrupted(f) => Put(s, f, Thrown(s.flights[f]))
    case CancelAnswered(f, reply) => Put(s, f, s.flights[f].(cancel := OnCancelReply(reply, f)))
    case JobAnswered(f, reply) =>
      Put(s, f, s.flights[f].(cancel := OnJobReply(s.flights[f].cancel.reportedCompleted, reply, f)))
    case ConfirmGivesUp(f, delayFailed) =>
      Put(s, f, s.flights[f].(cancel := OnGiveUp(s.flights[f].cancel.reportedCompleted, delayFailed)))
    case CatchContinues(f, subscribes) => OnCatch(s, f, subscribes)
    case TerminalEvent(f) => Release(s, f)
    case ReconcileAnswered(f, reply) =>
      var settled := Put(s, f, s.flights[f].(reconciling := false));
      if VerifiedTerminal(reply, f) then Release(settled, f) else settled
    case Teardown =>
      var aborted := if s.active.Some? && s.active.value in s.flights then OnAbort(s, s.active.value) else s;
      aborted.(listeners := if s.unsubscribe.Some? then s.listeners - {s.unsubscribe.value} else s.listeners,
               unsubscribe := None)
  }

  // ---- Single flight ----

  /** The core holds, or may still come to hold, an unfinished job of flight f. */
  predicate Hot(s: State, f: nat) {
    f in s.submissions && (s.submissions[f].InFlight? || s.submissions[f] == Job(false))
  }

  predicate Ended(s: State, f: nat) { f in s.submissions && s.submissions[f] == Job(true) }

  /** The confirmation process holds evidence that the job ended. */
  predicate Settled(cancel: Cancel) {
    || (cancel.Resolved? && !cancel.kind.Unconfirmed?)
    || (cancel.AwaitJobReply? && cancel.reportedCompleted)
  }

  ghost predicate FlightInv(s: State, f: nat)
    requires f in s.flights
  {
    var flight := s.flights[f];
    && (!flight.pc.Done? ==> s.active == Some(f))
    && (flight.pc.BeforeSubmit? ==> f !in s.submissions && flight.acceptedJobId.None? && !flight.submitStarted)
    && (flight.pc.AwaitSubmit? ==> f in s.submissions && flight.acceptedJobId.None? && flight.submitStarted)
    && (flight.pc.Polling? ==> flight.acceptedJobId.Some?)
    && (flight.acceptedJobId.Some? ==> flight.acceptedJobId == Some(f) && f in s.submissions && s.submissions[f].Job?)
    && (flight.pc.Catching? && flight.acceptedJobId.None? && !flight.submitStarted ==> !Hot(s, f))
    && (flight.pc.Catching? && flight.acceptedJobId.Some? ==> !flight.cancel.NotStarted?)
    && (flight.acceptedJobId.None? ==> flight.cancel.NotStarted?)
    && (Settled(flight.cancel) ==> Ended(s, f))
    && (flight.reconciling || f in s.listeners ==> flight.pc.Done? && flight.acceptedJobId.Some?)
  }

  ghost predicate Inv(s: State) {
    && (forall f | f in s.flights :: FlightInv(s, f))
    && (forall f | f in s.submissions :: f in s.flights && (Hot(s, f) ==> s.active == Some(f)))
    && (s.active.Some? ==> s.active.value in s.flights)
    && s.listeners <= s.flights.Keys
  }

  /** Frame: a step that touches one flight, its submission and perhaps gives back its lock. */
  lemma OneFlightKeepsInv(s: State, s': State, f: nat)
    requires Inv(s) && f in s.flights && f in s'.flights
    requires s'.flights == s.flights[f := s'.flights[f]]
    requires s'.submissions == s.submissions || (f in s'.submissions && s'.submissions == s.submissions[f := s'.submissions[f]])
    requires s'.active == s.active || (s.active == Some(f) && s'.active.None?)
    requires FlightInv(s', f) && (Hot(s', f) ==> s'.active == Some(f))
    requires s'.listeners <= s.listeners + {f}
    ensures Inv(s')
  {
    forall g | g in s'.flights
      ensures FlightInv(s', g)
    {
      if g != f { assert FlightInv(s, g); }
    }
  }

  lemma AbortKeepsInv(s: State, f: nat)
    requires Inv(s) && f in s.flights
    ensures Inv(OnAbort(s, f))
  {
    assert FlightInv(s, f);
    OneFlightKeepsInv(s, OnAbort(s, f), f);
  }

  lemma SubmitAnsweredKeepsInv(s: State, f: nat, reply: SubmitReply)
    requires Inv(s) && Enabled(s, SubmitAnswered(f, reply), true)
    ensures Inv(OnSubmitAnswered(s, f, reply))
  {
    assert FlightInv(s, f);
    OneFlightKeepsInv(s, OnSubmitAnswered(s, f, reply), f);
  }

  lemma CatchKeepsInv(s: State, f: nat, subscribes: bool)
    requires Inv(s) && Enabled(s, CatchContinues(f, subscribes), true)
    ensures Inv(OnCatch(s, f, subscribes))
  {
    assert FlightInv(s, f);
    OneFlightKeepsInv(s, OnCatch(s, f, subscribes), f);
  }

  lemma ConfirmationKeepsInv(s: State, e: Event)
    requires Inv(s) && Enabled(s, e, true)
    requires e.CancelAnswered? || e.JobAnswered? || e.ConfirmGivesUp?
    ensures Inv(Step(s, e, true))
  {
    assert FlightInv(s, e.f);
    OneFlightKeepsInv(s, Step(s, e, true), e.f);
  }

  lemma PollKeepsInv(s: State, e: Event)
    requires Inv(s) && Enabled(s, e, true)
    requires e.PollAnswered? || e.PollInterrupted? || e.ReturnEarly? || e.ThrowEarly? || e.Submit?
    ensures Inv(Step(s, e, true))
  {
    assert FlightInv(s, e.f);
    OneFlightKeepsInv(s, Step(s, e, true), e.f);
  }

  lemma CoreKeepsInv(s: State, e: Event)
    requires Inv(s) && Enabled(s, e, true)
    requires e.CoreAccepts? || e.CoreRefuses? || e.JobEnds?
    ensures Inv(Step(s, e, true))
  {
    assert FlightInv(s, e.f);
    OneFlightKeepsInv(s, Step(s, e, true), e.f);
  }

  lemma ReleaseKeepsInv(s: State, f: nat)
    requires Inv(s) && f in s.flights && Ended(s, f) && s.flights[f].pc.Done?
    ensures Inv(Release(s, f))
  {
    assert FlightInv(s, f);
    OneFlightKeepsInv(s, Release(s, f), f);
  }

  lemma ReconcileKeepsInv(s: State, f: nat, reply: Reply)
    requires Inv(s) && Enabled(s, ReconcileAnswered(f, reply), true)
    ensures Inv(Step(s, ReconcileAnswered(f, reply), true))
  {
    assert FlightInv(s, f);
    var settled := Put(s, f, s.flights[f].(reconciling := false));
    OneFlightKeepsInv(s, settled, f);
    if VerifiedTerminal(reply, f) { ReleaseKeepsInv(settled, f); }
  }

  lemma StepKeepsInv(s: State, e: Event)
    requires Inv(s) && Enabled(s, e, true)
    ensures Inv(Step(s, e, true))
  {
    match e
    case Invoke(f) => InvokeKeepsInv(s, f);
    case Abort(f) => AbortKeepsInv(s, f);
    case SubmitAnswered(f, reply) => SubmitAnsweredKeepsInv(s, f, reply);
    case CatchContinues(f, subscribes) => CatchKeepsInv(s, f, subscribes);
    case CancelAnswered(_, _) => ConfirmationKeepsInv(s, e);
    case JobAnswered(_, _) => ConfirmationKeepsInv(s, e);
    case ConfirmGivesUp(_, _) => ConfirmationKeepsInv(s, e);
    case CoreAccepts(_) => CoreKeepsInv(s, e);
    case CoreRefuses(_) => CoreKeepsInv(s, e);
    case JobEnds(_) => CoreKeepsInv(s, e);
    case TerminalEvent(f) => ReleaseKeepsInv(s, f);
    case ReconcileAnswered(f, reply) => ReconcileKeepsInv(s, f, reply);
    case Teardown => TeardownKeepsInv(s);
    case _ => PollKeepsInv(s, e);
  }

  lemma InvokeKeepsInv(s: State, f: nat)
    requires Inv(s) && f !in s.flights
    ensures Inv(Step(s, Invoke(f), true))
  {
    var s' := Step(s, Invoke(f), true);
    forall g | g in s'.flights
      ensures FlightInv(s', g)
    {
      if g in s.flights { assert FlightInv(s, g); }
    }
  }

  lemma TeardownKeepsInv(s: State)
    requires Inv(s)
    ensures Inv(Step(s, Teardown, true))
  {
    var aborted := if s.active.Some? then OnAbort(s, s.active.value) else s;
    if s.active.Some? { AbortKeepsInv(s, s.active.value); }
    var s' := Step(s, Teardown, true);
    forall g | g in s'.flights
      ensures FlightInv(s', g)
    {
      assert FlightInv(aborted, g);
    }
  }

  ghost predicate Next(s: State, e: Event, s': State, identified: bool) {
    Enabled(s, e, identified) && s' == Step(s, e, identified)
  }

  ghost predicate Run(states: seq<State>, events: seq<Event>, identified: bool) {
    && |states| == |events| + 1
    && states[0] == INITIAL
    && forall k | 0 <= k < |events| :: Next(states[k], events[k], states[k + 1], identified)
  }

  lemma {:induction false} RunKeepsInv(states: seq<State>, events: seq<Event>, k: nat)
    requires Run(states, events, true) && k <= |events|
    ensures Inv(states[k])
  {
    if k > 0 {
      RunKeepsInv(states, events, k - 1);
      assert Next(states[k - 1], events[k - 1], states[k], true);
      StepKeepsInv(states[k - 1], events[k - 1]);
    }
  }

  /** Single flight: under every interleaving of calls, aborts, timeouts, failed or late
      cancels and lost submits, at most one submission of the handler is undecided or
      unfinished in the core, and the handler still holds its lock for it. */
  lemma AtMostOneUnfinishedJob(states: seq<State>, events: seq<Event>, k: nat, f: nat, g: nat)
    requires Run(states, events, true) && k <= |events|
    requires Hot(states[k], f) && Hot(states[k], g)
    ensures f == g && states[k].active == Some(f)
  {
    RunKeepsInv(states, events, k);
  }

  /** The accepted reply's id is what this rests on: without it the handler gives its lock
      back while the job is still running. */
  lemma MissingJobIdReleasesLock(s: State, f: nat, wellFormed: bool, subscribes: bool)
    requires Inv(s) && At(s, f, AwaitSubmit) && s.submissions[f] == Job(false)
    ensures Enabled(s, SubmitAnswered(f, Acceptance(None, wellFormed)), false)
    ensures var thrown := Step(s, SubmitAnswered(f, Acceptance(None, wellFormed)), false);
            && Enabled(thrown, CatchContinues(f, subscribes), false)
            && Step(thrown, CatchContinues(f, subscribes), false).active == None
            && Hot(Step(thrown, CatchContinues(f, subscribes), false), f)
  {
    assert FlightInv(s, f);
  }

  lemma LostSubmitStep(s: State, f: nat, e: Event)
    requires Inv(s) && At(s, f, Done) && s.active == Some(f) && s.flights[f].acceptedJobId.None?
    requires Enabled(s, e, true)
    ensures Step(s, e, true).active == Some(f)
    ensures At(Step(s, e, true), f, Done) && Step(s, e, true).flights[f].acceptedJobId.None?
  {
    assert FlightInv(s, f);
    if !e.Teardown? && e.f in s.flights { assert FlightInv(s, e.f); }
  }

  /** A lost submit keeps the lock for good: no later event of any kind gives it back, so
      every later import is turned away. */
  lemma {:induction false} LostSubmitKeepsLock(states: seq<State>, events: seq<Event>, j: nat, k: nat, f: nat)
    requires Run(states, events, true) && j <= k <= |events|
    requires At(states[j], f, Done) && states[j].active == Some(f) && states[j].flights[f].acceptedJobId.None?
    ensures states[k].active == Some(f)
    ensures At(states[k], f, Done) && states[k].flights[f].acceptedJobId.None?
    decreases k
  {
    if j < k {
      LostSubmitKeepsLock(states, events, j, k - 1, f);
      RunKeepsInv(states, events, k - 1);
      assert Next(states[k - 1], events[k - 1], states[k], true);
      LostSubmitStep(states[k - 1], f, events[k - 1]);
    }
  }

  ghost predicate Reachable(s: State, identified: bool) {
    exists states, events :: Run(states, events, identified) && states[|events|] == s
  }

  lemma ReachNext(s: State, e: Event, identified: bool) returns (s': State)
    requires Reachable(s, identified) && Enabled(s, e, identified)
    ensures s' == Step(s, e, identified) && Reachable(s', identified)
  {
    s' := Step(s, e, identified);
    var states, events :| Run(states, events, identified) && states[|events|] == s;
    var more, all := states + [s'], events + [e];
    forall k | 0 <= k < |all|
      ensures Next(more[k], all[k], more[k + 1], identified)
    {
      if k < |events| { assert Next(states[k], events[k], states[k + 1], identified); }
    }
    assert Run(more, all, identified) && more[|all|] == s';
  }

  /** One flight and its submission replaced; everything else as in `s`. */
  function Replaced(s: State, f: nat, flight: Flight, submission: Submission): State {
    State(Some(f), s.flights[f := flight], s.submissions[f := submission], s.listeners, s.unsubscribe)
  }

  lemma ReachPolling(s: State, f: nat) returns (s': State)
    requires Reachable(s, true) && s.active.None? && f !in s.flights && f !in s.submissions
    ensures Reachable(s', true)
    ensures s' == Replaced(s, f, Flight(Polling, false, Some(f), false, NotStarted, false), Job(false))
  {
    s' := ReachNext(s, Invoke(f), true);
    s' := ReachNext(s', Submit(f), true);
    assert s' == Replaced(s, f, Flight(AwaitSubmit, false, None, true, NotStarted, false), InFlight);
    s' := ReachNext(s', CoreAccepts(f), true);
    assert s' == Replaced(s, f, Flight(AwaitSubmit, false, None, true, NotStarted, false), Job(false));
    s' := ReachNext(s', SubmitAnswered(f, Acceptance(Some(f), true)), true);
  }

  lemma ReachUnconfirmed(s: State, f: nat) returns (s': State)
    requires Reachable(s, true) && s.active.None? && f !in s.flights && f !in s.submissions
    ensures Reachable(s', true)
    ensures s' == Replaced(s, f, Flight(Catching, false, Some(f), false, Resolved(Unconfirmed), false), Job(false))
  {
    s' := ReachPolling(s, f);
    s' := ReachNext(s', PollInterrupted(f), true);
    assert s' == Replaced(s, f, Flight(Catching, false, Some(f), false, AwaitCancelReply, false), Job(false));
    s' := ReachNext(s', CancelAnswered(f, CallFailed), true);
    assert s' == Replaced(s, f, Flight(Catching, false, Some(f), false, AwaitJobReply(false), false), Job(false));
    s' := ReachNext(s', ConfirmGivesUp(f, false), true);
  }

  const WATCHED: Flight := Flight(Done, false, Some(0), false, Resolved(Unconfirmed), true)

  /** A flight whose job is accepted but whose cancellation stays unconfirmed. */
  lemma ReachRetained(s: State, f: nat) returns (s': State)
    requires Reachable(s, true) && s.active.None? && f !in s.flights && f !in s.submissions
    ensures Reachable(s', true)
    ensures s' == Replaced(s, f, WATCHED.(acceptedJobId := Some(f)), Job(false))
                    .(listeners := s.listeners + {f}, unsubscribe := Some(f))
  {
    s' := ReachUnconfirmed(s, f);
    s' := ReachNext(s', CatchContinues(f, true), true);
  }

  /** Flight 0 was retained, ended and released; its reconciliation reply is still on the way. */
  lemma ReachReleased() returns (s: State)
    ensures Reachable(s, true)
    ensures s == State(None, map[0 := WATCHED], map[0 := Job(true)], {}, None)
  {
    assert Run([INITIAL], [], true) && [INITIAL][0] == INITIAL;
    s := ReachRetained(INITIAL, 0);
    s := ReachNext(s, JobEnds(0), true);
    s := ReachNext(s, TerminalEvent(0), true);
  }

  /** A reconciliation reply that arrives after its flight was already released takes down
      the listener of the flight retained since: in a reachable state flight 1 is locked for a
      running job with nothing left to hear of its end. Single flight holds, release does not. */
  lemma LateReconcileSilencesNewerFlight() returns (s: State)
    ensures Reachable(s, true) && s.active == Some(1) && Hot(s, 1)
    ensures At(s, 1, Done) && s.listeners == {} && !s.flights[1].reconciling
  {
    s := ReachReleased();
    s := ReachRetained(s, 1);
    assert s == State(Some(1), map[0 := WATCHED, 1 := WATCHED.(acceptedJobId := Some(1))],
                      map[0 := Job(true), 1 := Job(false)], {1}, Some(1));
    s := ReachNext(s, ReconcileAnswered(0, Report(Some(0), true, Completed, true, true)), true);
    s := ReachNext(s, ReconcileAnswered(1, CallFailed), true);
  }

  /** From nothing to the core having accepted flight f, its answer still on the way. */
  lemma ReachAccepted(s: State, f: nat) returns (s': State)
    requires Reachable(s, false) && s.active.None? && f !in s.flights && f !in s.submissions
    ensures Reachable(s', false)
    ensures s' == Replaced(s, f, Flight(AwaitSubmit, false, None, true, NotStarted, false), Job(false))
  {
    s' := ReachNext(s, Invoke(f), false);
    s' := ReachNext(s', Submit(f), false);
    s' := ReachNext(s', CoreAccepts(f), false);
  }

  /** It is a real input: one accepting reply without an id, and the handler goes on to a second
      import while the first job runs, so that two are unfinished at once. */
  lemma MissingJobIdBreaksSingleFlight() returns (s: State)
    ensures Reachable(s, false) && Hot(s, 0) && Hot(s, 1) && s.active == Some(1)
  {
    assert Run([INITIAL], [], false) && [INITIAL][0] == INITIAL;
    s := ReachAccepted(INITIAL, 0);
    s := ReachNext(s, SubmitAnswered(0, Acceptance(None, true)), false);
    s := ReachNext(s, CatchContinues(0, true), false);
    assert s.active.None? && Hot(s, 0) && s.flights.Keys == {0} && s.submissions.Keys == {0};
    s := ReachAccepted(s, 1);
  }

  // ---- When a retained flight loses its listener ----

  /** The module variable for unsubscribing refers to a listener that is installed. */
  predicate Linked(s: State) { s.unsubscribe.Some? ==> s.unsubscribe.value in s.listeners }

  /** A step that takes down the listener of flight f without releasing f: the teardown, or the
      release of another flight. */
  predicate Silences(s: State, e: Event, f: nat) {
    && s.unsubscribe == Some(f)
    && match e
       case Teardown => true
       case TerminalEvent(g) => g != f
       case ReconcileAnswered(g, reply) => g != f && Proves(reply, g)
       case _ => false
  }

  lemma StepKeepsLinked(s: State, e: Event)
    requires Linked(s) && Enabled(s, e, true)
    ensures Linked(Step(s, e, true))
  {}

  lemma ListenerLostExactly(s: State, e: Event, f: nat)
    requires Inv(s) && Linked(s) && Enabled(s, e, true)
    requires f in s.listeners && s.active == Some(f)
    ensures f !in Step(s, e, true).listeners && Step(s, e, true).active == Some(f) <==> Silences(s, e, f)
  {
    assert FlightInv(s, f);
  }

  /** A flight that is done stays done, never takes the lock again and never subscribes again. */
  lemma DoneStep(s: State, e: Event, f: nat)
    requires Inv(s) && Enabled(s, e, true) && At(s, f, Done)
    ensures At(Step(s, e, true), f, Done)
    ensures Step(s, e, true).active == Some(f) ==> s.active == Some(f)
    ensures f in Step(s, e, true).listeners ==> f in s.listeners
  {
    hide Inv, FlightInv, Enabled, Step;
    if e.Teardown? {
      DoneAtTeardown(s, f);
    } else if e.f == f {
      DoneOwnStep(s, e);
    } else {
      DoneOtherStep(s, e, f);
    }
  }

  lemma DoneAtTeardown(s: State, f: nat)
    requires At(s, f, Done)
    ensures At(Step(s, Teardown, true), f, Done) && Step(s, Teardown, true).active == s.active
    ensures Step(s, Teardown, true).listeners <= s.listeners
  {}

  lemma DoneOwnStep(s: State, e: Event)
    requires Enabled(s, e, true) && !e.Teardown? && At(s, e.f, Done)
    ensures At(Step(s, e, true), e.f, Done) && Step(s, e, true).listeners <= s.listeners
    ensures Step(s, e, true).active == Some(e.f) ==> s.active == Some(e.f)
  {}

  lemma DoneOtherStep(s: State, e: Event, f: nat)
    requires Enabled(s, e, true) && !e.Teardown? && e.f != f && At(s, f, Done)
    ensures At(Step(s, e, true), f, Done)
    ensures Step(s, e, true).active == Some(f) ==> s.active == Some(f)
    ensures f in Step(s, e, true).listeners ==> f in s.listeners
  {}

  lemma {:induction false} RunKeepsLinked(states: seq<State>, events: seq<Event>, k: nat)
    requires Run(states, events, true) && k <= |events|
    ensures Linked(states[k])
  {
    if k > 0 {
      RunKeepsLinked(states, events, k - 1);
      assert Next(states[k - 1], events[k - 1], states[k], true);
      StepKeepsLinked(states[k - 1], events[k - 1]);
    }
  }

  /** From the moment a flight is retained with its listener, and for as long as it holds the
      lock, it still listens for its job's end if and only if no such step has occurred. */
  lemma {:induction false} RetainedListensUnlessSilenced(states: seq<State>, events: seq<Event>, j: nat, k: nat, f: nat)
    requires Run(states, events, true) && j <= k <= |events|
    requires f in states[j].listeners && states[k].active == Some(f)
    ensures states[j].active == Some(f) && At(states[k], f, Done)
    ensures f in states[k].listeners <==> forall i | j <= i < k :: !Silences(states[i], events[i], f)
    decreases k
  {
    RunKeepsInv(states, events, j);
    assert FlightInv(states[j], f);
    if j < k {
      var n := k - 1;
      RunKeepsInv(states, events, n);
      RunKeepsLinked(states, events, n);
      StaysDone(states, events, j, n, f);
      assert Next(states[n], events[n], states[k], true);
      DoneStep(states[n], events[n], f);
      RetainedListensUnlessSilenced(states, events, j, n, f);
      if f in states[n].listeners { ListenerLostExactly(states[n], events[n], f); }
    }
  }

  lemma {:induction false} StaysDone(states: seq<State>, events: seq<Event>, j: nat, k: nat, f: nat)
    requires Run(states, events, true) && j <= k <= |events| && At(states[j], f, Done)
    ensures At(states[k], f, Done)
    decreases k
  {
    if j < k {
      StaysDone(states, events, j, k - 1, f);
      RunKeepsInv(states, events, k - 1);
      assert Next(states[k - 1], events[k - 1], states[k], true);
      DoneStep(states[k - 1], events[k - 1], f);
    }
  }

  // ---- When the handler goes on, ends or cancels ----

  /** A reply that the flight's own import is under way. */
  predicate UnderWay(reply: Reply, f: nat) {
    && reply.Report? && reply.jobId == Some(f) && reply.isMediaImport
    && (reply.state.Queued? || reply.state.Running? || reply.state.Cancelling? || reply.state.Paused?)
  }

  /** A reply that it is over, with a usable result if it completed. */
  predicate Concluded(reply: Reply, f: nat) {
    && reply.Report? && reply.jobId == Some(f) && reply.isMediaImport
    && (reply.state.Cancelled? || reply.state.Failed? || (reply.state.Completed? && reply.complete))
  }

  /** Polling goes on exactly while the job is under way, the handler returns and frees its lock
      exactly when the job is over, and nothing else is decided by a poll. */
  lemma PollExactly(s: State, f: nat, reply: Reply, identified: bool)
    requires Enabled(s, PollAnswered(f, reply), identified)
    ensures var t := Step(s, PollAnswered(f, reply), identified);
            && f in t.flights
            && (t.flights[f].pc.Polling? <==> UnderWay(reply, f))
            && (UnderWay(reply, f) ==> t == s)
            && (t.flights[f].pc.Done? <==> Concluded(reply, f))
            && (Concluded(reply, f) ==> t.flights[f].cancel == s.flights[f].cancel && t.active != Some(f))
            && (t.flights[f].pc.Catching? <==> !UnderWay(reply, f) && !Concluded(reply, f))
  {}

  /** A step that starts the cancellation of flight f's accepted job: an abort before the handler
      is done, an interrupted poll, an acceptance that is malformed or comes after an abort, or a
      poll reply that is neither under way nor over. */
  predicate StartsCancel(s: State, e: Event, f: nat) {
    && f in s.flights && s.flights[f].cancel.NotStarted?
    && match e
       case Abort(g) => g == f && s.flights[f].acceptedJobId.Some? && !s.flights[f].pc.Done?
       case Teardown => s.active == Some(f) && s.flights[f].acceptedJobId.Some? && !s.flights[f].pc.Done?
       case SubmitAnswered(g, reply) =>
         g == f && reply.Acceptance? && reply.jobId.Some? && (!reply.wellFormed || s.flights[f].aborted)
       case PollInterrupted(g) => g == f
       case PollAnswered(g, reply) => g == f && !UnderWay(reply, f) && !Concluded(reply, f)
       case _ => false
  }

  predicate Untouched(s: State, f: nat) { f in s.flights && s.flights[f].cancel.NotStarted? }

  /** A flight exists from the call that found the handler free. */
  lemma FlightBegins(s: State, e: Event, f: nat, identified: bool)
    requires Enabled(s, e, identified)
    ensures f in Step(s, e, identified).flights <==> f in s.flights || (e == Invoke(f) && s.active.None?)
    ensures f !in s.flights && f in Step(s, e, identified).flights ==>
              Step(s, e, identified).flights[f] == Flight(BeforeSubmit, false, None, false, NotStarted, false)
  {}

  /** The flight a step acts on. */
  function Acted(s: State, e: Event): Option<nat> { if e.Teardown? then s.active else Some(e.f) }

  lemma OtherFlight(s: State, e: Event, f: nat, identified: bool)
    requires Enabled(s, e, identified) && f in s.flights && Acted(s, e) != Some(f)
    ensures f in Step(s, e, identified).flights && Step(s, e, identified).flights[f] == s.flights[f]
  {}

  /** What the pc says about the accepted job and the cancellation, with or without its id. */
  predicate Phased(flight: Flight) {
    && (flight.pc.BeforeSubmit? || flight.pc.AwaitSubmit? ==> flight.acceptedJobId.None?)
    && (flight.pc.Polling? ==> flight.acceptedJobId.Some?)
    && (flight.pc.Polling? && !flight.aborted ==> flight.cancel.NotStarted?)
    && (flight.acceptedJobId.None? ==> flight.cancel.NotStarted?)
    && (flight.pc.Catching? && flight.acceptedJobId.Some? ==> !flight.cancel.NotStarted?)
  }

  lemma SubmitAnsweredKeepsPhased(s: State, f: nat, reply: SubmitReply, identified: bool)
    requires Enabled(s, SubmitAnswered(f, reply), identified) && Phased(s.flights[f])
    ensures var t := Step(s, SubmitAnswered(f, reply), identified); f in t.flights && Phased(t.flights[f])
  {}

  lemma AbortKeepsPhased(s: State, e: Event, f: nat, identified: bool)
    requires Enabled(s, e, identified) && (e.Abort? || e.Teardown?) && Acted(s, e) == Some(f)
    requires f in s.flights && Phased(s.flights[f])
    ensures f in Step(s, e, identified).flights && Phased(Step(s, e, identified).flights[f])
  {}

  lemma ConfirmationKeepsPhased(s: State, e: Event, identified: bool)
    requires Enabled(s, e, identified) && (e.CancelAnswered? || e.JobAnswered? || e.ConfirmGivesUp?) && Phased(s.flights[e.f])
    ensures e.f in Step(s, e, identified).flights && Phased(Step(s, e, identified).flights[e.f])
  {}

  lemma OwnStepKeepsPhased(s: State, e: Event, f: nat, identified: bool)
    requires Enabled(s, e, identified) && f in s.flights && Acted(s, e) == Some(f) && Phased(s.flights[f])
    ensures f in Step(s, e, identified).flights && Phased(Step(s, e, identified).flights[f])
  {
    hide OnAbort, OnSubmitAnswered, OnCancelReply, OnJobReply, OnGiveUp;
    match e
    case Abort(_) => AbortKeepsPhased(s, e, f, identified);
    case Teardown => AbortKeepsPhased(s, e, f, identified);
    case SubmitAnswered(_, reply) => SubmitAnsweredKeepsPhased(s, f, reply, identified);
    case CancelAnswered(_, _) => ConfirmationKeepsPhased(s, e, identified);
    case JobAnswered(_, _) => ConfirmationKeepsPhased(s, e, identified);
    case ConfirmGivesUp(_, _) => ConfirmationKeepsPhased(s, e, identified);
    case _ =>
  }

  lemma OwnCancelStep(s: State, e: Event, f: nat, identified: bool)
    requires Enabled(s, e, identified) && f in s.flights && Acted(s, e) == Some(f) && Phased(s.flights[f])
    ensures f in Step(s, e, identified).flights
    ensures Untouched(Step(s, e, identified), f) <==> Untouched(s, f) && !StartsCancel(s, e, f)
  {}

  lemma CancelStep(s: State, e: Event, f: nat, identified: bool)
    requires Enabled(s, e, identified) && f in s.flights && Phased(s.flights[f])
    ensures f in Step(s, e, identified).flights
    ensures Untouched(Step(s, e, identified), f) <==> Untouched(s, f) && !StartsCancel(s, e, f)
  {
    hide Step, Phased;
    if Acted(s, e) == Some(f) { OwnCancelStep(s, e, f, identified); } else { OtherFlight(s, e, f, identified); }
  }

  lemma {:induction false} RunKeepsPhased(states: seq<State>, events: seq<Event>, k: nat, f: nat, identified: bool)
    requires Run(states, events, identified) && k <= |events| && f in states[k].flights
    ensures Phased(states[k].flights[f])
  {
    if k > 0 {
      var s, e := states[k - 1], events[k - 1];
      assert Next(s, e, states[k], identified);
      if f !in s.flights {
        FlightBegins(s, e, f, identified);
      } else {
        hide Step, Phased;
        RunKeepsPhased(states, events, k - 1, f, identified);
        if Acted(s, e) == Some(f) { OwnStepKeepsPhased(s, e, f, identified); } else { OtherFlight(s, e, f, identified); }
      }
    }
  }

  /** Over every run, whatever the replies carry, the core is asked to cancel a flight's job
      exactly if one of these steps occurred: a job whose polls say it is under way, and that
      nobody aborts or interrupts, is never cancelled. */
  lemma {:induction false} CancelledExactly(states: seq<State>, events: seq<Event>, k: nat, f: nat, identified: bool)
    requires Run(states, events, identified) && k <= |events| && f in states[k].flights
    ensures states[k].flights[f].cancel.NotStarted? <==> forall j | 0 <= j < k :: !StartsCancel(states[j], events[j], f)
  {
    if k > 0 {
      var n := k - 1;
      assert Next(states[n], events[n], states[k], identified);
      if f in states[n].flights {
        RunKeepsPhased(states, events, n, f, identified);
        CancelledExactly(states, events, n, f, identified);
        CancelStep(states[n], events[n], f, identified);
      } else {
        FlightBegins(states[n], events[n], f, identified);
        NotYetBegun(states, events, n, f, identified);
      }
    }
  }

  lemma {:induction false} NotYetBegun(states: seq<State>, events: seq<Event>, k: nat, f: nat, identified: bool)
    requires Run(states, events, identified) && k <= |events| && f !in states[k].flights
    ensures forall j | 0 <= j <= k :: f !in states[j].flights
  {
    if k > 0 {
      assert Next(states[k - 1], events[k - 1], states[k], identified);
      FlightBegins(states[k - 1], events[k - 1], f, identified);
      NotYetBegun(states, events, k - 1, f, identified);
    }
  }

  /** Where a step leaves a flight: how it starts, submits, polls, falls into the catch block and
      ends. */
  lemma OwnPcStep(s: State, e: Event, f: nat, identified: bool)
    requires Enabled(s, e, identified) && f in s.flights && Acted(s, e) == Some(f)
    ensures f in Step(s, e, identified).flights && PcAfter(s.flights[f], e, f, Step(s, e, identified).flights[f].pc)
  {
    hide OnCancelReply, OnJobReply, OnGiveUp, VerifiedTerminal, OnSubmitAnswered, OnAbort;
    if e.SubmitAnswered? { AnswerPcStep(s, f, e.submitReply, identified); }
    if e.Abort? || e.Teardown? { AbortPcStep(s, f); }
  }

  lemma AnswerPcStep(s: State, f: nat, reply: SubmitReply, identified: bool)
    requires Enabled(s, SubmitAnswered(f, reply), identified)
    ensures var t := OnSubmitAnswered(s, f, reply);
            f in t.flights && PcAfter(s.flights[f], SubmitAnswered(f, reply), f, t.flights[f].pc)
  {}

  lemma AbortPcStep(s: State, f: nat)
    requires f in s.flights
    ensures f in OnAbort(s, f).flights && OnAbort(s, f).flights[f].pc == s.flights[f].pc
  {}

  /** An acceptance the handler goes on with. */
  predicate Taken(flight: Flight, reply: SubmitReply) {
    reply.Acceptance? && reply.jobId.Some? && reply.wellFormed && !flight.aborted
  }

  predicate PcAfter(flight: Flight, e: Event, f: nat, pc: Pc) {
    && (pc.BeforeSubmit? <==> flight.pc.BeforeSubmit? && e != ReturnEarly(f) && e != ThrowEarly(f) && e != Submit(f))
    && (pc.AwaitSubmit? <==> e == Submit(f) || (flight.pc.AwaitSubmit? && !(e.SubmitAnswered? && e.f == f)))
    && (pc.Polling? <==>
          || (e.SubmitAnswered? && e.f == f && Taken(flight, e.submitReply))
          || (flight.pc.Polling? && e != PollInterrupted(f) && !(e.PollAnswered? && e.f == f && !UnderWay(e.reply, f))))
    && (pc.Done? <==>
          || e == ReturnEarly(f) || (e.SubmitAnswered? && e.f == f && e.submitReply == Refusal(false))
          || (e.PollAnswered? && e.f == f && Concluded(e.reply, f)) || (e.CatchContinues? && e.f == f) || flight.pc.Done?)
    // Otherwise it is in the catch block.
  }

  lemma PcStep(s: State, e: Event, f: nat, identified: bool)
    requires Enabled(s, e, identified) && f in s.flights
    ensures f in Step(s, e, identified).flights && PcAfter(s.flights[f], e, f, Step(s, e, identified).flights[f].pc)
  {
    hide Step, Enabled;
    if Acted(s, e) == Some(f) { OwnPcStep(s, e, f, identified); } else { OtherFlight(s, e, f, identified); }
  }

  /** A submission is undecided from the call until an answer arrives, and the job's id is that of
      the acceptance. */
  lemma SubmissionStep(s: State, e: Event, f: nat, identified: bool)
    requires Enabled(s, e, identified) && f in s.flights
    ensures f in Step(s, e, identified).flights
    ensures var answered := e.SubmitAnswered? && e.f == f && !e.submitReply.Lost?;
            var flight := Step(s, e, identified).flights[f];
            && (flight.submitStarted <==> e == Submit(f) || (s.flights[f].submitStarted && !answered))
            && flight.acceptedJobId ==
                 (if answered && e.submitReply.Acceptance? then e.submitReply.jobId else s.flights[f].acceptedJobId)
            && (flight.reconciling <==>
                  || (s.flights[f].reconciling && !(e.ReconcileAnswered? && e.f == f))
                  || (e.CatchContinues? && e.f == f && s.flights[f].acceptedJobId.Some? && s.flights[f].cancel.kind.Unconfirmed?))
  {
    hide OnCancelReply, OnJobReply, OnGiveUp, VerifiedTerminal, JudgePoll;
    if Acted(s, e) != Some(f) { OtherFlight(s, e, f, identified); }
  }

  /** What the core does with a submission. */
  lemma CoreStep(s: State, e: Event, f: nat, identified: bool)
    requires Enabled(s, e, identified)
    ensures var t := Step(s, e, identified);
            && (f in t.submissions <==> f in s.submissions || e == Submit(f))
            && (e == Submit(f) ==> t.submissions[f].InFlight?)
            && (e == CoreAccepts(f) ==> t.submissions[f] == Job(false)) && (e == CoreRefuses(f) ==> t.submissions[f].Refused?)
            && (e == JobEnds(f) ==> t.submissions[f] == Job(true))
            && (f in s.submissions && e != Submit(f) && e != CoreAccepts(f) && e != CoreRefuses(f) && e != JobEnds(f) ==>
                  t.submissions[f] == s.submissions[f])
  {}

  /** How a confirmation moves on: a cancel reply, the first job reply that decides, or giving up,
      which believes a reported completion unless its wait failed. */
  lemma ConfirmationStep(s: State, e: Event, f: nat, identified: bool)
    requires Enabled(s, e, identified) && f in s.flights
    requires (e.CancelAnswered? || e.JobAnswered? || e.ConfirmGivesUp?) && e.f == f
    ensures var cancel := Step(s, e, identified).flights[f].cancel;
            match e
            case CancelAnswered(_, reply) =>
              cancel == (if ReportsEnd(reply, f, Cancelled) then Resolved(ConfirmedCancelled)
                         else if ReportsEnd(reply, f, Failed) then Resolved(TerminalOther)
                         else AwaitJobReply(ReportsEnd(reply, f, Completed)))
            case JobAnswered(_, reply) =>
              && (cancel == s.flights[f].cancel <==> !Decides(reply, f))
              && (cancel == Resolved(Unconfirmed) <==> Decides(reply, f) && !Proves(reply, f))
              && (cancel == Resolved(ConfirmedCancelled) <==> Proves(reply, f) && reply.state.Cancelled?)
              && (cancel == Resolved(ConfirmedCompleted) <==> Proves(reply, f) && reply.state.Completed?)
              && (cancel == Resolved(TerminalOther) <==> Proves(reply, f) && reply.state.Failed?)
            case ConfirmGivesUp(_, delayFailed) =>
              && (cancel == Resolved(ConfirmedCompleted) <==> s.flights[f].cancel.reportedCompleted && !delayFailed)
              && (cancel == Resolved(Unconfirmed) <==> !s.flights[f].cancel.reportedCompleted || delayFailed)
            case _ => true
  {}

  /** A cancellation is started once: after that only its own replies move it. */
  lemma CancelStartsOnce(s: State, e: Event, f: nat, identified: bool)
    requires Enabled(s, e, identified) && f in s.flights && !s.flights[f].cancel.NotStarted?
    requires !((e.CancelAnswered? || e.JobAnswered? || e.ConfirmGivesUp?) && e.f == f)
    ensures f in Step(s, e, identified).flights && Step(s, e, identified).flights[f].cancel == s.flights[f].cancel
  {
    if Acted(s, e) != Some(f) { OtherFlight(s, e, f, identified); }
  }

  // ---- Aborts ----

  /** The flight's abort signal: its window goes away, or the handler is torn down around it. */
  predicate Aborts(s: State, e: Event, f: nat) {
    f in s.flights && (e == Abort(f) || (e.Teardown? && s.active == Some(f)))
  }

  lemma AbortStep(s: State, e: Event, f: nat, identified: bool)
    requires Enabled(s, e, identified) && f in s.flights
    ensures f in Step(s, e, identified).flights
    ensures Step(s, e, identified).flights[f].aborted <==> s.flights[f].aborted || Aborts(s, e, f)
  {
    if Acted(s, e) != Some(f) { OtherFlight(s, e, f, identified); }
  }

  lemma {:induction false} AbortedExactly(states: seq<State>, events: seq<Event>, k: nat, f: nat, identified: bool)
    requires Run(states, events, identified) && k <= |events| && f in states[k].flights
    ensures states[k].flights[f].aborted <==> exists j | 0 <= j < k :: Aborts(states[j], events[j], f)
  {
    if k > 0 {
      var n := k - 1;
      assert Next(states[n], events[n], states[k], identified);
      if f in states[n].flights {
        AbortedExactly(states, events, n, f, identified);
        AbortStep(states[n], events[n], f, identified);
      } else {
        FlightBegins(states[n], events[n], f, identified);
        NotYetBegun(states, events, n, f, identified);
      }
    }
  }

  /** Nothing is submitted for an aborted flight. */
  lemma NoSubmitAfterAbort(states: seq<State>, events: seq<Event>, j: nat, k: nat, f: nat, identified: bool)
    requires Run(states, events, identified) && j < k < |events|
    requires Aborts(states[j], events[j], f)
    ensures events[k] != Submit(f)
  {
    assert Next(states[k], events[k], states[k + 1], identified);
    if events[k] == Submit(f) {
      AbortedExactly(states, events, k, f, identified);
    }
  }

  // ---- The lock ----

  /** A step that gives back flight f's lock: it returns without a job of its own left, its job
      is over, its cancellation is settled, or a retained job is known to have ended. */
  predicate GivesBack(s: State, e: Event, f: nat) {
    match e
    case ReturnEarly(g) => g == f
    case SubmitAnswered(g, reply) => g == f && reply == Refusal(false)
    case PollAnswered(g, reply) => g == f && Concluded(reply, f)
    case CatchContinues(g, _) => g == f && g in s.flights && !Retains(s.flights[f])
    case TerminalEvent(g) => g == f
    case ReconcileAnswered(g, reply) => g == f && Proves(reply, f)
    case _ => false
  }

  /** A job that may still run: accepted but not confirmed over, or submitted without an answer. */
  predicate Retains(flight: Flight) {
    || (flight.acceptedJobId.Some? && flight.cancel == Resolved(Unconfirmed))
    || (flight.acceptedJobId.None? && flight.submitStarted)
  }

  /** The lock is taken by a call that finds it free, and given back by these steps alone. */
  lemma LockExactly(s: State, e: Event, f: nat, identified: bool)
    requires Enabled(s, e, identified)
    ensures Step(s, e, identified).active == Some(f) <==>
            (s.active.None? && e == Invoke(f)) || (s.active == Some(f) && !GivesBack(s, e, f))
  {}

  /** The rest of the catch block leaves a flight reconciling exactly for an accepted job whose
      end is unconfirmed, and listening if it could subscribe. */
  lemma RetainedExactly(s: State, f: nat, subscribes: bool, identified: bool)
    requires Enabled(s, CatchContinues(f, subscribes), identified) && f !in s.listeners && !s.flights[f].reconciling
    ensures var t := Step(s, CatchContinues(f, subscribes), identified);
            && At(t, f, Done)
            && (t.flights[f].reconciling <==> s.flights[f].acceptedJobId.Some? && s.flights[f].cancel == Resolved(Unconfirmed))
            && (f in t.listeners <==> t.flights[f].reconciling && subscribes)
            && (f in t.listeners ==> t.unsubscribe == Some(f))
  {}
}
