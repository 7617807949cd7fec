/** Stopping a microphone test. The audio callback, the probe's worker thread, the stream's
    error callback and the manager share a stop flag and one lock; every read or write of
    either is a step of its own, so all their interleavings are runs of this machine. */
module ProbeTeardown {
  import H = Histories

  /** The audio-derived part of the probe's state. */
  datatype Audio = Audio(samples: seq<int>, accumulator: nat, meanSquare: real, peak: real, clipping: bool,
                         signalDetected: bool)

  const SILENT := Audio([], 0, 0.0, 0.0, false, false)

  /** process_probe_callback: it looks at the flag, takes the lock, looks again, processes. */
  datatype CallbackAt = Outside | Waiting | Holding | Processing

  /** The worker thread, from opening the device to its end. */
  datatype WorkerAt =
    | Opening | Streaming | LeavingLoop | Marking | Dropping | LookingAgain | Clearing
    | Failing | Reporting | Ended

  /** The stream's error callback sets the error, then the flag. */
  datatype ErrorAt = NoError | ErrorRecorded

  datatype ManagerAt = Free | FlagSet | Joining

  datatype Probe = Probe(
    stop: bool,
    audio: Audio,
    complete: bool,
    failed: bool,
    streamLive: bool,
    callback: CallbackAt,
    worker: WorkerAt,
    errorCallback: ErrorAt,
    manager: ManagerAt,
    silenced: bool)  // the state was cleared after the flag was set

  const STARTED := Probe(false, SILENT, false, false, false, Outside, Opening, NoError, Free, false)

  datatype Event =
    | CallbackEnters | CallbackLocks | CallbackLooksAgain | CallbackProcesses(heard: Audio)
    | OpenFinds(ok: bool) | Play(ok: bool) | LoopEnds(deadline: bool) | LookAfterLoop | MarkComplete
    | DropStream | LookAfterDrop | WorkerClears | WorkerStops | WorkerReports
    | StreamFails | StreamStops
    | ManagerStops | ManagerClears | JoinReturns(finished: bool) | TakeSample

  /** The lock is held across steps only by a callback. */
  predicate LockFree(p: Probe) { p.callback.Outside? || p.callback.Waiting? }

  /** Callbacks come only from a live stream, and dropping a stream waits for its callback. */
  predicate Enabled(p: Probe, e: Event) {
    match e
    case CallbackEnters => p.streamLive && p.callback.Outside?
    case CallbackLocks => p.callback.Waiting?
    case CallbackLooksAgain => p.callback.Holding?
    case CallbackProcesses(_) => p.callback.Processing?
    case OpenFinds(_) => p.worker.Opening? && !p.streamLive
    case Play(ok) =>
      && p.worker.Opening? && p.streamLive
      && (!ok || p.stop ==> p.callback.Outside? && p.errorCallback.NoError?)
    case LoopEnds(deadline) => p.worker.Streaming? && (deadline || p.stop)
    case LookAfterLoop => p.worker.LeavingLoop?
    case MarkComplete => p.worker.Marking? && LockFree(p)
    case DropStream => p.worker.Dropping? && p.callback.Outside? && p.errorCallback.NoError?
    case LookAfterDrop => p.worker.LookingAgain?
    case WorkerClears => p.worker.Clearing? && LockFree(p)
    case WorkerStops => p.worker.Failing?
    case WorkerReports => p.worker.Reporting? && LockFree(p)
    case StreamFails => p.streamLive && p.errorCallback.NoError? && LockFree(p)
    case StreamStops => p.errorCallback.ErrorRecorded?
    case ManagerStops => !p.manager.FlagSet?
    case ManagerClears => p.manager.FlagSet? && LockFree(p)
    case JoinReturns(finished) => p.manager.Joining? && (finished ==> p.worker.Ended?)
    case TakeSample => p.manager.Free? && LockFree(p)
  }

  function ClearAudio(p: Probe): Probe {
    p.(audio := SILENT, complete := false, silenced := p.silenced || p.stop)
  }

  function Step(p: Probe, e: Event): Probe
    requires Enabled(p, e)
  {
    match e
    case CallbackEnters => if p.stop then p else p.(callback := Waiting)
    case CallbackLocks => p.(callback := Holding)
    case CallbackLooksAgain => p.(callback := if p.stop || p.complete then Outside else Processing)
    case CallbackProcesses(heard) => p.(callback := Outside, audio := heard)
    case OpenFinds(ok) =>
      if !ok then p.(worker := Failing)
      else if p.stop then p.(worker := Clearing)
      else p.(streamLive := true)
    case Play(ok) =>
      if !ok then p.(streamLive := false, worker := Failing)
      else if p.stop then p.(streamLive := false, worker := Clearing)
      else p.(worker := Streaming)
    case LoopEnds(_) => p.(worker := LeavingLoop)
    case LookAfterLoop => p.(worker := if p.stop then Dropping else Marking)
    case MarkComplete => p.(complete := true, worker := Dropping)
    case DropStream => p.(streamLive := false, worker := LookingAgain)
    case LookAfterDrop => p.(worker := if p.stop then Clearing else Ended)
    case WorkerClears => ClearAudio(p).(worker := Ended)
    case WorkerStops => p.(stop := true, worker := Reporting)
    case WorkerReports => p.(failed := true, worker := Clearing)
    case StreamFails => p.(failed := true, errorCallback := ErrorRecorded)
    case StreamStops => p.(stop := true, errorCallback := NoError)
    case ManagerStops => p.(stop := true, manager := FlagSet)
    case ManagerClears => ClearAudio(p).(failed := false, manager := Joining)
    case JoinReturns(_) => p.(manager := Free)
    case TakeSample => p.(audio := p.audio.(samples := [], accumulator := 0))
  }

  ghost predicate Next(p: Probe, e: Event, q: Probe) { Enabled(p, e) && q == Step(p, e) }

  ghost predicate Run(states: seq<Probe>, events: seq<Event>) {
    && |states| == |events| + 1 && states[0] == STARTED
    && forall k :: 0 <= k < |events| ==> Next(states[k], events[k], states[k + 1])
  }

  /** Once silenced, the flag is up for good, no callback is past its second look, and a worker
      that has ended has wiped its own late mark. */
  predicate Inv(p: Probe) {
    && (p.silenced ==> p.stop && p.audio == SILENT && !p.callback.Processing?)
    && (p.silenced && p.complete ==> p.worker.Dropping? || p.worker.LookingAgain? || p.worker.Clearing?)
    && (p.complete ==> !p.callback.Processing?)
    && (p.manager.FlagSet? ==> p.stop)
    && (p.manager.Joining? ==> p.silenced)
    && (p.worker.Reporting? ==> p.stop)
    && (p.worker.Clearing? ==> p.stop)
    && (p.worker.Dropping? || p.worker.LookingAgain? ==> p.complete || p.stop)
    && (p.worker.Ended? && !p.complete ==> p.silenced)
  }

  predicate OfWorker(e: Event) {
    e.OpenFinds? || e.Play? || e.LoopEnds? || e.LookAfterLoop? || e.MarkComplete? || e.DropStream?
    || e.LookAfterDrop? || e.WorkerClears? || e.WorkerStops? || e.WorkerReports?
  }

  lemma WorkerKeepsInv(p: Probe, e: Event)
    requires Inv(p) && Enabled(p, e) && OfWorker(e)
    ensures Inv(Step(p, e))
  {}

  lemma OthersKeepInv(p: Probe, e: Event)
    requires Inv(p) && Enabled(p, e) && !OfWorker(e)
    ensures Inv(Step(p, e))
  {}

  lemma StepKeepsInv(p: Probe, e: Event)
    requires Inv(p) && Enabled(p, e)
    ensures Inv(Step(p, e))
  {
    if OfWorker(e) { WorkerKeepsInv(p, e); } else { OthersKeepInv(p, e); }
  }

  lemma {:induction false} RunKeepsInv(states: seq<Probe>, events: seq<Event>, k: nat)
    requires Run(states, events) && k < |states|
    ensures Inv(states[k])
  {
    if k > 0 {
      RunKeepsInv(states, events, k - 1);
      assert Next(states[k - 1], events[k - 1], states[k]);
      StepKeepsInv(states[k - 1], events[k - 1]);
    }
  }

  lemma {:induction false} SilencedForGood(states: seq<Probe>, events: seq<Event>, i: nat, j: nat)
    requires Run(states, events) && i <= j < |states| && states[i].silenced
    ensures states[j].silenced && states[j].stop && states[j].audio == SILENT
    decreases j
  {
    RunKeepsInv(states, events, j);
    if i < j {
      SilencedForGood(states, events, i, j - 1);
      assert Next(states[j - 1], events[j - 1], states[j]);
    }
  }

  /** Once the manager has cleared a stopping probe, the samples, the levels and the signal flags
      stay zero at every later point of every run, whether or not the teardown times out, and
      whatever the callback, the worker and the stream still do. */
  lemma StoppedProbeStaysSilent(states: seq<Probe>, events: seq<Event>, i: nat, j: nat)
    requires Run(states, events) && i < j < |states|
    requires events[i].ManagerClears?
    ensures states[j].audio == SILENT && states[j].stop
  {
    assert Next(states[i], events[i], states[i + 1]);
    RunKeepsInv(states, events, i);
    SilencedForGood(states, events, i + 1, j);
  }

  /** Whichever way it ends, a worker whose probe was stopped or failed leaves silence behind,
      and no completion mark. */
  lemma StoppedWorkerLeavesNothing(states: seq<Probe>, events: seq<Event>, k: nat)
    requires Run(states, events) && k < |states|
    requires states[k].worker.Ended? && (states[k].silenced || !states[k].complete)
    ensures states[k].audio == SILENT && !states[k].complete && states[k].stop
  {
    RunKeepsInv(states, events, k);
  }

  /** A completed test is frozen: from then on a step either keeps the audio or empties it for
      the caller or for the teardown. */
  lemma CompletedTestIsFrozen(states: seq<Probe>, events: seq<Event>, k: nat)
    requires Run(states, events) && k < |events| && states[k].complete
    ensures states[k + 1].audio in {states[k].audio, SILENT, states[k].audio.(samples := [], accumulator := 0)}
  {
    RunKeepsInv(states, events, k);
    assert Next(states[k], events[k], states[k + 1]);
  }

  // ---- What a test hears ----

  /** What a step does to the audio: a callback past its second look stores what it heard, the two
      clears silence it, taking the sample empties the ring. */
  lemma AudioStep(p: Probe, e: Event)
    requires Enabled(p, e)
    ensures Step(p, e).audio == match e
                                case CallbackProcesses(heard) => heard
                                case WorkerClears => SILENT
                                case ManagerClears => SILENT
                                case TakeSample => p.audio.(samples := [], accumulator := 0)
                                case _ => p.audio
  {}

  predicate Rewrites(e: Event) { e.CallbackProcesses? || e.WorkerClears? || e.ManagerClears? || e.TakeSample? }

  /** Over every run, what a callback stored stays until another callback, a clear or a taken
      sample replaces it. */
  lemma {:induction false} HeardStays(states: seq<Probe>, events: seq<Event>, j: nat, k: nat)
    requires Run(states, events) && j < k < |states| && events[j].CallbackProcesses?
    requires forall i | j < i < k :: !Rewrites(events[i])
    ensures states[k].audio == events[j].heard
    decreases k
  {
    assert Next(states[k - 1], events[k - 1], states[k]);
    AudioStep(states[k - 1], events[k - 1]);
    if j < k - 1 { HeardStays(states, events, j, k - 1); }
  }

  /** Where a step leaves the callback: let in unless the flag is up, stopped at its second look
      exactly by the flag or the completion mark, and otherwise bound to process. */
  lemma CallbackStep(p: Probe, e: Event)
    requires Enabled(p, e)
    ensures var after := Step(p, e).callback;
            && (after.Waiting? <==> (e.CallbackEnters? && !p.stop) || (p.callback.Waiting? && !e.CallbackLocks?))
            && (after.Holding? <==> e.CallbackLocks? || (p.callback.Holding? && !e.CallbackLooksAgain?))
            && (after.Processing? <==>
                  (e.CallbackLooksAgain? && !p.stop && !p.complete) || (p.callback.Processing? && !e.CallbackProcesses?))
  {}

  /** Over every run, a callback whose second look saw neither the flag nor the mark can store what
      it heard at every later point until it does, whatever stops, fails or clears meanwhile. */
  lemma {:induction false} PastSecondLook(states: seq<Probe>, events: seq<Event>, j: nat, k: nat, heard: Audio)
    requires Run(states, events) && j < k < |states|
    requires events[j].CallbackLooksAgain? && !states[j].stop && !states[j].complete
    requires forall i | j < i < k :: !events[i].CallbackProcesses?
    ensures Enabled(states[k], CallbackProcesses(heard)) && Step(states[k], CallbackProcesses(heard)).audio == heard
    decreases k
  {
    assert Next(states[k - 1], events[k - 1], states[k]);
    CallbackStep(states[k - 1], events[k - 1]);
    if j < k - 1 { PastSecondLook(states, events, j, k - 1, heard); }
  }

  // ---- The worker's way ----

  /** How the worker gets to each of its points and leaves it: a failure to open or play is
      reported before the state is cleared, a flag seen at any look leads to the clearing, and
      only an undisturbed test is marked and ends uncleared. */
  lemma WorkerStep(p: Probe, e: Event)
    requires Enabled(p, e) && OfWorker(e)
    ensures WorkerAfter(p, e, Step(p, e).worker)
  {}

  predicate WorkerAfter(p: Probe, e: Event, w: WorkerAt) {
    && (w.Streaming? <==> (e == Play(true) && !p.stop) || (p.worker.Streaming? && !e.LoopEnds?))
    && (w.LeavingLoop? <==> e.LoopEnds? || (p.worker.LeavingLoop? && !e.LookAfterLoop?))
    && (w.Marking? <==> (e.LookAfterLoop? && !p.stop) || (p.worker.Marking? && !e.MarkComplete?))
    && (w.Dropping? <==> (e.LookAfterLoop? && p.stop) || e.MarkComplete? || (p.worker.Dropping? && !e.DropStream?))
    && (w.LookingAgain? <==> e.DropStream? || (p.worker.LookingAgain? && !e.LookAfterDrop?))
    && (w.Clearing? <==>
          || (p.stop && (e == OpenFinds(true) || e == Play(true) || e.LookAfterDrop?)) || e.WorkerReports?
          || (p.worker.Clearing? && !e.WorkerClears?))
    && (w.Failing? <==> e == OpenFinds(false) || e == Play(false) || (p.worker.Failing? && !e.WorkerStops?))
    && (w.Reporting? <==> e.WorkerStops? || (p.worker.Reporting? && !e.WorkerReports?))
    && (w.Ended? <==> e.WorkerClears? || (e.LookAfterDrop? && !p.stop) || p.worker.Ended?)
  }

  /** The stream is live from its opening until the worker drops it, and nobody else moves the
      worker. */
  lemma StreamStep(p: Probe, e: Event)
    requires Enabled(p, e)
    ensures Step(p, e).streamLive <==>
              || (e == OpenFinds(true) && !p.stop)
              || (p.streamLive && !e.DropStream? && !(e.Play? && (!e.ok || p.stop)))
    ensures !OfWorker(e) ==> Step(p, e).worker == p.worker
    ensures Step(p, e).manager ==
              if e.ManagerStops? then FlagSet else if e.ManagerClears? then Joining else if e.JoinReturns? then Free else p.manager
    ensures Step(p, e).errorCallback ==
              if e.StreamFails? then ErrorRecorded else if e.StreamStops? then NoError else p.errorCallback
  {}

  // ---- The flags ----

  ghost function Completions(events: seq<Event>): set<nat> { set j: nat | j < |events| && events[j].MarkComplete? }

  ghost function Clears(events: seq<Event>): set<nat> {
    set j: nat | j < |events| && (events[j].WorkerClears? || events[j].ManagerClears?)
  }

  ghost function Failures(events: seq<Event>): set<nat> {
    set j: nat | j < |events| && (events[j].StreamFails? || events[j].WorkerReports?)
  }

  ghost function Forgiven(events: seq<Event>): set<nat> { set j: nat | j < |events| && events[j].ManagerClears? }

  /** What a step does to the three flags. */
  predicate FlagsAfter(p: Probe, e: Event, q: Probe) {
    && (q.stop <==> p.stop || e.ManagerStops? || e.WorkerStops? || e.StreamStops?)
    && (q.complete <==> e.MarkComplete? || (p.complete && !e.WorkerClears? && !e.ManagerClears?))
    && (q.failed <==> e.StreamFails? || e.WorkerReports? || (p.failed && !e.ManagerClears?))
  }

  lemma WorkerFlagSteps(p: Probe, e: Event)
    requires Enabled(p, e) && OfWorker(e)
    ensures FlagsAfter(p, e, Step(p, e))
  {}

  lemma OtherFlagSteps(p: Probe, e: Event)
    requires Enabled(p, e) && !OfWorker(e)
    ensures FlagsAfter(p, e, Step(p, e))
  {}

  lemma FlagsNext(states: seq<Probe>, events: seq<Event>, n: nat)
    requires Run(states, events) && n < |events|
    ensures FlagsAfter(states[n], events[n], states[n + 1])
  {
    hide Step, FlagsAfter;
    assert Next(states[n], events[n], states[n + 1]);
    if OfWorker(events[n]) { WorkerFlagSteps(states[n], events[n]); } else { OtherFlagSteps(states[n], events[n]); }
  }

  /** Over every run: the flag is up exactly once the manager, the worker or the stream has raised
      it; the test is complete exactly from its mark to the next clear; and it has failed exactly
      from a reported failure to the manager's clear. */
  lemma FlagsExactly(states: seq<Probe>, events: seq<Event>, k: nat)
    requires Run(states, events) && k < |states|
    ensures states[k].stop <==> exists j :: 0 <= j < k && Raises(events[j])
    ensures states[k].complete <==> H.Since(Completions(events), Clears(events), k)
    ensures states[k].failed <==> H.Since(Failures(events), Forgiven(events), k)
  {
    hide Step, Enabled, H.Since;
    var complete := seq(|states|, i requires 0 <= i < |states| => states[i].complete);
    var failed := seq(|states|, i requires 0 <= i < |states| => states[i].failed);
    forall n: nat | n < k
      ensures complete[n + 1] <==> n in Completions(events) || (complete[n] && n !in Clears(events))
      ensures failed[n + 1] <==> n in Failures(events) || (failed[n] && n !in Forgiven(events))
    {
      FlagsNext(states, events, n);
    }
    H.FlagIsHistory(complete, Completions(events), Clears(events), k);
    H.FlagIsHistory(failed, Failures(events), Forgiven(events), k);
    StopExactly(states, events, k);
  }

  predicate Raises(e: Event) { e.ManagerStops? || e.WorkerStops? || e.StreamStops? }

  lemma {:induction false} StopExactly(states: seq<Probe>, events: seq<Event>, k: nat)
    requires Run(states, events) && k < |states|
    ensures states[k].stop <==> exists j :: 0 <= j < k && Raises(events[j])
  {
    if k > 0 {
      StopExactly(states, events, k - 1);
      FlagsNext(states, events, k - 1);
    }
  }

  ghost predicate Reachable(p: Probe) {
    exists states, events :: Run(states, events) && states[|events|] == p
  }

  lemma ReachableStart()
    ensures Reachable(STARTED)
  {
    var states, events: seq<Event> := [STARTED], [];
    assert Run(states, events) && states[|events|] == STARTED;
  }

  lemma ReachNext(p: Probe, e: Event)
    requires Reachable(p) && Enabled(p, e)
    ensures Reachable(Step(p, e))
  {
    var states, events :| Run(states, events) && states[|events|] == p;
    var longer, more := states + [Step(p, e)], events + [e];
    forall k | 0 <= k < |more|
      ensures Next(longer[k], more[k], longer[k + 1])
    {
      if k < |events| { assert Next(states[k], events[k], states[k + 1]); }
    }
    assert Run(longer, more) && longer[|more|] == Step(p, e);
  }

  /** The completion mark is the exception to the silence. A step leaves a cleared probe marked
      exactly when the worker sets the mark now, or it was there and nobody clears it. */
  lemma LateMarkStep(p: Probe, e: Event)
    requires Inv(p) && Enabled(p, e)
    ensures Step(p, e).silenced && Step(p, e).complete <==>
      p.silenced && (e.MarkComplete? || (p.complete && !e.WorkerClears? && !e.ManagerClears?))
  {}

  ghost function LateMarks(states: seq<Probe>, events: seq<Event>): set<nat>
    requires |states| == |events| + 1
  {
    set j: nat | j < |events| && states[j].silenced && events[j].MarkComplete?
  }

  /** The worker marked the test complete after it was silenced, and no clear has come since. */
  ghost predicate MarkedLate(states: seq<Probe>, events: seq<Event>, k: nat)
    requires |states| == |events| + 1
  {
    H.Since(LateMarks(states, events), Clears(events), k)
  }

  /** Over every run, a silenced probe is marked complete precisely when its worker, having looked
      at the flag before it went up, set the mark after the clear and has not wiped it yet. */
  lemma {:induction false} LateMarkExactly(states: seq<Probe>, events: seq<Event>, k: nat)
    requires Run(states, events) && k <= |events|
    ensures states[k].silenced && states[k].complete <==> MarkedLate(states, events, k)
  {
    if k > 0 {
      LateMarkExactly(states, events, k - 1);
      RunKeepsInv(states, events, k - 1);
      assert Next(states[k - 1], events[k - 1], states[k]);
      LateMarkStep(states[k - 1], events[k - 1]);
      H.SinceStep(LateMarks(states, events), Clears(events), k - 1);
    }
  }

  /** It does happen, and the worker's own last look repairs it. */
  lemma LateMarkOutlivesTheClear()
    ensures exists p :: Reachable(p) && p.silenced && p.complete && p.manager.Free?
  {
    LateMarkPrefix();
    var looked := STARTED.(streamLive := true, worker := Marking);
    var cleared := looked.(stop := true, silenced := true, manager := Joining);
    ReachNext(looked, ManagerStops);
    ReachNext(looked.(stop := true, manager := FlagSet), ManagerClears);
    ReachNext(cleared, MarkComplete);
    var marked := cleared.(complete := true, worker := Dropping);
    ReachNext(marked, JoinReturns(false));
    assert Reachable(marked.(manager := Free));
  }

  /** And a test that nobody stops can complete with whatever its callback heard. */
  lemma TestCanComplete(heard: Audio)
    ensures Reachable(STARTED.(audio := heard, complete := true, worker := Ended))
  {
    var streaming := STARTED.(streamLive := true, worker := Streaming);
    ReachableStart();
    ReachNext(STARTED, OpenFinds(true));
    ReachNext(STARTED.(streamLive := true), Play(true));
    ReachNext(streaming, CallbackEnters);
    ReachNext(streaming.(callback := Waiting), CallbackLocks);
    ReachNext(streaming.(callback := Holding), CallbackLooksAgain);
    ReachNext(streaming.(callback := Processing), CallbackProcesses(heard));
    var listened := streaming.(audio := heard);
    ReachNext(listened, LoopEnds(true));
    ReachNext(listened.(worker := LeavingLoop), LookAfterLoop);
    ReachNext(listened.(worker := Marking), MarkComplete);
    ReachNext(listened.(worker := Dropping, complete := true), DropStream);
    ReachNext(listened.(worker := LookingAgain, complete := true, streamLive := false), LookAfterDrop);
  }

  lemma LateMarkPrefix()
    ensures Reachable(STARTED.(streamLive := true, worker := Marking))
  {
    ReachableStart();
    ReachNext(STARTED, OpenFinds(true));
    ReachNext(STARTED.(streamLive := true), Play(true));
    ReachNext(STARTED.(streamLive := true, worker := Streaming), LoopEnds(true));
    ReachNext(STARTED.(streamLive := true, worker := LeavingLoop), LookAfterLoop);
  }
}
