/** Who owns the audio devices: the capture manager holds at most one microphone probe or one
    capture session, and decides from the way their threads join what may start next. */
module DeviceOwnership {
  import opened Common
  import H = Histories

  /** Threads are named by the order they were spawned in. `handles` are a session's threads in
      join order, the writer last. The two sets are the threads spawned and not yet joined. */
  datatype Owner = Owner(
    active: Option<seq<nat>>,
    probe: Option<nat>,
    spawned: nat,
    probeThreads: set<nat>,
    captureThreads: set<nat>)

  const NOBODY := Owner(None, None, 0, {}, {})

  /** join_microphone_probe_bounded. */
  datatype Join = Joined | Panicked | TimedOut

  datatype Ready = IsReady | Refused | NotInTime

  datatype Event =
    | MicTestStart(resolved: bool, ready: Ready)
    | MicTestStop(join: Join)
    | CaptureStart(join: Join, threads: nat, ready: Ready)
    | CaptureStop(panics: seq<bool>)

  datatype Reply = Fine | AlreadyActive | TestActive | NotActive | StartFailed | ThreadFailed | StopTimedOut

  function Threads(handles: seq<nat>): set<nat> { set k | 0 <= k < |handles| :: handles[k] }

  function Handles(first: nat, threads: nat): seq<nat> { seq(threads, k requires 0 <= k => first + k) }

  /** mic_test_stop_with_timeout: without a probe it succeeds; a timeout keeps the probe owned. */
  function StopProbe(o: Owner, join: Join): (r: (Owner, Reply)) {
    if o.probe.None? then (o, Fine)
    else if join.TimedOut? then (o, StopTimedOut)
    else
      (o.(probe := None, probeThreads := o.probeThreads - {o.probe.value}), if join.Joined? then Fine else ThreadFailed)
  }

  /** mic_test_start. A start that is not ready in time keeps the unwinding probe owned. */
  function StartProbe(o: Owner, resolved: bool, ready: Ready): (Owner, Reply) {
    if o.active.Some? then (o, AlreadyActive)
    else if o.probe.Some? then (o, TestActive)
    else if !resolved then (o, StartFailed)
    else if ready.Refused? then (o.(spawned := o.spawned + 1), StartFailed)
    else
      (o.(spawned := o.spawned + 1, probe := Some(o.spawned), probeThreads := o.probeThreads + {o.spawned}),
       if ready.IsReady? then Fine else StartFailed)
  }

  /** start_mic, start_system and start_mic_system: the probe goes first; a failed start joins
      every thread it spawned. */
  function StartCapture(o: Owner, join: Join, threads: nat, ready: Ready): (Owner, Reply) {
    if o.active.Some? then (o, AlreadyActive)
    else
      var (cleared, reply) := StopProbe(o, join);
      if !reply.Fine? then (cleared, reply)
      else
        var after := cleared.(spawned := cleared.spawned + threads);
        if !ready.IsReady? then (after, StartFailed)
        else
          var handles := Handles(cleared.spawned, threads);
          (after.(active := Some(handles), captureThreads := cleared.captureThreads + Threads(handles)), Fine)
  }

  /** How many of a session's handles are joined: all of them, or up to the first panic. */
  function JoinedCount(handles: seq<nat>, panics: seq<bool>): (n: nat)
    requires |panics| == |handles|
    ensures n <= |handles|
  {
    if handles == [] then 0
    else if panics[0] then 1
    else 1 + JoinedCount(handles[1..], panics[1..])
  }

  /** stop: the first thread that panicked ends the joining, and the session is gone. */
  function StopCapture(o: Owner, panics: seq<bool>): (Owner, Reply)
    requires o.active.Some? ==> |panics| == |o.active.value|
  {
    if o.active.None? then (o, NotActive)
    else
      var handles := o.active.value;
      var joined := handles[..JoinedCount(handles, panics)];
      (o.(active := None, captureThreads := o.captureThreads - Threads(joined)),
       if true in panics then ThreadFailed else Fine)
  }

  predicate Enabled(o: Owner, e: Event) {
    e.CaptureStop? && o.active.Some? ==> |e.panics| == |o.active.value|
  }

  function Step(o: Owner, e: Event): (Owner, Reply)
    requires Enabled(o, e)
  {
    match e
    case MicTestStart(resolved, ready) => StartProbe(o, resolved, ready)
    case MicTestStop(join) => StopProbe(o, join)
    case CaptureStart(join, threads, ready) => StartCapture(o, join, threads, ready)
    case CaptureStop(panics) => StopCapture(o, panics)
  }

  ghost predicate Next(o: Owner, e: Event, q: Owner) { Enabled(o, e) && q == Step(o, e).0 }

  ghost predicate Run(states: seq<Owner>, events: seq<Event>) {
    && |states| == |events| + 1 && states[0] == NOBODY
    && forall k :: 0 <= k < |events| ==> Next(states[k], events[k], states[k + 1])
  }

  predicate Distinct(handles: seq<nat>) {
    forall i, j :: 0 <= i < j < |handles| ==> handles[i] != handles[j]
  }

  /** The only live probe thread is the owned one, and a session and a probe never coexist. */
  predicate Inv(o: Owner) {
    && o.probeThreads == (if o.probe.Some? then {o.probe.value} else {})
    && (forall t :: t in o.captureThreads ==> t < o.spawned)
    && (o.active.Some? ==>
          o.probe.None? && Threads(o.active.value) <= o.captureThreads && Distinct(o.active.value))
  }

  lemma StepKeepsInv(o: Owner, e: Event)
    requires Inv(o) && Enabled(o, e)
    ensures Inv(Step(o, e).0)
  {}

  lemma {:induction false} RunKeepsInv(states: seq<Owner>, events: seq<Event>, k: nat)
    requires Run(states, events) && k < |states|
    ensures Inv(states[k])
  {
    if k > 0 {
      RunKeepsInv(states, events, k - 1);
      assert Next(states[k - 1], events[k - 1], states[k]);
      StepKeepsInv(states[k - 1], events[k - 1]);
    }
  }

  /** A capture session is never active while a probe thread is un-joined. */
  lemma ProbeAndSessionExclude(states: seq<Owner>, events: seq<Event>, k: nat)
    requires Run(states, events) && k < |states| && states[k].active.Some?
    ensures states[k].probeThreads == {}
  {
    RunKeepsInv(states, events, k);
  }

  // ---- When an operation succeeds ----

  /** A microphone test starts exactly on a free device that resolves and is ready; a thread that is
      not ready in time is owned all the same. */
  lemma ProbeStartsExactly(o: Owner, resolved: bool, ready: Ready)
    ensures var (q, reply) := Step(o, MicTestStart(resolved, ready));
            var free := o.active.None? && o.probe.None?;
            && (reply.Fine? <==> free && resolved && ready.IsReady?)
            && (reply.StartFailed? <==> free && !(resolved && ready.IsReady?))
            && (reply.AlreadyActive? <==> o.active.Some?) && (reply.TestActive? <==> o.active.None? && o.probe.Some?)
            && (q.probe != o.probe <==> free && resolved && !ready.Refused?)
            && (q.probe != o.probe ==> q.probe == Some(o.spawned)) && q.active == o.active
            && q.spawned == o.spawned + (if free && resolved then 1 else 0)
  {}

  /** A test stops, well or badly, unless its thread does not end in time. */
  lemma ProbeStopsExactly(o: Owner, join: Join)
    ensures var (q, reply) := Step(o, MicTestStop(join));
            && (reply.Fine? <==> o.probe.None? || join.Joined?)
            && (reply.StopTimedOut? <==> o.probe.Some? && join.TimedOut?)
            && (reply.ThreadFailed? <==> o.probe.Some? && join.Panicked?)
            && (q.probe.Some? <==> reply.StopTimedOut?) && (q.probe.Some? ==> q == o) && q.active == o.active
  {}

  /** A capture starts exactly when none is active, a running test can be joined without a panic,
      and every thread is ready; then the session owns all its new threads. A capture that does
      not start leaves no session behind. */
  lemma CaptureStartsExactly(o: Owner, join: Join, threads: nat, ready: Ready)
    ensures var (q, reply) := Step(o, CaptureStart(join, threads, ready));
            && (reply.Fine? <==> o.active.None? && (o.probe.None? || join.Joined?) && ready.IsReady?)
            && (reply.AlreadyActive? <==> o.active.Some?)
            && (reply.StopTimedOut? <==> o.active.None? && o.probe.Some? && join.TimedOut?)
            && (reply.ThreadFailed? <==> o.active.None? && o.probe.Some? && join.Panicked?)
            && (reply.Fine? ==> q.active == Some(Handles(o.spawned, threads)) && q.probe.None?)
            && (!reply.Fine? ==> q.active == o.active)
            && (q.probe != o.probe <==> o.active.None? && o.probe.Some? && !join.TimedOut?)
            && (q.probe != o.probe ==> q.probe.None?)
            && (reply.Fine? ==> q.captureThreads == o.captureThreads + Threads(Handles(o.spawned, threads)))
            && (!reply.Fine? ==> q.captureThreads == o.captureThreads)
            && q.spawned == o.spawned + (if o.active.None? && (o.probe.None? || join.Joined?) then threads else 0)
  {}

  /** A stop always ends the session, and reports success exactly if no thread panicked. */
  lemma CaptureStopsExactly(o: Owner, panics: seq<bool>)
    requires Enabled(o, CaptureStop(panics))
    ensures var (q, reply) := Step(o, CaptureStop(panics));
            && (reply.Fine? <==> o.active.Some? && forall k | 0 <= k < |panics| :: !panics[k])
            && (reply.NotActive? <==> o.active.None?) && q.active.None? && q.probe == o.probe
            && (reply.ThreadFailed? <==> o.active.Some? && exists k | 0 <= k < |panics| :: panics[k])
  {}

  ghost function SessionStarts(states: seq<Owner>, events: seq<Event>): set<nat>
    requires |states| == |events| + 1
  {
    set j: nat | j < |events| && events[j].CaptureStart? && Enabled(states[j], events[j]) && Step(states[j], events[j]).1.Fine?
  }

  ghost function SessionStops(events: seq<Event>): set<nat> { set j: nat | j < |events| && events[j].CaptureStop? }

  /** A test whose thread came up, in time or late, on a free device. */
  predicate TestBegins(o: Owner, e: Event) {
    e.MicTestStart? && e.resolved && !e.ready.Refused? && o.active.None? && o.probe.None?
  }

  /** The thread of a test is joined, by its own stop or by a capture that starts. */
  predicate TestEnds(o: Owner, e: Event) {
    (e.MicTestStop? || (e.CaptureStart? && o.active.None?)) && !e.join.TimedOut?
  }

  ghost function TestStarts(states: seq<Owner>, events: seq<Event>): set<nat>
    requires |states| == |events| + 1
  {
    set j: nat | j < |events| && TestBegins(states[j], events[j])
  }

  ghost function TestStops(states: seq<Owner>, events: seq<Event>): set<nat>
    requires |states| == |events| + 1
  {
    set j: nat | j < |events| && TestEnds(states[j], events[j])
  }

  lemma OwnershipStep(o: Owner, e: Event)
    requires Enabled(o, e)
    ensures Step(o, e).0.active.Some? <==>
              (e.CaptureStart? && Step(o, e).1.Fine?) || (o.active.Some? && !e.CaptureStop?)
    ensures Step(o, e).0.probe.Some? <==> TestBegins(o, e) || (o.probe.Some? && !TestEnds(o, e))
  {}

  /** Over every run a session is active exactly from a start that succeeded to the next stop, and
      a test is owned exactly from a thread that came up to the join of it. */
  lemma OwnedExactly(states: seq<Owner>, events: seq<Event>, k: nat)
    requires Run(states, events) && k < |states|
    ensures states[k].active.Some? <==> H.Since(SessionStarts(states, events), SessionStops(events), k)
    ensures states[k].probe.Some? <==> H.Since(TestStarts(states, events), TestStops(states, events), k)
  {
    var active := seq(|states|, i requires 0 <= i < |states| => states[i].active.Some?);
    var probe := seq(|states|, i requires 0 <= i < |states| => states[i].probe.Some?);
    forall n: nat | n < k
      ensures active[n + 1] <==> n in SessionStarts(states, events) || (active[n] && n !in SessionStops(events))
      ensures probe[n + 1] <==> n in TestStarts(states, events) || (probe[n] && n !in TestStops(states, events))
    {
      hide Step, TestBegins, TestEnds;
      assert Next(states[n], events[n], states[n + 1]);
      OwnershipStep(states[n], events[n]);
    }
    H.FlagIsHistory(active, SessionStarts(states, events), SessionStops(events), k);
    H.FlagIsHistory(probe, TestStarts(states, events), TestStops(states, events), k);
  }

  // ---- Threads without an owner ----

  /** A stop in which a thread other than the last one joined had panicked. */
  predicate DropsHandles(o: Owner, e: Event) {
    e.CaptureStop? && o.active.Some? && |e.panics| == |o.active.value| && true in e.panics[..Max(|e.panics| - 1, 0)]
  }

  /** Capture threads that no session owns any more. */
  function Orphans(o: Owner): set<nat> {
    o.captureThreads - (if o.active.Some? then Threads(o.active.value) else {})
  }

  lemma {:induction false} JoinsAllUnlessEarlyPanic(handles: seq<nat>, panics: seq<bool>)
    requires |panics| == |handles|
    ensures JoinedCount(handles, panics) < |handles| <==> true in panics[..Max(|panics| - 1, 0)]
  {
    if |handles| > 1 {
      var early, later := panics[..|panics| - 1], panics[1..][..|panics| - 2];
      assert early == [panics[0]] + later;
      JoinsAllUnlessEarlyPanic(handles[1..], panics[1..]);
    }
  }

  lemma StopOrphans(o: Owner, panics: seq<bool>)
    requires Inv(o) && o.active.Some? && |panics| == |o.active.value|
    ensures Orphans(o) <= Orphans(StopCapture(o, panics).0)
    ensures DropsHandles(o, CaptureStop(panics)) ==> Orphans(StopCapture(o, panics).0) != {}
    ensures !DropsHandles(o, CaptureStop(panics)) ==> Orphans(StopCapture(o, panics).0) == Orphans(o)
  {
    var handles := o.active.value;
    var n := JoinedCount(handles, panics);
    JoinsAllUnlessEarlyPanic(handles, panics);
    assert Threads(handles[..n]) <= Threads(handles);
    if n < |handles| {
      assert handles[n] in Threads(handles) && handles[n] !in Threads(handles[..n]);
      assert handles[n] in Orphans(StopCapture(o, panics).0);
    } else {
      assert handles[..n] == handles;
    }
  }

  lemma StepOrphans(o: Owner, e: Event)
    requires Inv(o) && Enabled(o, e)
    ensures Orphans(o) <= Orphans(Step(o, e).0)
    ensures Orphans(Step(o, e).0) == {} <==> Orphans(o) == {} && !DropsHandles(o, e)
  {
    if e.CaptureStop? && o.active.Some? { StopOrphans(o, e.panics); }
  }

  /** Exactly when capture threads can outlive their session: when some stop met a panic before
      its last handle. The manager then reports the failure and drops the remaining handles. */
  lemma {:induction false} OrphansIffHandlesDropped(states: seq<Owner>, events: seq<Event>, k: nat)
    requires Run(states, events) && k < |states|
    ensures Orphans(states[k]) != {} <==> exists i :: 0 <= i < k && DropsHandles(states[i], events[i])
  {
    if k > 0 {
      OrphansIffHandlesDropped(states, events, k - 1);
      RunKeepsInv(states, events, k - 1);
      assert Next(states[k - 1], events[k - 1], states[k]);
      StepOrphans(states[k - 1], events[k - 1]);
    }
  }

  /** So a probe thread and a capture thread are both un-joined exactly when a probe is owned
      after such a stop. */
  lemma OverlapExactlyAfterDroppedHandles(states: seq<Owner>, events: seq<Event>, k: nat)
    requires Run(states, events) && k < |states|
    ensures states[k].probeThreads != {} && states[k].captureThreads != {} <==>
              states[k].probe.Some? && exists i :: 0 <= i < k && DropsHandles(states[i], events[i])
  {
    RunKeepsInv(states, events, k);
    OrphansIffHandlesDropped(states, events, k);
  }

  /** And after such a stop it does happen: a new microphone test opens beside an un-joined capture thread. */
  lemma DroppedHandleCanOverlap()
    ensures exists states: seq<Owner>, events: seq<Event> :: Run(states, events) && |events| == 3
              && states[3].probeThreads != {} && states[3].captureThreads != {}
  {
    var events := [CaptureStart(Joined, 2, IsReady), CaptureStop([true, false]), MicTestStart(true, IsReady)];
    var first, second, third := Step(NOBODY, events[0]).0, NOBODY.(spawned := 2, captureThreads := {1}),
                                Owner(None, Some(2), 3, {2}, {1});
    assert Handles(0, 2) == [0, 1];
    assert first.active == Some([0, 1]) && first.spawned == 2 && first.probe.None?;
    assert Threads([0, 1]) == {0, 1} by { assert [0, 1][0] == 0 && [0, 1][1] == 1; }
    assert JoinedCount([0, 1], [true, false]) == 1;
    assert [0, 1][..1] == [0] && Threads([0]) == {0};
    var states := [NOBODY, first, second, third];
    assert Next(states[0], events[0], states[1]);
    assert Next(states[1], events[1], states[2]);
    assert Next(states[2], events[2], states[3]);
    assert Run(states, events);
  }

  /** The manager's fields. The sets of un-joined threads are ghost. */
  class CaptureManager {
    var active: Option<seq<nat>>
    var microphoneProbe: Option<nat>
    var spawned: nat
    ghost var probeThreads: set<nat>
    ghost var captureThreads: set<nat>

    ghost function View(): Owner
      reads this
    {
      Owner(active, microphoneProbe, spawned, probeThreads, captureThreads)
    }

    constructor ()
      ensures View() == NOBODY
    {
      active, microphoneProbe, spawned, probeThreads, captureThreads := None, None, 0, {}, {};
    }

    /** mic_test_start, given whether the device resolved and what the new thread announced. */
    method MicTestStart(resolved: bool, ready: Ready) returns (reply: Reply)
      requires Inv(View())
      modifies this
      ensures Inv(View()) && (View(), reply) == Step(old(View()), Event.MicTestStart(resolved, ready))
    {
      StepKeepsInv(View(), Event.MicTestStart(resolved, ready));
      if active.Some? { return AlreadyActive; }
      if microphoneProbe.Some? { return TestActive; }
      if !resolved { return StartFailed; }
      var thread := spawned;
      spawned := spawned + 1;
      if ready.Refused? {
        // The thread announced its failure; it is joined before the error is returned.
        return StartFailed;
      }
      microphoneProbe := Some(thread);
      probeThreads := probeThreads + {thread};
      reply := if ready.IsReady? then Fine else StartFailed;
    }

    /** mic_test_stop_with_timeout: the probe is taken, and put back when the join times out. */
    method MicTestStop(join: Join) returns (reply: Reply)
      requires Inv(View())
      modifies this
      ensures Inv(View()) && (View(), reply) == Step(old(View()), Event.MicTestStop(join))
    {
      var taken := microphoneProbe;
      microphoneProbe := None;
      if taken.None? { return Fine; }
      match join
      case TimedOut =>
        microphoneProbe := taken;
        reply := StopTimedOut;
      case Joined =>
        probeThreads := probeThreads - {taken.value};
        reply := Fine;
      case Panicked =>
        probeThreads := probeThreads - {taken.value};
        reply := ThreadFailed;
    }

    /** start_mic and its siblings: stop any probe, spawn, wait for every thread to be ready. */
    method StartCapture(join: Join, threads: nat, ready: Ready) returns (reply: Reply)
      requires Inv(View())
      modifies this
      ensures Inv(View()) && (View(), reply) == Step(old(View()), CaptureStart(join, threads, ready))
    {
      StepKeepsInv(View(), CaptureStart(join, threads, ready));
      if active.Some? { return AlreadyActive; }
      if microphoneProbe.Some? {
        var stopped := MicTestStop(join);
        if !stopped.Fine? { return stopped; }
      }
      var handles := Handles(spawned, threads);
      spawned := spawned + threads;
      if !ready.IsReady? { return StartFailed; }
      active := Some(handles);
      captureThreads := captureThreads + Threads(handles);
      reply := Fine;
    }

    /** stop: joins the session's threads in order until one has panicked. */
    method Stop(panics: seq<bool>) returns (reply: Reply)
      requires Inv(View()) && (active.Some? ==> |panics| == |active.value|)
      modifies this
      ensures Inv(View()) && (View(), reply) == Step(old(View()), CaptureStop(panics))
    {
      StepKeepsInv(View(), CaptureStop(panics));
      var taken := active;
      active := None;
      if taken.None? { return NotActive; }
      var joined, failed := JoinInOrder(taken.value, panics);
      captureThreads := captureThreads - Threads(taken.value[..joined]);
      reply := if failed then ThreadFailed else Fine;
    }
  }

  /** The join loops of stop, with their early return. */
  method JoinInOrder(handles: seq<nat>, panics: seq<bool>) returns (joined: nat, failed: bool)
    requires |panics| == |handles|
    ensures joined == JoinedCount(handles, panics)
    ensures failed <==> true in panics
  {
    joined, failed := 0, false;
    while joined < |handles|
      invariant joined <= |handles|
      invariant true !in panics[..joined]
      invariant JoinedCount(handles, panics) == joined + JoinedCount(handles[joined..], panics[joined..])
    {
      joined := joined + 1;
      if panics[joined - 1] {
        return joined, true;
      }
    }
  }
}
