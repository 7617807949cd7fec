/** The recorder's global shortcut: queued operations that register, persist and then commit
    or roll back, with suspend and dispose landing synchronously at any await. */
module GlobalShortcut {
  import opened Common
  import H = Histories

  datatype Settings = Settings(enabled: bool, accelerator: string)

  datatype Runtime = Disabled | Registered | Conflict | Unavailable | Disposed

  /** What the OS adapter answers: it may also throw after or before the binding took hold. */
  datatype Registration = Accepted | Refused | ThrewAfterBinding | ThrewBefore

  /** Where the one running operation waits; queued operations wait in Idle. */
  datatype Op =
    | Idle
    | InitReading(configure: Option<bool>)
    | Ready(enabled: bool)
    | Disabling(desired: Settings)
    | Renewing(desired: Settings)
    | Registering(desired: Settings, previousSettings: Settings, previousActive: Option<string>, previousState: Runtime)
    | Resuming

  /** The service's fields, the bindings the OS holds for it, and the settings file. */
  datatype State = State(
    settings: Settings,
    active: Option<string>,
    pending: Option<string>,
    state: Runtime,
    initialized: bool,
    suspended: bool,
    disposed: bool,
    op: Op,
    held: set<string>,
    store: Settings)

  datatype Event =
    | StartInitialize
    | StartConfigure(enabled: bool)
    | InitialRead(read: Option<Settings>, reg: Registration)
    | Continue(accelerator: Option<string>, reg: Registration)
    | PersistDone(ok: bool)
    | StartResume
    | ResumeRead(read: Option<Settings>, reg: Registration)
    | Suspend
    | Dispose

  ghost predicate Init(s: State) {
    s == State(s.settings, None, None, Disabled, false, false, false, Idle, {}, s.store)
  }

  predicate Operational(s: State) { !s.disposed && !s.suspended }

  predicate Enabled(s: State, e: Event) {
    match e
    case StartInitialize => s.op.Idle?
    case StartConfigure(_) => s.op.Idle?
    case InitialRead(_, _) => s.op.InitReading?
    case Continue(_, _) => s.op.Ready?
    case PersistDone(_) => s.op.Disabling? || s.op.Renewing? || s.op.Registering?
    case StartResume => s.op.Idle?
    case ResumeRead(_, _) => s.op.Resuming?
    case Suspend => true
    case Dispose => true
  }

  function Without(held: set<string>, accelerator: Option<string>): set<string> {
    if accelerator.Some? then held - {accelerator.value} else held
  }

  /** registerOrThrow: the bindings afterwards; after an exception a cleanup is always issued. */
  function HeldAfter(held: set<string>, accelerator: string, reg: Registration): set<string> {
    match reg
    case Accepted => held + {accelerator}
    case Refused => held
    case _ => held - {accelerator}
  }

  function FailureState(reg: Registration): Runtime {
    if reg.Refused? then Conflict else Unavailable
  }

  /** Both suspend and dispose drop every binding the service knows of. */
  function Released(s: State): State {
    s.(held := Without(Without(s.held, s.active), s.pending), active := None, pending := None)
  }

  function AfterInit(configure: Option<bool>): Op {
    if configure.Some? then Ready(configure.value) else Idle
  }

  function OnInitialRead(s: State, read: Option<Settings>, reg: Registration): State
    requires s.op.InitReading?
  {
    if read.None? then s.(op := Idle)
    else
      var settings := read.value;
      var known := s.(settings := settings);
      if !Operational(s) then known.(op := Idle)
      else
        var next := known.(initialized := true, op := AfterInit(s.op.configure));
        if !settings.enabled then next.(state := Disabled)
        else
          var bound := next.(held := HeldAfter(s.held, settings.accelerator, reg));
          if reg.Accepted? then bound.(active := Some(settings.accelerator), state := Registered)
          else bound.(state := FailureState(reg))
  }

  function OnContinue(s: State, accelerator: Option<string>, reg: Registration): State
    requires s.op.Ready?
  {
    if accelerator.None? then s.(op := Idle)
    else
      var desired := Settings(s.op.enabled, accelerator.value);
      if !desired.enabled then s.(op := Disabling(desired))
      else if s.active == accelerator then s.(op := Renewing(desired))
      else
        var bound := s.(held := HeldAfter(s.held, desired.accelerator, reg));
        if reg.Accepted? then bound.(pending := accelerator, op := Registering(desired, s.settings, s.active, s.state))
        else bound.(op := Idle)
  }

  function OnPersistDone(s: State, ok: bool): State
    requires s.op.Disabling? || s.op.Renewing? || s.op.Registering?
  {
    var desired := s.op.desired;
    var written := s.(op := Idle, store := if ok then desired else s.store);
    match s.op
    case Disabling(_) =>
      if !ok || !Operational(s) then written
      else written.(settings := desired, active := None, state := Disabled, held := Without(s.held, s.active))
    case Renewing(_) =>
      if !ok || !Operational(s) then written
      else written.(settings := desired, state := Registered)
    case Registering(_, previousSettings, previousActive, previousState) =>
      if !ok then
        written.(held := s.held - {desired.accelerator}, pending := None,
                 settings := previousSettings, active := previousActive, state := previousState)
      else if !Operational(s) then
        written.(held := s.held - {desired.accelerator}, pending := None)
      else
        written.(settings := desired, active := Some(desired.accelerator), pending := None, state := Registered,
                 held := if previousActive == Some(desired.accelerator) then s.held else Without(s.held, previousActive))
  }

  function OnResumeRead(s: State, read: Option<Settings>, reg: Registration): State
    requires s.op.Resuming?
  {
    if s.disposed then s.(op := Idle)
    else
      var settings := if read.Some? then read.value else s.settings;
      var next := s.(op := Idle, settings := settings, initialized := true, suspended := false);
      if !settings.enabled then next.(state := Disabled)
      else
        var bound := next.(held := HeldAfter(s.held, settings.accelerator, reg));
        if reg.Accepted? then bound.(active := Some(settings.accelerator), state := Registered)
        else bound.(active := None, state := FailureState(reg))
  }

  function Step(s: State, e: Event): State
    requires Enabled(s, e)
  {
    match e
    case StartInitialize => if Operational(s) && !s.initialized then s.(op := InitReading(None)) else s
    case StartConfigure(enabled) =>
      if !Operational(s) then s
      else if s.initialized then s.(op := Ready(enabled))
      else s.(op := InitReading(Some(enabled)))
    case InitialRead(read, reg) => OnInitialRead(s, read, reg)
    case Continue(accelerator, reg) => OnContinue(s, accelerator, reg)
    case PersistDone(ok) => OnPersistDone(s, ok)
    case StartResume => if !s.disposed && s.suspended then s.(op := Resuming) else s
    case ResumeRead(read, reg) => OnResumeRead(s, read, reg)
    case Suspend =>
      if s.disposed || s.suspended then s
      else Released(s).(suspended := true, state := if s.settings.enabled then Unavailable else Disabled)
    case Dispose =>
      if s.disposed then s else Released(s).(disposed := true, suspended := false, state := Disposed)
  }

  // ---- No leaked bindings ----

  function Present(accelerator: Option<string>): set<string> {
    if accelerator.Some? then {accelerator.value} else {}
  }

  ghost predicate Inv(s: State) {
    && s.held <= Present(s.active) + Present(s.pending)
    && (!Operational(s) ==> s.held <= Present(s.pending))
    && (s.pending.Some? ==> s.op.Registering? && s.pending == Some(s.op.desired.accelerator))
    && (!Operational(s) && (s.op.Ready? || s.op.Registering?) ==> s.active.None?)
    && (s.op.Resuming? ==> !Operational(s))
    && (!s.initialized ==> s.active.None? && s.held == {})
    && (s.op.Ready? || s.op.Disabling? || s.op.Renewing? || s.op.Registering? ==> s.initialized)
    && (s.op.InitReading? ==> !s.initialized)
    && (s.op.Disabling? ==> !s.op.desired.enabled)
    && (s.op.Renewing? ==> s.op.desired.enabled && (Operational(s) ==> s.active == Some(s.op.desired.accelerator)))
    && (s.op.Registering? ==>
          && s.op.desired.enabled
          && s.op.previousActive != Some(s.op.desired.accelerator)
          && (s.active.None? || s.active == s.op.previousActive))
    && (s.op.Registering? && Operational(s) ==>
          && s.active == s.op.previousActive
          && s.settings == s.op.previousSettings
          && s.state == s.op.previousState
          && s.pending == Some(s.op.desired.accelerator)
          && s.op.desired.accelerator in s.held)
  }

  lemma StepKeepsInv(s: State, e: Event)
    requires Inv(s) && Enabled(s, e)
    ensures Inv(Step(s, e))
  {}

  ghost predicate Next(s: State, e: Event, s': State) {
    Enabled(s, e) && s' == Step(s, e)
  }

  ghost predicate Run(states: seq<State>, events: seq<Event>) {
    && |states| == |events| + 1
    && Init(states[0])
    && forall k | 0 <= k < |events| :: Next(states[k], events[k], states[k + 1])
  }

  lemma {:induction false} RunKeepsInv(states: seq<State>, events: seq<Event>, k: nat)
    requires Run(states, events) && k <= |events|
    ensures Inv(states[k])
  {
    if k > 0 {
      RunKeepsInv(states, events, k - 1);
      assert Next(states[k - 1], events[k - 1], states[k]);
      StepKeepsInv(states[k - 1], events[k - 1]);
    }
  }

  /** No binding leaks: at every await point of every run, wherever suspend and dispose land,
      the OS holds nothing the service does not know of; once disposed or suspended it holds at
      most the binding still being persisted, and nothing at all once the queue has drained. */
  lemma NoLeakedBinding(states: seq<State>, events: seq<Event>, k: nat)
    requires Run(states, events) && k <= |events|
    ensures states[k].held <= Present(states[k].active) + Present(states[k].pending)
    ensures !Operational(states[k]) ==> states[k].held <= Present(states[k].pending)
    ensures !Operational(states[k]) && states[k].op.Idle? ==> states[k].held == {}
  {
    RunKeepsInv(states, events, k);
  }

  /** Disposal is final. */
  lemma {:induction false} DisposedForGood(states: seq<State>, events: seq<Event>, j: nat, k: nat)
    requires Run(states, events) && j <= k <= |events| && states[j].disposed
    ensures states[k].disposed
    decreases k
  {
    if j < k {
      DisposedForGood(states, events, j, k - 1);
      assert Next(states[k - 1], events[k - 1], states[k]);
    }
  }

  // ---- Configure commits or rolls back ----

  /** The active binding is really held. */
  predicate Bound(s: State) { s.active.Some? ==> s.active.value in s.held }

  /** The promise queue is built into `Enabled`: while a configuration waits for the settings file
      no other queued operation runs, so only suspend and dispose can intervene. */
  lemma OnlyLifecycleIntervenes(s: State, e: Event)
    requires s.op.Disabling? || s.op.Renewing? || s.op.Registering?
    ensures Enabled(s, e) <==> e.PersistDone? || e.Suspend? || e.Dispose?
  {}

  /** A configure that is not interrupted by suspend or dispose is a transaction, from every
      state: a refused one leaves everything as it was, and a failed write rolls settings, file and
      binding back. A successful one commits settings and file, and the binding with them if and
      only if it is not the renewal of an active binding that is no longer held. */
  lemma ConfigureIsAtomic(s: State, accelerator: Option<string>, reg: Registration, ok: bool)
    requires Inv(s) && Operational(s) && s.op.Ready?
    ensures var asked := Step(s, Continue(accelerator, reg));
            (asked.op.Idle? <==> accelerator.None? || (s.op.enabled && s.active != accelerator && !reg.Accepted?))
    ensures var asked := Step(s, Continue(accelerator, reg));
            if asked.op.Idle? then asked == s.(op := Idle)
            else
              var desired := Settings(s.op.enabled, accelerator.value);
              var done := Step(asked, PersistDone(ok));
              if ok then
                && done.op.Idle? && done.settings == desired && done.store == desired
                && done.active == (if desired.enabled then accelerator else None)
                && done.state == (if desired.enabled then Registered else Disabled)
                && (done.held == Present(done.active) <==> Bound(s) || !asked.op.Renewing?)
                && (asked.op.Renewing? <==> desired.enabled && s.active == accelerator)
              else done == s.(op := Idle)
  {
    var asked := Step(s, Continue(accelerator, reg));
    if accelerator.Some? && s.op.enabled && s.active != accelerator {
      assert accelerator.value !in s.held;
      assert (s.held + {accelerator.value}) - {accelerator.value} == s.held;
      assert s.held - {accelerator.value} == s.held;
    }
  }

  // ---- What initialize and resume do ----

  /** A first read of an operational service takes over the settings, binds the shortcut if and
      only if it is enabled and the OS accepts it, and says why not otherwise; then the operation
      that asked for it goes on. */
  lemma InitialReadExactly(s: State, read: Settings, reg: Registration)
    requires Inv(s) && Operational(s) && s.op.InitReading?
    ensures var t := Step(s, InitialRead(Some(read), reg));
            && t.settings == read && t.initialized && Operational(t) && t.store == s.store && t.pending.None?
            && (StatusRegistered(t) <==> read.enabled && reg.Accepted?)
            && t.held == Present(t.active) == (if read.enabled && reg.Accepted? then {read.accelerator} else {})
            && (t.state.Disabled? <==> !read.enabled)
            && (t.state.Conflict? <==> read.enabled && reg.Refused?)
            && (t.state.Unavailable? <==> read.enabled && (reg.ThrewAfterBinding? || reg.ThrewBefore?))
            && (s.op.configure.None? ==> t.op.Idle?)
            && (s.op.configure.Some? ==> t.op == Ready(s.op.configure.value))
  {}

  /** A read that fails, or that finds the service stopped, binds nothing and ends the operation. */
  lemma InitialReadGivesUp(s: State, read: Option<Settings>, reg: Registration)
    requires Inv(s) && s.op.InitReading? && (read.None? || !Operational(s))
    ensures var t := Step(s, InitialRead(read, reg));
            && t.op.Idle? && t.held == {} && t.active.None? && !t.initialized && t.state == s.state
            && t.settings == (if read.Some? then read.value else s.settings)
  {}

  /** A resumed service is back in operation with the settings it read, or those it had, and its
      shortcut is bound if and only if it is enabled and the OS accepts it. */
  lemma ResumeExactly(s: State, read: Option<Settings>, reg: Registration)
    requires Inv(s) && s.op.Resuming? && !s.disposed
    ensures var t := Step(s, ResumeRead(read, reg));
            var settings := if read.Some? then read.value else s.settings;
            && t.op.Idle? && Operational(t) && t.initialized && t.settings == settings && t.store == s.store
            && (StatusRegistered(t) <==> settings.enabled && reg.Accepted?)
            && t.held == (if settings.enabled && reg.Accepted? then {settings.accelerator} else {})
            && (t.state.Disabled? <==> !settings.enabled)
            && (t.state.Conflict? <==> settings.enabled && reg.Refused?)
            && (t.state.Unavailable? <==> settings.enabled && (reg.ThrewAfterBinding? || reg.ThrewBefore?))
            && (settings.enabled && !reg.Accepted? ==> t.active.None?)
  {}

  /** A service disposed in the meantime is left as it is. */
  lemma ResumeGivesUp(s: State, read: Option<Settings>, reg: Registration)
    requires s.op.Resuming? && s.disposed
    ensures Step(s, ResumeRead(read, reg)) == s.(op := Idle)
  {}

  /** Suspending or disposing releases the active and the pending binding, forgets both, and says
      why nothing is bound; a second time it does nothing. */
  lemma StopsExactly(s: State, dispose: bool)
    requires Inv(s)
    ensures var t := Step(s, if dispose then Dispose else Suspend);
            if s.disposed || (!dispose && s.suspended) then t == s
            else
              && t.active.None? && t.pending.None? && t.held == {}
              && t.settings == s.settings && t.store == s.store && t.op == s.op
              && t.state == (if dispose then Disposed else if s.settings.enabled then Unavailable else Disabled)
  {}

  /** From a service at rest: configure waits for the settings once and is refused while stopped,
      initialize reads them once, and resume does something only for a suspended service. */
  lemma StartsExactly(s: State, enabled: bool)
    requires Inv(s) && s.op.Idle?
    ensures var t := Step(s, StartConfigure(enabled));
            && t == s.(op := t.op) && (t.op.Idle? <==> !Operational(s))
            && (Operational(s) && s.initialized ==> t.op == Ready(enabled))
            && (Operational(s) && !s.initialized ==> forall read: Settings, reg: Registration ::
                  Enabled(t, InitialRead(Some(read), reg)) && Step(t, InitialRead(Some(read), reg)).op == Ready(enabled))
    ensures var t := Step(s, StartInitialize);
            && t == s.(op := t.op) && (t.op.Idle? <==> !Operational(s) || s.initialized)
            && (!t.op.Idle? ==> t.op == InitReading(None))
    ensures var t := Step(s, StartResume);
            && t == s.(op := t.op) && (t.op.Idle? <==> s.disposed || !s.suspended)
            && (!t.op.Idle? ==> t.op.Resuming?)
  {}

  /** A write that ends after the service was stopped commits nothing but the file: the settings, the
      status and the released bindings stay as they are, except that a failed registration puts
      back what it found. */
  lemma StoppedConfigureCommitsNothing(s: State, ok: bool)
    requires Inv(s) && !Operational(s) && (s.op.Disabling? || s.op.Renewing? || s.op.Registering?)
    ensures var t := Step(s, PersistDone(ok));
            && t.op.Idle? && t.held == {} && t.pending.None? && t.store == (if ok then s.op.desired else s.store)
            && (ok || !s.op.Registering? ==> t.settings == s.settings && t.state == s.state && t.active == s.active)
            && (!ok && s.op.Registering? ==>
                  && t.settings == s.op.previousSettings && t.active == s.op.previousActive && t.state == s.op.previousState)
  {
    if s.op.Registering? { assert s.held - {s.op.desired.accelerator} == {}; }
  }

  // ---- When "registered" is true ----

  predicate StatusRegistered(s: State) {
    s.active == Some(s.settings.accelerator) && s.state.Registered?
  }

  /** The one branch that leaves an active binding unheld: a configuration that fails to persist
      rolls its fields back after a suspend or dispose has already released the old binding. */
  predicate RollsBackWhileStopped(s: State, e: Event) {
    e.PersistDone? && !e.ok && s.op.Registering? && !Operational(s) && s.op.previousActive.Some?
  }

  /** What makes an unheld active binding right again: it is dropped, replaced or registered anew. */
  predicate Rebinds(s: State, e: Event) {
    match e
    case PersistDone(ok) => ok && Operational(s) && (s.op.Disabling? || s.op.Registering?)
    case ResumeRead(read, _) =>
      s.op.Resuming? && !s.disposed && (if read.Some? then read.value else s.settings).enabled
    case Suspend => Operational(s)
    case Dispose => !s.disposed
    case _ => false
  }

  lemma BoundExactly(s: State, e: Event)
    requires Inv(s) && Enabled(s, e)
    ensures Bound(Step(s, e)) <==> (Bound(s) && !RollsBackWhileStopped(s, e)) || Rebinds(s, e)
  {}

  ghost function RollBacks(states: seq<State>, events: seq<Event>): set<nat>
    requires |states| == |events| + 1
  {
    set j: nat | j < |events| && RollsBackWhileStopped(states[j], events[j])
  }

  ghost function Rebindings(states: seq<State>, events: seq<Event>): set<nat>
    requires |states| == |events| + 1
  {
    set j: nat | j < |events| && Rebinds(states[j], events[j])
  }

  /** The active binding went stale at some point and has not been put right since. */
  ghost predicate Stale(states: seq<State>, events: seq<Event>, k: nat)
    requires |states| == |events| + 1
  {
    H.Since(RollBacks(states, events), Rebindings(states, events), k)
  }

  lemma StaleStep(states: seq<State>, events: seq<Event>, n: nat)
    requires |states| == |events| + 1 && n < |events|
    ensures Stale(states, events, n + 1) <==>
      RollsBackWhileStopped(states[n], events[n]) || (Stale(states, events, n) && !Rebinds(states[n], events[n]))
  {
    hide RollsBackWhileStopped, Rebinds, H.Since;
    H.SinceStep(RollBacks(states, events), Rebindings(states, events), n);
  }

  /** Over every run, operational or not, the active binding is held exactly unless it is stale. */
  lemma {:induction false} BoundUnlessStale(states: seq<State>, events: seq<Event>, k: nat)
    requires Run(states, events) && k <= |events|
    ensures Bound(states[k]) <==> !Stale(states, events, k)
  {
    if k > 0 {
      BoundUnlessStale(states, events, k - 1);
      RunKeepsInv(states, events, k - 1);
      assert Next(states[k - 1], events[k - 1], states[k]);
      BoundExactly(states[k - 1], events[k - 1]);
      StaleStep(states, events, k - 1);
    }
  }

  /** When the status is true: at every point of every run, running, suspended or disposed, a
      shortcut reported as registered is held if and only if the active binding is not stale;
      then nothing else is held but a binding being persisted. */
  lemma RegisteredMeansHeld(states: seq<State>, events: seq<Event>, k: nat)
    requires Run(states, events) && k <= |events| && StatusRegistered(states[k])
    ensures states[k].settings.accelerator in states[k].held <==> !Stale(states, events, k)
    ensures !Stale(states, events, k) ==>
              states[k].held == {states[k].settings.accelerator} + Present(states[k].pending)
  {
    RunKeepsInv(states, events, k);
    BoundUnlessStale(states, events, k);
  }

  // ---- When the shortcut is bound ----

  /** The accelerator a step binds: the first read, a resume or a stored configuration, enabled
      and accepted by the OS, of a service in operation. */
  function Grants(s: State, e: Event): Option<string> {
    match e
    case InitialRead(Some(read), reg) =>
      if Operational(s) && read.enabled && reg.Accepted? then Some(read.accelerator) else None
    case ResumeRead(read, reg) =>
      var settings := if read.Some? then read.value else s.settings;
      if !s.disposed && settings.enabled && reg.Accepted? then Some(settings.accelerator) else None
    case PersistDone(ok) =>
      if ok && Operational(s) && s.op.Registering? then Some(s.op.desired.accelerator) else None
    case _ => None
  }

  /** A step that unbinds it: suspend, dispose, or a stored configuration that disables it. */
  predicate Withdraws(s: State, e: Event) {
    match e
    case Suspend => Operational(s)
    case Dispose => !s.disposed
    case PersistDone(ok) => ok && Operational(s) && s.op.Disabling?
    case _ => false
  }

  predicate Holding(s: State) { s.active.Some? && s.active.value in s.held }

  lemma GrantStep(s: State, e: Event)
    requires Inv(s) && Enabled(s, e)
    ensures var t := Step(s, e);
            && (Holding(t) <==> Grants(s, e).Some? || (Holding(s) && !Withdraws(s, e)))
            && (Grants(s, e).Some? ==> t.active == Grants(s, e))
            && (Grants(s, e).None? && Holding(s) && !Withdraws(s, e) ==> t.active == s.active)
  {}

  /** Bound at step j and neither replaced nor withdrawn up to step k. */
  ghost predicate GrantedAt(states: seq<State>, events: seq<Event>, j: nat, k: nat)
    requires |states| == |events| + 1 && k <= |events|
  {
    && j < k && Grants(states[j], events[j]).Some?
    && forall i | j < i < k :: Grants(states[i], events[i]).None? && !Withdraws(states[i], events[i])
  }

  /** Over every run the active accelerator is held exactly from the last step that bound it on,
      and it is the one that step bound. */
  lemma {:induction false} HeldSinceGranted(states: seq<State>, events: seq<Event>, j: nat, k: nat)
    requires Run(states, events) && k <= |events| && GrantedAt(states, events, j, k)
    ensures Holding(states[k]) && states[k].active == Grants(states[j], events[j])
    decreases k
  {
    hide Inv, Step, Withdraws, Holding;
    RunKeepsInv(states, events, k - 1);
    assert Next(states[k - 1], events[k - 1], states[k]);
    GrantStep(states[k - 1], events[k - 1]);
    if j < k - 1 {
      HeldSinceGranted(states, events, j, k - 1);
    }
  }

  lemma {:induction false} HeldOnlyIfGranted(states: seq<State>, events: seq<Event>, k: nat)
    requires Run(states, events) && k <= |events| && Holding(states[k])
    ensures exists j: nat :: GrantedAt(states, events, j, k)
  {
    assert k > 0;
    var n := k - 1;
    RunKeepsInv(states, events, n);
    assert Next(states[n], events[n], states[k]);
    GrantStep(states[n], events[n]);
    if Grants(states[n], events[n]).Some? {
      assert GrantedAt(states, events, n, k);
    } else {
      HeldOnlyIfGranted(states, events, n);
      var j: nat :| GrantedAt(states, events, j, n);
      assert GrantedAt(states, events, j, k);
    }
  }

  /** What is active agrees with the settings while the service operates. */
  ghost predicate Agrees(s: State) {
    Operational(s) ==>
      && (s.settings.enabled && s.active.Some? ==> s.active.value == s.settings.accelerator)
      && (!s.settings.enabled ==> s.held <= Present(s.pending))
  }

  lemma StepKeepsAgrees(s: State, e: Event)
    requires Inv(s) && Agrees(s) && Enabled(s, e)
    ensures Agrees(Step(s, e))
  {}

  lemma {:induction false} RunKeepsAgrees(states: seq<State>, events: seq<Event>, k: nat)
    requires Run(states, events) && k <= |events|
    ensures Agrees(states[k])
  {
    if k > 0 {
      RunKeepsAgrees(states, events, k - 1);
      RunKeepsInv(states, events, k - 1);
      assert Next(states[k - 1], events[k - 1], states[k]);
      StepKeepsAgrees(states[k - 1], events[k - 1]);
    }
  }

  /** Over every run, whenever the service operates and its queue has drained, the OS holds the
      configured accelerator if the shortcut is enabled and was bound and not withdrawn since,
      and otherwise nothing. */
  lemma EnabledShortcutIsHeldExactlyWhenGranted(states: seq<State>, events: seq<Event>, k: nat)
    requires Run(states, events) && k <= |events| && Operational(states[k]) && states[k].op.Idle?
    ensures states[k].held ==
            if states[k].settings.enabled && (exists j: nat :: GrantedAt(states, events, j, k))
            then {states[k].settings.accelerator} else {}
  {
    RunKeepsInv(states, events, k);
    RunKeepsAgrees(states, events, k);
    if Holding(states[k]) { HeldOnlyIfGranted(states, events, k); }
    if j: nat :| GrantedAt(states, events, j, k) { HeldSinceGranted(states, events, j, k); }
  }

  // ---- Suspended and disposed ----

  ghost function Suspensions(states: seq<State>, events: seq<Event>): set<nat>
    requires |states| == |events| + 1
  {
    set j: nat | j < |events| && events[j].Suspend? && Operational(states[j])
  }

  /** What ends a suspension: a resume whose settings were read, or disposal. */
  ghost function Resumptions(states: seq<State>, events: seq<Event>): set<nat>
    requires |states| == |events| + 1
  {
    set j: nat | j < |events| && (events[j].Dispose? || (events[j].ResumeRead? && !states[j].disposed))
  }

  /** Over every run the service is suspended exactly between a suspend and a resume or disposal,
      and disposed exactly once it was asked to be. */
  lemma StoppedExactly(states: seq<State>, events: seq<Event>, k: nat)
    requires Run(states, events) && k <= |events|
    ensures states[k].suspended <==> H.Since(Suspensions(states, events), Resumptions(states, events), k)
    ensures states[k].disposed <==> exists j | 0 <= j < k :: events[j].Dispose?
  {
    var flags := seq(|states|, i requires 0 <= i < |states| => states[i].suspended);
    forall n: nat | n < k
      ensures flags[n + 1] <==> n in Suspensions(states, events) || (flags[n] && n !in Resumptions(states, events))
    {
      RunKeepsInv(states, events, n);
      DisposedExactly(states, events, n);
      assert Next(states[n], events[n], states[n + 1]);
      StoppedStep(states[n], events[n]);
    }
    H.FlagIsHistory(flags, Suspensions(states, events), Resumptions(states, events), k);
    DisposedExactly(states, events, k);
  }

  lemma StoppedStep(s: State, e: Event)
    requires Inv(s) && Enabled(s, e) && !(s.suspended && s.disposed)
    ensures !(Step(s, e).suspended && Step(s, e).disposed)
    ensures Step(s, e).suspended <==>
            (e.Suspend? && Operational(s)) || (s.suspended && !(e.Dispose? || (e.ResumeRead? && !s.disposed)))
    ensures Step(s, e).disposed <==> s.disposed || e.Dispose?
  {}

  lemma {:induction false} DisposedExactly(states: seq<State>, events: seq<Event>, k: nat)
    requires Run(states, events) && k <= |events|
    ensures states[k].disposed <==> exists j | 0 <= j < k :: events[j].Dispose?
    ensures !(states[k].suspended && states[k].disposed)
  {
    if k > 0 {
      DisposedExactly(states, events, k - 1);
      RunKeepsInv(states, events, k - 1);
      assert Next(states[k - 1], events[k - 1], states[k]);
      StoppedStep(states[k - 1], events[k - 1]);
    }
  }

  ghost predicate Reachable(s: State) {
    exists states, events :: Run(states, events) && states[|events|] == s
  }

  lemma ReachNext(s: State, e: Event) returns (s': State)
    requires Reachable(s) && Enabled(s, e)
    ensures s' == Step(s, e) && Reachable(s')
  {
    s' := Step(s, e);
    var states, events :| Run(states, events) && states[|events|] == s;
    var more, all := states + [s'], events + [e];
    forall k | 0 <= k < |all|
      ensures Next(more[k], all[k], more[k + 1])
    {
      if k < |events| { assert Next(states[k], events[k], states[k + 1]); }
    }
    assert Run(more, all) && more[|all|] == s';
  }

  lemma ReachRegistered(off: Settings, p: string) returns (s: State)
    requires !off.enabled
    ensures Reachable(s)
    ensures s == State(Settings(true, p), Some(p), None, Registered, true, false, false, Idle, {p}, Settings(true, p))
  {
    s := State(off, None, None, Disabled, false, false, false, Idle, {}, off);
    assert Run([s], []) && [s][0] == s;
    s := ReachNext(s, StartConfigure(true));
    s := ReachNext(s, InitialRead(Some(off), Refused));
    s := ReachNext(s, Continue(Some(p), Accepted));
    s := ReachNext(s, PersistDone(true));
  }

  /** A configuration of q waits for its write beside the registered p, and the service stops. */
  lemma ReachRolledBack(off: Settings, p: string, q: string, stop: Event) returns (s: State)
    requires !off.enabled && p != q && (stop.Suspend? || stop.Dispose?)
    ensures Reachable(s)
    ensures s == State(Settings(true, p), Some(p), None, Registered, true, stop.Suspend?, stop.Dispose?, Idle, {},
                       Settings(true, p))
  {
    s := ReachRegistered(off, p);
    s := ReachNext(s, StartConfigure(true));
    s := ReachNext(s, Continue(Some(q), Accepted));
    s := ReachNext(s, stop);
    s := ReachNext(s, PersistDone(false));
    assert s.held == {};
  }

  /** That branch is reachable both ways: a suspended and a disposed service can report its
      shortcut as registered while the OS holds no binding. */
  lemma RegisteredWhileStoppedIsReachable(off: Settings, p: string, q: string) returns (suspended: State, disposed: State)
    requires !off.enabled && p != q
    ensures Reachable(suspended) && suspended.suspended && suspended.op.Idle?
    ensures StatusRegistered(suspended) && suspended.held == {}
    ensures Reachable(disposed) && disposed.disposed && disposed.op.Idle?
    ensures StatusRegistered(disposed) && disposed.held == {}
  {
    suspended := ReachRolledBack(off, p, q, Suspend);
    disposed := ReachRolledBack(off, p, q, Dispose);
  }

  /** And it can outlast the suspension: a resume that reads disabled settings leaves a service in
      operation, about to configure, whose active binding is not held. */
  lemma ReachUnheldRenewal(off: Settings, p: string, q: string) returns (s: State)
    requires !off.enabled && p != q
    ensures Reachable(s) && Operational(s) && s.op == Ready(true) && s.active == Some(p) && !Bound(s)
    ensures s.held == {} && s.settings == off && s.store == Settings(true, p)
  {
    s := ReachRolledBack(off, p, q, Suspend);
    s := ReachNext(s, StartResume);
    s := ReachNext(s, ResumeRead(Some(off), Refused));
    s := ReachNext(s, StartConfigure(true));
  }

  /** Configuring that binding again is the uninterrupted configure that is no transaction: it
      commits settings and file and reports the shortcut as registered while nothing is held. */
  lemma RegisteredWithoutBindingIsReachable(off: Settings, p: string, q: string) returns (s: State)
    requires !off.enabled && p != q
    ensures Reachable(s) && Operational(s) && s.op.Idle? && s.settings == s.store == Settings(true, p)
    ensures StatusRegistered(s) && s.held == {}
  {
    s := ReachUnheldRenewal(off, p, q);
    s := ReachNext(s, Continue(Some(p), Refused));
    s := ReachNext(s, PersistDone(true));
  }

  /** Over every run, such a configure binds what it commits if and only if it does not renew a
      stale binding. */
  lemma ConfigureBindsUnlessStale(states: seq<State>, events: seq<Event>, k: nat, accelerator: string, reg: Registration)
    requires Run(states, events) && k <= |events| && Operational(states[k]) && states[k].op.Ready?
    ensures var s := states[k];
            var asked := Step(s, Continue(Some(accelerator), reg));
            !asked.op.Idle? ==>
              var done := Step(asked, PersistDone(true));
              done.held == Present(done.active) <==>
                !(s.op.enabled && s.active == Some(accelerator) && Stale(states, events, k))
  {
    RunKeepsInv(states, events, k);
    BoundUnlessStale(states, events, k);
    ConfigureIsAtomic(states[k], Some(accelerator), reg, true);
  }

  /** The service object. Each method is the code between two awaits; `held` and `store` stand
      for the OS and the settings file. */
  class GlobalShortcutService {
    var settings: Settings
    var activeAccelerator: Option<string>
    var pendingAccelerator: Option<string>
    var state: Runtime
    var initialized: bool
    var suspended: bool
    var disposed: bool
    var op: Op
    var held: set<string>
    var store: Settings

    ghost function View(): State
      reads this
    {
      State(settings, activeAccelerator, pendingAccelerator, state, initialized, suspended, disposed, op, held, store)
    }

    method UnregisterBestEffort(accelerator: Option<string>)
      modifies this`held
      ensures held == Without(old(held), accelerator)
    {
      if accelerator.Some? {
        held := held - {accelerator.value};
      }
    }

    method RegisterOrThrow(accelerator: string, reg: Registration) returns (registered: bool)
      modifies this`held
      ensures held == HeldAfter(old(held), accelerator, reg)
      ensures registered <==> reg.Accepted?
    {
      match reg {
        case Accepted => held := held + {accelerator};
        case Refused =>
        case ThrewAfterBinding => held := held + {accelerator}; UnregisterBestEffort(Some(accelerator));
        case ThrewBefore => UnregisterBestEffort(Some(accelerator));
      }
      registered := reg.Accepted?;
      assert (old(held) + {accelerator}) - {accelerator} == old(held) - {accelerator};
    }

    method SuspendForShutdownSync()
      requires Inv(View())
      modifies this
      ensures View() == Step(old(View()), Suspend)
      ensures Inv(View()) && (op.Idle? && !Operational(View()) ==> held == {})
    {
      if disposed || suspended {
        return;
      }
      suspended := true;
      UnregisterBestEffort(activeAccelerator);
      UnregisterBestEffort(pendingAccelerator);
      activeAccelerator := None;
      pendingAccelerator := None;
      state := if settings.enabled then Unavailable else Disabled;
    }

    method DisposeSync()
      requires Inv(View())
      modifies this
      ensures View() == Step(old(View()), Dispose)
      ensures Inv(View()) && (op.Idle? ==> held == {})
    {
      if disposed {
        return;
      }
      disposed := true;
      suspended := false;
      UnregisterBestEffort(activeAccelerator);
      UnregisterBestEffort(pendingAccelerator);
      activeAccelerator := None;
      pendingAccelerator := None;
      state := Disposed;
    }

    /** initializeUnlocked, after the settings were read or could not be. */
    method FinishInitialize(read: Option<Settings>, reg: Registration)
      requires Inv(View()) && op.InitReading?
      modifies this
      ensures View() == Step(old(View()), InitialRead(read, reg))
      ensures Inv(View())
    {
      hide Inv;
      StepKeepsInv(View(), InitialRead(read, reg));
      var configure := op.configure;
      op := Idle;
      if read.None? {
        return;
      }
      settings := read.value;
      if disposed || suspended {
        return;
      }
      initialized := true;
      op := if configure.Some? then Ready(configure.value) else Idle;
      if !settings.enabled {
        state := Disabled;
        return;
      }
      var registered := RegisterOrThrow(settings.accelerator, reg);
      if registered {
        activeAccelerator := Some(settings.accelerator);
        state := Registered;
      } else {
        state := if reg.Refused? then Conflict else Unavailable;
      }
    }

    /** configure, from the end of initializeUnlocked to the persist. */
    method ContinueConfigure(accelerator: Option<string>, reg: Registration)
      requires Inv(View()) && op.Ready?
      modifies this
      ensures View() == Step(old(View()), Continue(accelerator, reg))
      ensures Inv(View())
    {
      StepKeepsInv(View(), Continue(accelerator, reg));
      if accelerator.None? {
        op := Idle;
        return;
      }
      var desired := Settings(op.enabled, accelerator.value);
      if !desired.enabled {
        op := Disabling(desired);
      } else if activeAccelerator == accelerator {
        op := Renewing(desired);
      } else {
        var registered := RegisterOrThrow(desired.accelerator, reg);
        if registered {
          op := Registering(desired, settings, activeAccelerator, state);
          pendingAccelerator := accelerator;
        } else {
          op := Idle;
        }
      }
    }

    /** configure, after the persist has succeeded or failed. */
    method FinishConfigure(ok: bool)
      requires Inv(View()) && (op.Disabling? || op.Renewing? || op.Registering?)
      modifies this
      ensures View() == Step(old(View()), PersistDone(ok))
      ensures Inv(View()) && op.Idle?
    {
      StepKeepsInv(View(), PersistDone(ok));
      var desired, waiting := op.desired, op;
      op := Idle;
      if ok {
        store := desired;
      }
      if waiting.Registering? {
        if !ok {
          UnregisterBestEffort(Some(desired.accelerator));
          pendingAccelerator := None;
          settings := waiting.previousSettings;
          activeAccelerator := waiting.previousActive;
          state := waiting.previousState;
        } else if disposed || suspended {
          UnregisterBestEffort(Some(desired.accelerator));
          pendingAccelerator := None;
        } else {
          settings := desired;
          activeAccelerator := Some(desired.accelerator);
          pendingAccelerator := None;
          state := Registered;
          if waiting.previousActive != Some(desired.accelerator) {
            UnregisterBestEffort(waiting.previousActive);
          }
        }
      } else if ok && !disposed && !suspended {
        settings := desired;
        if waiting.Disabling? {
          var previous := activeAccelerator;
          activeAccelerator := None;
          state := Disabled;
          UnregisterBestEffort(previous);
        } else {
          state := Registered;
        }
      }
    }

    /** resumeAfterShutdownFailure, after the settings were read. */
    method FinishResume(read: Option<Settings>, reg: Registration)
      requires Inv(View()) && op.Resuming?
      modifies this
      ensures View() == Step(old(View()), ResumeRead(read, reg))
      ensures Inv(View()) && op.Idle?
    {
      hide Inv;
      StepKeepsInv(View(), ResumeRead(read, reg));
      op := Idle;
      if disposed {
        return;
      }
      if read.Some? {
        settings := read.value;
      }
      initialized := true;
      suspended := false;
      if !settings.enabled {
        state := Disabled;
        return;
      }
      var registered := RegisterOrThrow(settings.accelerator, reg);
      if registered {
        activeAccelerator := Some(settings.accelerator);
        state := Registered;
      } else {
        activeAccelerator := None;
        state := if reg.Refused? then Conflict else Unavailable;
      }
    }
  }
}
