/**
 The Windows service host: the main thread, the control handler and the stop-progress thread share the
 current state under one lock. A status report is a call to the service control manager followed by a store,
 and the very first report is made without the lock.
 */
module ServiceHost {
  import opened Wrappers

  datatype Status = Unset | StartPending | Running | StopPending | Stopped

  /** Who holds the transition lock. */
  datatype Holder = Nobody | MainThread | HandlerThread | ProgressThread

  datatype Control = StopOrShutdown | Interrogate

  /** Where the main thread is; `Checked`, `Call` and `Store` states with a lock are listed in `MainLocked`. */
  datatype MainPc =
    | Registering
    | StoringHandle
    | CallingStart
    | StoringStart
    | Preparing
    | RunEntered
    | RunChecked(target: Status)
    | RunStoring(target: Status)
    | Ending
    | StopEntered
    | StopStoring

  datatype HandlerPc =
    | Idle
    | Entered(control: Control)
    | StopChecked
    | StopStoring
    | StopRequesting
    | Repeating(state: Status)
    | RepeatStoring(state: Status)

  datatype ProgressPc = NotStarted | Sleeping | Woken | Reporting | Storing | Exited

  /**
   The shared variables and the three threads. `lost` says that a stop was handled while the service was
   running and could not be reported; `stopReported` and `handled` only record what happened.
   */
  datatype Core = Core(main: MainPc, handler: HandlerPc, progress: ProgressPc, holder: Holder, handle: bool,
                       current: Status, requested: bool, handled: bool, lost: bool, stopReported: bool)

  /** `log` holds the reported states in order, `handledAt` its length when a stop was first handled. */
  datatype Host = Host(core: Core, log: seq<Status>, handledAt: nat)

  const INITIAL := Host(Core(Registering, Idle, NotStarted, Nobody, false, Unset, false, false, false, false), [], 0)

  datatype Event =
    | MainStep(ok: bool)
    | MainGivesUp
    | HandlerCall(control: Control)
    | HandlerStep(ok: bool, spawned: bool)
    | ProgressStep(ok: bool)

  predicate MainLocked(pc: MainPc) {
    pc.RunEntered? || pc.RunChecked? || pc.RunStoring? || pc.StopEntered? || pc.StopStoring?
  }

  predicate ProgressLocked(pc: ProgressPc) {
    pc.Woken? || pc.Reporting? || pc.Storing?
  }

  predicate Enabled(s: Core, e: Event) {
    match e
    case MainStep(ok) =>
      && (s.main.Preparing? || s.main.Ending? ==> s.holder.Nobody?)
      && (ok && (s.main.CallingStart? || s.main.RunChecked? || s.main.StopEntered?) ==> s.handle)
    case MainGivesUp => s.main.CallingStart? || s.main.Preparing?
    case HandlerCall(_) => s.handler.Idle? && !s.main.Registering? && s.holder.Nobody?
    case HandlerStep(ok, _) => !s.handler.Idle? && (ok && (s.handler.StopChecked? || s.handler.Repeating?) ==> s.handle)
    case ProgressStep(ok) =>
      && !s.progress.NotStarted? && !s.progress.Exited?
      && (s.progress.Sleeping? ==> s.holder.Nobody?)
      && (ok && s.progress.Reporting? ==> s.handle)
  }

  /** Start the progress thread, once; the operating system may refuse. */
  function Spawn(s: Core, spawned: bool): ProgressPc {
    if s.progress.NotStarted? && spawned then Sleeping else s.progress
  }

  /** The main thread: register, report the start without the lock, then run and stop under it. */
  function MainNext(s: Core, ok: bool): Core {
    match s.main
    case Registering => s.(main := StoringHandle)
    case StoringHandle => s.(main := CallingStart, handle := true)
    case CallingStart => s.(main := if ok then StoringStart else Ending)
    case StoringStart => s.(main := Preparing, current := StartPending)
    case Preparing => s.(main := RunEntered, holder := MainThread)
    case RunEntered => s.(main := RunChecked(if s.requested then StopPending else Running))
    case RunChecked(target) =>
      if ok then s.(main := RunStoring(target)) else s.(main := Ending, holder := Nobody)
    case RunStoring(target) =>
      s.(main := Ending, holder := Nobody, current := target,
         progress := if target.StopPending? then Spawn(s, ok) else s.progress)
    case Ending => s.(main := StopEntered, holder := MainThread)
    case StopEntered =>
      if ok then s.(main := MainPc.StopStoring, stopReported := true) else s.(main := Ending, holder := Nobody)
    case StopStoring => s.(main := Ending, holder := Nobody, current := Stopped)
  }

  /** A stop is reported, requested and followed up, unless the service has stopped; a query repeats the state. */
  function HandlerNext(s: Core, ok: bool, spawned: bool): Core {
    match s.handler
    case Idle => s
    case Entered(StopOrShutdown) =>
      if s.current.Stopped? then s.(handler := Idle, holder := Nobody) else s.(handler := StopChecked)
    case Entered(Interrogate) => s.(handler := Repeating(s.current))
    case StopChecked =>
      if ok then s.(handler := HandlerPc.StopStoring)
      else s.(handler := StopRequesting, lost := s.lost || s.current.Running?)
    case StopStoring => s.(handler := StopRequesting, current := StopPending)
    case StopRequesting =>
      s.(handler := Idle, holder := Nobody, requested := true, progress := Spawn(s, spawned), handled := true)
    case Repeating(state) =>
      if ok then s.(handler := RepeatStoring(state), stopReported := s.stopReported || state.Stopped?)
      else s.(handler := Idle, holder := Nobody)
    case RepeatStoring(state) => s.(handler := Idle, holder := Nobody, current := state)
  }

  function ProgressNext(s: Core, ok: bool): Core {
    match s.progress
    case NotStarted => s
    case Sleeping => s.(progress := Woken, holder := ProgressThread)
    case Woken => if s.current.StopPending? then s.(progress := Reporting) else s.(progress := Exited, holder := Nobody)
    case Reporting =>
      if ok then s.(progress := Storing) else s.(progress := Sleeping, holder := Nobody)
    case Storing => s.(progress := Sleeping, holder := Nobody, current := StopPending)
    case Exited => s
  }

  function Next(s: Core, e: Event): Core {
    match e
    case MainStep(ok) => MainNext(s, ok)
    case MainGivesUp => s.(main := Ending)
    case HandlerCall(control) => s.(handler := Entered(control), holder := HandlerThread)
    case HandlerStep(ok, spawned) => HandlerNext(s, ok, spawned)
    case ProgressStep(ok) => ProgressNext(s, ok)
  }

  /** The state a step reports to the service control manager, if its call succeeds. */
  function Reported(s: Core, e: Event): Option<Status> {
    match e
    case MainStep(ok) =>
      if !ok then None
      else if s.main.CallingStart? then Some(StartPending)
      else if s.main.RunChecked? then Some(s.main.target)
      else if s.main.StopEntered? then Some(Stopped)
      else None
    case MainGivesUp => None
    case HandlerCall(_) => None
    case HandlerStep(ok, _) =>
      if !ok then None
      else if s.handler.StopChecked? then Some(StopPending)
      else if s.handler.Repeating? then Some(s.handler.state)
      else None
    case ProgressStep(ok) => if ok && s.progress.Reporting? then Some(StopPending) else None
  }

  function Step(h: Host, e: Event): Host {
    var next, reported := Next(h.core, e), Reported(h.core, e);
    Host(next,
         if reported.Some? then h.log + [reported.value] else h.log,
         if next.handled && !h.core.handled then |h.log| else h.handledAt)
  }

  /** A run from any state. */
  ghost predicate Runs(trace: seq<Host>, events: seq<Event>) {
    && |trace| == |events| + 1
    && forall i {:trigger events[i]} | 0 <= i < |events| ::
         Enabled(trace[i].core, events[i]) && trace[i + 1] == Step(trace[i], events[i])
  }

  ghost predicate Behavior(trace: seq<Host>, events: seq<Event>) {
    Runs(trace, events) && trace[0] == INITIAL
  }

  // ----- The invariants -----

  /** Whoever is inside a section holds the lock. */
  predicate LockOk(s: Core) {
    && (MainLocked(s.main) <==> s.holder == MainThread)
    && (!s.handler.Idle? <==> s.holder == HandlerThread)
    && (ProgressLocked(s.progress) <==> s.holder == ProgressThread)
  }

  predicate BeforeRunning(pc: MainPc) {
    pc.Registering? || pc.StoringHandle? || pc.CallingStart? || pc.StoringStart? || pc.Preparing?
  }

  predicate MainIsStopping(pc: MainPc) {
    pc.Ending? || pc.StopEntered? || pc.StopStoring?
  }

  predicate Repeats(pc: HandlerPc, state: Status) {
    pc == Repeating(state) || pc == RepeatStoring(state)
  }

  /** Once the stop is reported only the stop can be reported: everybody else finds it when they get the lock. */
  predicate StopOk(s: Core) {
    && (s.stopReported ==>
          && MainIsStopping(s.main) && (s.main.StopStoring? || s.current.Stopped?)
          && !s.handler.StopChecked? && !s.handler.StopStoring?
          && (s.handler.Repeating? || s.handler.RepeatStoring? ==> s.handler.state.Stopped?)
          && !s.progress.Reporting? && !s.progress.Storing?)
    && (s.current.Stopped? || s.main.StopStoring? || Repeats(s.handler, Stopped) ==> s.stopReported)
    && (s.main.RunChecked? || s.main.RunStoring? ==> s.main.target.Running? || s.main.target.StopPending?)
  }

  /** Nobody is about to report or store RUNNING, and nobody ever will. */
  predicate RunningIsOver(s: Core) {
    && !s.current.Running?
    && s.main != RunChecked(Running) && s.main != RunStoring(Running)
    && !Repeats(s.handler, Running)
  }

  predicate RunningOk(s: Core) {
    && (s.handled ==> s.requested)
    && (s.handled && !s.lost ==> RunningIsOver(s))
    && (s.handler.StopRequesting? && !s.lost ==> !s.current.Running?)
    && (BeforeRunning(s.main) ==> !s.current.Running? && !Repeats(s.handler, Running))
  }

  predicate CoreInv(s: Core) {
    LockOk(s) && StopOk(s) && RunningOk(s)
  }

  /** What one step owes: the invariant, an honest record, and only reports the past still allows. */
  predicate StepOk(s: Core, e: Event) {
    && CoreInv(Next(s, e))
    && (Next(s, e).stopReported <==> s.stopReported || Reported(s, e) == Some(Stopped))
    && (s.handled ==> Next(s, e).handled) && (s.lost ==> Next(s, e).lost)
    && (Next(s, e).handled && !s.handled ==> Reported(s, e).None?)
    && (Next(s, e).lost && !s.lost ==> e.HandlerStep? && s.handler.StopChecked? && !e.ok)
    && (Reported(s, e).Some? && s.stopReported ==> Reported(s, e) == Some(Stopped))
    && (s.handled && !s.lost ==> Reported(s, e) != Some(Running))
  }

  lemma StartKeepsInv(s: Core, ok: bool)
    requires CoreInv(s) && Enabled(s, MainStep(ok)) && (BeforeRunning(s.main))
    ensures StepOk(s, MainStep(ok))
  {
  }

  lemma RunKeepsInv(s: Core, ok: bool)
    requires CoreInv(s) && Enabled(s, MainStep(ok)) && (s.main.RunEntered? || s.main.RunChecked? || s.main.RunStoring?)
    ensures StepOk(s, MainStep(ok))
  {
  }

  lemma EndKeepsInv(s: Core, ok: bool)
    requires CoreInv(s) && Enabled(s, MainStep(ok)) && (MainIsStopping(s.main))
    ensures StepOk(s, MainStep(ok))
  {
  }

  lemma EntryKeepsInv(s: Core, ok: bool, spawned: bool)
    requires CoreInv(s) && Enabled(s, HandlerStep(ok, spawned)) && (s.handler.Entered?)
    ensures StepOk(s, HandlerStep(ok, spawned))
  {
  }

  lemma StopCallKeepsInv(s: Core, ok: bool, spawned: bool)
    requires CoreInv(s) && Enabled(s, HandlerStep(ok, spawned)) && (s.handler.StopChecked?)
    ensures StepOk(s, HandlerStep(ok, spawned))
  {
  }

  lemma StopStoreKeepsInv(s: Core, ok: bool, spawned: bool)
    requires CoreInv(s) && Enabled(s, HandlerStep(ok, spawned)) && (s.handler.StopStoring?)
    ensures StepOk(s, HandlerStep(ok, spawned))
  {
  }

  lemma StopRequestKeepsInv(s: Core, ok: bool, spawned: bool)
    requires CoreInv(s) && Enabled(s, HandlerStep(ok, spawned)) && (s.handler.StopRequesting?)
    ensures StepOk(s, HandlerStep(ok, spawned))
  {
  }

  lemma RepeatCallKeepsInv(s: Core, ok: bool, spawned: bool)
    requires CoreInv(s) && Enabled(s, HandlerStep(ok, spawned)) && (s.handler.Repeating?)
    ensures StepOk(s, HandlerStep(ok, spawned))
  {
  }

  lemma RepeatStoreKeepsInv(s: Core, ok: bool, spawned: bool)
    requires CoreInv(s) && Enabled(s, HandlerStep(ok, spawned)) && (s.handler.RepeatStoring?)
    ensures StepOk(s, HandlerStep(ok, spawned))
  {
  }

  lemma GiveUpKeepsInv(s: Core)
    requires CoreInv(s) && Enabled(s, MainGivesUp)
    ensures StepOk(s, MainGivesUp)
  {
  }

  lemma ControlKeepsInv(s: Core, control: Control)
    requires CoreInv(s) && Enabled(s, HandlerCall(control))
    ensures StepOk(s, HandlerCall(control))
  {
  }

  lemma WakeKeepsInv(s: Core, ok: bool)
    requires CoreInv(s) && Enabled(s, ProgressStep(ok)) && s.progress.Sleeping?
    ensures StepOk(s, ProgressStep(ok))
  {
  }

  lemma CheckKeepsInv(s: Core, ok: bool)
    requires CoreInv(s) && Enabled(s, ProgressStep(ok)) && s.progress.Woken?
    ensures StepOk(s, ProgressStep(ok))
  {
    if s.current.StopPending? {
      assert ProgressNext(s, ok) == s.(progress := Reporting);
    } else {
      assert ProgressNext(s, ok) == s.(progress := Exited, holder := Nobody);
    }
  }

  lemma ProgressKeepsInv(s: Core, ok: bool)
    requires CoreInv(s) && Enabled(s, ProgressStep(ok)) && (s.progress.Reporting? || s.progress.Storing?)
    ensures StepOk(s, ProgressStep(ok))
  {
  }

  lemma HandlerKeepsInv(s: Core, ok: bool, spawned: bool)
    requires CoreInv(s) && Enabled(s, HandlerStep(ok, spawned))
    ensures StepOk(s, HandlerStep(ok, spawned))
  {
    if s.handler.Entered? { EntryKeepsInv(s, ok, spawned); }
    else if s.handler.StopChecked? { StopCallKeepsInv(s, ok, spawned); }
    else if s.handler.StopStoring? { StopStoreKeepsInv(s, ok, spawned); }
    else if s.handler.StopRequesting? { StopRequestKeepsInv(s, ok, spawned); }
    else if s.handler.Repeating? { RepeatCallKeepsInv(s, ok, spawned); }
    else { RepeatStoreKeepsInv(s, ok, spawned); }
  }

  /** A step keeps the invariant; after a reported stop it reports nothing else, after a handled one never RUNNING. */
  lemma StepKeepsCoreInv(s: Core, e: Event)
    requires CoreInv(s) && Enabled(s, e)
    ensures StepOk(s, e)
  {
    match e
    case MainStep(ok) =>
      if BeforeRunning(s.main) { StartKeepsInv(s, ok); }
      else if MainIsStopping(s.main) { EndKeepsInv(s, ok); }
      else { RunKeepsInv(s, ok); }
    case HandlerStep(ok, spawned) =>
      HandlerKeepsInv(s, ok, spawned);
    case MainGivesUp => GiveUpKeepsInv(s);
    case HandlerCall(control) => ControlKeepsInv(s, control);
    case ProgressStep(ok) =>
      if s.progress.Sleeping? { WakeKeepsInv(s, ok); }
      else if s.progress.Woken? { CheckKeepsInv(s, ok); }
      else { ProgressKeepsInv(s, ok); }
  }

  // ----- Every run -----

  /** Nothing but the stop follows a stop. */
  predicate StopIsLast(log: seq<Status>) {
    forall i, j | 0 <= i < j < |log| :: log[i] == Stopped ==> log[j] == Stopped
  }

  predicate NotRunningFrom(log: seq<Status>, n: nat) {
    forall i | n <= i < |log| :: log[i] != Running
  }

  predicate LogOk(h: Host) {
    && StopIsLast(h.log)
    && (h.core.stopReported <==> Stopped in h.log)
    && (h.core.handled ==> h.handledAt <= |h.log|)
    && (h.core.handled && !h.core.lost ==> NotRunningFrom(h.log, h.handledAt))
  }

  lemma ReportKeepsLog(log: seq<Status>, state: Status, n: nat)
    ensures StopIsLast(log) && (Stopped in log ==> state.Stopped?) ==> StopIsLast(log + [state])
    ensures Stopped in log + [state] <==> Stopped in log || state.Stopped?
    ensures NotRunningFrom(log, n) && !state.Running? ==> NotRunningFrom(log + [state], n)
  {
  }

  lemma {:induction false} BehaviorKeepsInv(trace: seq<Host>, events: seq<Event>, n: nat)
    requires Behavior(trace, events) && n < |trace|
    ensures CoreInv(trace[n].core) && LogOk(trace[n])
  {
    if n > 0 {
      BehaviorKeepsInv(trace, events, n - 1);
      var h, e := trace[n - 1], events[n - 1];
      assert Enabled(h.core, e) && trace[n] == Step(h, e);
      StepKeepsCoreInv(h.core, e);
      if Reported(h.core, e).Some? {
        ReportKeepsLog(h.log, Reported(h.core, e).value, h.handledAt);
      }
    }
  }

  /** In every interleaving, whatever calls fail: once STOPPED is reported, nothing else is. */
  lemma NothingAfterStopped(trace: seq<Host>, events: seq<Event>, n: nat)
    requires Behavior(trace, events) && n < |trace|
    ensures StopIsLast(trace[n].log)
  {
    BehaviorKeepsInv(trace, events, n);
  }

  /**
   In every interleaving: RUNNING is never reported after a stop was handled, unless the report of a
   stop failed while the service was running.
   */
  lemma NoRunningAfterStop(trace: seq<Host>, events: seq<Event>, n: nat)
    requires Behavior(trace, events) && n < |trace|
    requires trace[n].core.handled && !trace[n].core.lost
    ensures NotRunningFrom(trace[n].log, trace[n].handledAt)
  {
    BehaviorKeepsInv(trace, events, n);
  }

  predicate FailsToReportStop(s: Core, e: Event) {
    e.HandlerStep? && s.handler.StopChecked? && !e.ok
  }

  /** No call that reports the handling of a stop fails. */
  ghost predicate StopReportsSucceed(trace: seq<Host>, events: seq<Event>)
    requires Behavior(trace, events)
  {
    forall i {:trigger events[i]} | 0 <= i < |events| :: !FailsToReportStop(trace[i].core, events[i])
  }

  /** A stop is lost only through a failed call. */
  lemma LostByFailure(s: Core, e: Event)
    requires CoreInv(s) && Enabled(s, e) && !s.lost && !FailsToReportStop(s, e)
    ensures !Next(s, e).lost
  {
    StepKeepsCoreInv(s, e);
  }

  lemma {:induction false} NoStopLost(trace: seq<Host>, events: seq<Event>, n: nat)
    requires Behavior(trace, events) && StopReportsSucceed(trace, events) && n < |trace|
    ensures !trace[n].core.lost
  {
    if n > 0 {
      NoStopLost(trace, events, n - 1);
      BehaviorKeepsInv(trace, events, n - 1);
      LostByFailure(trace[n - 1].core, events[n - 1]);
    }
  }

  lemma NoRunningAfterReportedStop(trace: seq<Host>, events: seq<Event>, n: nat)
    requires Behavior(trace, events) && StopReportsSucceed(trace, events) && n < |trace|
    requires trace[n].core.handled
    ensures NotRunningFrom(trace[n].log, trace[n].handledAt)
  {
    NoStopLost(trace, events, n);
    NoRunningAfterStop(trace, events, n);
  }

  // ----- Exactly when RUNNING can come back -----

  /** RUNNING was reported, so the status handle is there for the next call. */
  predicate HandleOk(s: Core) {
    s.current.Running? || s.main == RunStoring(Running) || Repeats(s.handler, Running) ==> s.handle
  }

  lemma MainKeepsHandle(s: Core, ok: bool)
    requires HandleOk(s) && Enabled(s, MainStep(ok))
    ensures HandleOk(MainNext(s, ok))
  {
  }

  lemma HandlerKeepsHandle(s: Core, ok: bool, spawned: bool)
    requires HandleOk(s) && Enabled(s, HandlerStep(ok, spawned))
    ensures HandleOk(HandlerNext(s, ok, spawned))
  {
  }

  lemma StepKeepsHandle(s: Core, e: Event)
    requires HandleOk(s) && Enabled(s, e)
    ensures HandleOk(Next(s, e))
  {
    match e
    case MainStep(ok) => MainKeepsHandle(s, ok);
    case MainGivesUp =>
    case HandlerCall(control) =>
    case HandlerStep(ok, spawned) => HandlerKeepsHandle(s, ok, spawned);
    case ProgressStep(ok) =>
  }

  lemma {:induction false} BehaviorKeepsHandle(trace: seq<Host>, events: seq<Event>, n: nat)
    requires Behavior(trace, events) && n < |trace|
    ensures HandleOk(trace[n].core)
  {
    if n > 0 {
      BehaviorKeepsHandle(trace, events, n - 1);
      assert trace[n].core == Next(trace[n - 1].core, events[n - 1]);
      StepKeepsHandle(trace[n - 1].core, events[n - 1]);
    }
  }

  /** The stop is known, or about to be under the lock, and no thread is on the way to report or store RUNNING. */
  predicate Quiet(s: Core) {
    && LockOk(s)
    && (s.requested || s.handler.StopStoring? || s.handler.StopRequesting?)
    && (s.current.Running? ==> s.handler.StopStoring?)
    && s.main != RunChecked(Running) && s.main != RunStoring(Running)
    && !Repeats(s.handler, Running)
  }

  lemma StartKeepsQuiet(s: Core, ok: bool)
    requires Quiet(s) && Enabled(s, MainStep(ok)) && (BeforeRunning(s.main))
    ensures Quiet(MainNext(s, ok)) && Reported(s, MainStep(ok)) != Some(Running)
  {
  }

  lemma RunKeepsQuiet(s: Core, ok: bool)
    requires Quiet(s) && Enabled(s, MainStep(ok)) && (s.main.RunEntered? || s.main.RunChecked? || s.main.RunStoring?)
    ensures Quiet(MainNext(s, ok)) && Reported(s, MainStep(ok)) != Some(Running)
  {
  }

  lemma EndKeepsQuiet(s: Core, ok: bool)
    requires Quiet(s) && Enabled(s, MainStep(ok)) && (MainIsStopping(s.main))
    ensures Quiet(MainNext(s, ok)) && Reported(s, MainStep(ok)) != Some(Running)
  {
  }

  lemma MainKeepsQuiet(s: Core, ok: bool)
    requires Quiet(s) && Enabled(s, MainStep(ok))
    ensures Quiet(MainNext(s, ok)) && Reported(s, MainStep(ok)) != Some(Running)
  {
    if BeforeRunning(s.main) { StartKeepsQuiet(s, ok); }
    else if MainIsStopping(s.main) { EndKeepsQuiet(s, ok); }
    else { RunKeepsQuiet(s, ok); }
  }

  lemma HandlerKeepsQuiet(s: Core, ok: bool, spawned: bool)
    requires Quiet(s) && Enabled(s, HandlerStep(ok, spawned))
    ensures Quiet(HandlerNext(s, ok, spawned)) && Reported(s, HandlerStep(ok, spawned)) != Some(Running)
  {
  }

  lemma StepKeepsQuiet(s: Core, e: Event)
    requires Quiet(s) && Enabled(s, e)
    ensures Quiet(Next(s, e)) && Reported(s, e) != Some(Running)
  {
    match e
    case MainStep(ok) => MainKeepsQuiet(s, ok);
    case MainGivesUp =>
    case HandlerCall(control) =>
    case HandlerStep(ok, spawned) => HandlerKeepsQuiet(s, ok, spawned);
    case ProgressStep(ok) =>
  }

  lemma {:induction false} QuietForever(trace: seq<Host>, events: seq<Event>, n: nat)
    requires Runs(trace, events) && Quiet(trace[0].core) && n < |trace|
    ensures Quiet(trace[n].core)
    ensures |trace[0].log| <= |trace[n].log| && NotRunningFrom(trace[n].log, |trace[0].log|)
  {
    if n > 0 {
      QuietForever(trace, events, n - 1);
      var h, e := trace[n - 1], events[n - 1];
      assert Enabled(h.core, e) && trace[n] == Step(h, e);
      StepKeepsQuiet(h.core, e);
      if Reported(h.core, e).Some? {
        ReportKeepsLog(h.log, Reported(h.core, e).value, |trace[0].log|);
      }
    }
  }

  /** From this state some run handles the stop and then reports RUNNING. */
  ghost predicate RunningMayReturn(h: Host) {
    exists trace, events :: RunningReturns(h, trace, events)
  }

  ghost predicate RunningReturns(h: Host, trace: seq<Host>, events: seq<Event>) {
    && Runs(trace, events) && trace[0] == h
    && var last := trace[|events|];
       && last.core.handled
       && exists i | |h.log| <= i < |last.log| :: i >= last.handledAt && last.log[i] == Running
  }

  /** What is left to do after a failed report: request the stop, and answer a query. */
  const QUERY: seq<Event> := [HandlerStep(true, true), HandlerCall(Interrogate), HandlerStep(true, true), HandlerStep(true, true)]

  /** A failed report of a stop while the service runs: the next query repeats RUNNING, from every reachable state. */
  lemma QueryRepeatsRunning(h: Host)
    requires CoreInv(h.core) && HandleOk(h.core) && (h.core.handled ==> h.handledAt <= |h.log|)
    requires h.core.handler.StopRequesting? && h.core.current.Running?
    ensures RunningMayReturn(h)
  {
    var h1 := Step(h, QUERY[0]);
    var h2 := Step(h1, QUERY[1]);
    var h3 := Step(h2, QUERY[2]);
    var h4 := Step(h3, QUERY[3]);
    assert h1.core.handler.Idle? && h1.core.holder.Nobody? && h1.core.current.Running? && h1.core.handled;
    assert h2.core.handler == Entered(Interrogate) && h3.core.handler == Repeating(Running) && h3.log == h.log;
    assert h.core.main != Registering by {
      assert !BeforeRunning(h.core.main);
    }
    assert h4.log == h.log + [Running] && h4.log[|h.log|] == Running && h4.handledAt <= |h.log|;
    var trace := [h, h1, h2, h3, h4];
    assert Runs(trace, QUERY);
    assert RunningReturns(h, trace, QUERY);
  }

  /**
   In every run, when a stop is being handled: RUNNING can be reported afterwards if and only if the service is
   running and the call that reports the stop fails.
   */
  lemma RunningReturnsExactly(trace: seq<Host>, events: seq<Event>, n: nat, ok: bool, spawned: bool)
    requires Behavior(trace, events) && n < |trace|
    requires trace[n].core.handler.StopChecked? && Enabled(trace[n].core, HandlerStep(ok, spawned))
    ensures RunningMayReturn(Step(trace[n], HandlerStep(ok, spawned))) <==> !ok && trace[n].core.current.Running?
  {
    var h, e := trace[n], HandlerStep(ok, spawned);
    var next := Step(h, e);
    BehaviorKeepsInv(trace, events, n);
    BehaviorKeepsHandle(trace, events, n);
    StepKeepsCoreInv(h.core, e);
    if !ok && h.core.current.Running? {
      StepKeepsHandle(h.core, e);
      QueryRepeatsRunning(next);
    } else {
      assert Quiet(next.core);
      forall tail, more ensures !RunningReturns(next, tail, more) {
        if Runs(tail, more) && tail[0] == next {
          QuietForever(tail, more, |more|);
        }
      }
    }
  }

  /** The same from the state that an undisturbed start leads to. */
  lemma FailedStopRepeatsRunning(running: Host)
    requires running.core == Core(Ending, Idle, NotStarted, Nobody, true, Running, false, false, false, false)
    ensures var h1 := Step(Step(running, HandlerCall(StopOrShutdown)), HandlerStep(true, true));
            var h2 := Step(Step(h1, HandlerStep(false, true)), HandlerStep(true, true));
            var h3 := Step(Step(Step(h2, HandlerCall(Interrogate)), HandlerStep(true, true)), HandlerStep(true, true));
            && Enabled(h1.core, HandlerStep(false, true)) && Enabled(h2.core, HandlerCall(Interrogate))
            && h2.core.handled && h2.core.lost && h2.handledAt == |running.log|
            && h3.log == running.log + [Running] && !NotRunningFrom(h3.log, h3.handledAt)
  {
    var h1 := Step(Step(running, HandlerCall(StopOrShutdown)), HandlerStep(true, true));
    var h2 := Step(Step(h1, HandlerStep(false, true)), HandlerStep(true, true));
    assert h1.core.handler.StopChecked? && h1.log == running.log;
    assert h2.core.handler.Idle? && h2.log == running.log;
    var h3 := Step(Step(Step(h2, HandlerCall(Interrogate)), HandlerStep(true, true)), HandlerStep(true, true));
    assert h3.log[|running.log|] == Running;
  }

  // ----- What each section reports -----

  /** A stop is reported, stored and passed on to the service, in this order, unless the service has stopped already. */
  lemma StopIsReported(h: Host)
    requires h.core.handler == Idle && h.core.holder == Nobody && h.core.main != Registering && h.core.handle
    ensures var h0 := Step(h, HandlerCall(StopOrShutdown));
            var h1 := Step(h0, HandlerStep(true, true));
            && Enabled(h.core, HandlerCall(StopOrShutdown)) && Enabled(h0.core, HandlerStep(true, true))
            && h0.log == h1.log == h.log
            && if h.core.current == Stopped then h1.core == h.core
               else
                 var h2 := Step(h1, HandlerStep(true, true));
                 var h3 := Step(h2, HandlerStep(true, true));
                 var h4 := Step(h3, HandlerStep(true, true));
                 && Enabled(h1.core, HandlerStep(true, true)) && Enabled(h2.core, HandlerStep(true, true))
                 && Enabled(h3.core, HandlerStep(true, true))
                 && h2.log == h3.log == h4.log == h.log + [StopPending]
                 && h4.core == h.core.(current := StopPending, requested := true, handled := true,
                                       progress := if h.core.progress == NotStarted then Sleeping else h.core.progress)
  {
  }

  /** A query reports the state that is stored, and leaves it stored. */
  lemma QueryIsAnswered(h: Host)
    requires h.core.handler == Idle && h.core.holder == Nobody && h.core.main != Registering && h.core.handle
    ensures var h0 := Step(h, HandlerCall(Interrogate));
            var h1 := Step(h0, HandlerStep(true, true));
            var h2 := Step(h1, HandlerStep(true, true));
            var h3 := Step(h2, HandlerStep(true, true));
            && Enabled(h.core, HandlerCall(Interrogate)) && Enabled(h0.core, HandlerStep(true, true))
            && Enabled(h1.core, HandlerStep(true, true)) && Enabled(h2.core, HandlerStep(true, true))
            && h0.log == h1.log == h.log && h2.log == h3.log == h.log + [h.core.current]
            && h3.core == h.core.(stopReported := h3.core.stopReported)
  {
  }

  /** The run section reports RUNNING, or the pending stop if one was requested before it got the lock. */
  lemma RunIsReported(h: Host)
    requires h.core.main == Preparing && h.core.holder == Nobody && h.core.handle
    ensures var h0 := Step(h, MainStep(true));
            var h1 := Step(h0, MainStep(true));
            var h2 := Step(h1, MainStep(true));
            var h3 := Step(h2, MainStep(true));
            var state := if h.core.requested then StopPending else Running;
            && Enabled(h.core, MainStep(true)) && Enabled(h0.core, MainStep(true)) && Enabled(h1.core, MainStep(true))
            && Enabled(h2.core, MainStep(true))
            && h0.log == h1.log == h.log && h2.log == h3.log == h.log + [state]
            && h3.core.current == state && h3.core.main == Ending && h3.core.holder == Nobody
  {
  }

  /** Whatever fails before the run section, the main thread can end, reporting nothing on the way. */
  lemma GivingUpEnds(h: Host)
    requires h.core.main == CallingStart || h.core.main == Preparing
    ensures Enabled(h.core, MainGivesUp) && Step(h, MainGivesUp).log == h.log
    ensures Step(h, MainGivesUp).core == h.core.(main := Ending)
  {
  }

  lemma EndIsReported(h: Host)
    requires h.core.main == Ending && h.core.holder == Nobody && h.core.handle
    ensures var h1 := Step(h, MainStep(true));
            var h2 := Step(h1, MainStep(true));
            var h3 := Step(h2, MainStep(true));
            && Enabled(h.core, MainStep(true)) && Enabled(h1.core, MainStep(true)) && Enabled(h2.core, MainStep(true))
            && h3.log == h.log + [Stopped] && h3.core.current == Stopped && h3.core.main == Ending
  {
  }

  /** The progress thread repeats STOP_PENDING as long as it finds it, whatever fails, and then ends. */
  lemma ProgressIsReported(h: Host, ok: bool)
    requires h.core.progress == Sleeping && h.core.holder == Nobody && h.core.handle
    ensures var h1 := Step(h, ProgressStep(true));
            var h2 := Step(h1, ProgressStep(true));
            var h3 := Step(h2, ProgressStep(ok));
            && Enabled(h.core, ProgressStep(true)) && Enabled(h1.core, ProgressStep(true))
            && h1.log == h2.log == h.log
            && if h.core.current != StopPending then h2.core == h.core.(progress := Exited)
               else
                 && Enabled(h2.core, ProgressStep(ok))
                 && (!ok ==> h3.log == h.log && h3.core == h.core)
                 && (ok ==> h3.log == h.log + [StopPending] && Enabled(h3.core, ProgressStep(true))
                            && Step(h3, ProgressStep(true)).core == h.core)
  {
  }

  // ----- An undisturbed service -----

  lemma Extended(trace: seq<Host>, events: seq<Event>, h: Host, e: Event)
    returns (longer: seq<Host>, more: seq<Event>, next: Host)
    requires Behavior(trace, events) && trace[|events|] == h && Enabled(h.core, e)
    ensures Behavior(longer, more) && longer[|more|] == next == Step(h, e)
  {
    next := Step(h, e);
    longer, more := trace + [next], events + [e];
    forall i {:trigger more[i]} | 0 <= i < |more|
      ensures Enabled(longer[i].core, more[i]) && longer[i + 1] == Step(longer[i], more[i])
    {
      if i < |events| {
        assert events[i] == more[i] && longer[i] == trace[i] && longer[i + 1] == trace[i + 1];
      }
    }
  }

  lemma StartIsReached() returns (trace: seq<Host>, events: seq<Event>, h: Host)
    ensures Behavior(trace, events) && trace[|events|] == h && h.log == [StartPending]
    ensures h.core == Core(Preparing, Idle, NotStarted, Nobody, true, StartPending, false, false, false, false)
  {
    trace, events, h := [INITIAL], [], INITIAL;
    trace, events, h := Extended(trace, events, h, MainStep(true));
    trace, events, h := Extended(trace, events, h, MainStep(true));
    trace, events, h := Extended(trace, events, h, MainStep(true));
    trace, events, h := Extended(trace, events, h, MainStep(true));
  }

  /** An undisturbed start leads to the running service. */
  lemma RunningIsReached() returns (trace: seq<Host>, events: seq<Event>, h: Host)
    ensures Behavior(trace, events) && trace[|events|] == h && h.log == [StartPending, Running]
    ensures h.core == Core(Ending, Idle, NotStarted, Nobody, true, Running, false, false, false, false)
  {
    trace, events, h := StartIsReached();
    RunIsReported(h);
    trace, events, h := Extended(trace, events, h, MainStep(true));
    trace, events, h := Extended(trace, events, h, MainStep(true));
    trace, events, h := Extended(trace, events, h, MainStep(true));
    trace, events, h := Extended(trace, events, h, MainStep(true));
  }

  lemma StopIsReached() returns (trace: seq<Host>, events: seq<Event>, h: Host)
    ensures Behavior(trace, events) && trace[|events|] == h && h.log == [StartPending, Running, StopPending]
    ensures h.core == Core(Ending, Idle, Sleeping, Nobody, true, StopPending, true, true, false, false)
  {
    trace, events, h := RunningIsReached();
    StopIsReported(h);
    trace, events, h := Extended(trace, events, h, HandlerCall(StopOrShutdown));
    trace, events, h := Extended(trace, events, h, HandlerStep(true, true));
    trace, events, h := Extended(trace, events, h, HandlerStep(true, true));
    trace, events, h := Extended(trace, events, h, HandlerStep(true, true));
    trace, events, h := Extended(trace, events, h, HandlerStep(true, true));
  }

  /** An undisturbed service reports START_PENDING, RUNNING, STOP_PENDING and STOPPED. */
  lemma UndisturbedService() returns (trace: seq<Host>, events: seq<Event>, h: Host)
    ensures Behavior(trace, events) && trace[|events|] == h
    ensures h.log == [StartPending, Running, StopPending, Stopped] && h.core.current == Stopped && h.core.handled
  {
    trace, events, h := StopIsReached();
    EndIsReported(h);
    trace, events, h := Extended(trace, events, h, MainStep(true));
    trace, events, h := Extended(trace, events, h, MainStep(true));
    trace, events, h := Extended(trace, events, h, MainStep(true));
  }
}
