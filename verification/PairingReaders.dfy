/**
 The readers that hold no lock while something may change: the lock-free status reader and
 the remote probe that re-checks the revision it probed.
 */
module PairingReaders {
  import opened Wrappers
  import opened PairingState
  import opened PairingPlans
  import opened PairingOutcomes
  import opened PairingProtocol
  import opened PairingSafety

  const MAX_SNAPSHOT_ATTEMPTS := 3
  const MAX_PROBE_ATTEMPTS := 3

  datatype Status = Status(progress: Option<Progress>, activeEndpoint: Option<string>)

  datatype StatusError = StatusCorrupt | ChangedRepeatedly

  /** The disk as each of the three unsynchronised reads of one attempt found it. */
  datatype Look = Look(first: Disk, middle: Disk, last: Disk)

  function ActiveBindingOf(disk: Disk): Option<Binding> {
    if disk.journal.Some? && disk.journal.value.Active? then Some(BindingOf(disk.journal.value)) else None
  }

  /** Both journal reads succeeded and found different credentials in force: the look proves nothing. */
  predicate Torn(look: Look) {
    && Loadable(look.first) && ActiveBindingOf(look.first).Some?
    && Loadable(look.last) && ActiveBindingOf(look.last) != ActiveBindingOf(look.first)
  }

  predicate BindingNames(disk: Disk, journal: Journal)
    requires journal.Active?
  {
    disk.binding.Some? && ValidBinding(disk.binding.value) && Names(disk.binding.value, journal)
  }

  /** The answer that one look settles. */
  predicate Settles(look: Look, answer: Result<Status, StatusError>) {
    if !Loadable(look.first) then answer == Failure(StatusCorrupt)
    else if look.first.journal.None? || !look.first.journal.value.Active? then
      answer.Success? && answer.value.activeEndpoint.None? && Shows(answer.value.progress, look.first.journal)
    else
      var active := look.first.journal.value;
      if !Loadable(look.last) || !BindingNames(look.middle, active) then answer == Failure(StatusCorrupt)
      else
        && answer.Success? && answer.value.activeEndpoint == Some(active.reportEndpoint)
        && Shows(answer.value.progress, look.first.journal)
  }

  /** The first look that is not torn settles the answer; if all are, there is none. */
  predicate StatusAnswer(looks: seq<Look>, answer: Result<Status, StatusError>) {
    || (exists k | 0 <= k < |looks| ::
          (forall i | 0 <= i < k :: Torn(looks[i])) && !Torn(looks[k]) && Settles(looks[k], answer))
    || ((forall i | 0 <= i < |looks| :: Torn(looks[i])) && answer == Failure(ChangedRepeatedly))
  }

  method LocalStatus(looks: seq<Look>) returns (answer: Result<Status, StatusError>)
    requires |looks| == MAX_SNAPSHOT_ATTEMPTS
    ensures StatusAnswer(looks, answer)
  {
    for k := 0 to MAX_SNAPSHOT_ATTEMPTS
      invariant forall i | 0 <= i < k :: Torn(looks[i])
    {
      var state := LoadJournal(looks[k].first);
      if state.Failure? {
        return Failure(StatusCorrupt);
      }
      if state.value.None? || !state.value.value.Active? {
        return Success(Status(if state.value.Some? then Some(ProgressOf(state.value.value)) else None, None));
      }
      var expected := BindingOf(state.value.value);
      var binding := LoadBinding(looks[k].middle);
      var current := LoadJournal(looks[k].last);
      if current.Failure? {
        return Failure(StatusCorrupt);
      }
      if ActiveBindingOf(looks[k].last) != Some(expected) {
        continue;
      }
      if binding.Failure? || binding.value != Some(expected) {
        return Failure(StatusCorrupt);
      }
      return Success(Status(Some(ProgressOf(state.value.value)), Some(expected.reportEndpoint)));
    }
    return Failure(ChangedRepeatedly);
  }

  /** The attempts were made in this order during a run of the protocol. */
  ghost predicate LooksDuring(trace: seq<System>, times: seq<nat>, looks: seq<Look>) {
    && |times| == 3 * |looks|
    && (forall i, j | 0 <= i <= j < |times| :: times[i] <= times[j] < |trace|)
    && (forall k | 0 <= k < |looks| ::
          && looks[k].first == trace[times[3 * k]].disk
          && looks[k].middle == trace[times[3 * k + 1]].disk
          && looks[k].last == trace[times[3 * k + 2]].disk)
  }

  /** The journal and the binding stood on disk together, and gave this answer, at one instant. */
  predicate StatusAt(disk: Disk, status: Status) {
    && Shows(status.progress, disk.journal)
    && status.activeEndpoint == (if disk.journal.Some? && disk.journal.value.Active?
                                 then Some(disk.journal.value.reportEndpoint) else None)
    && (status.activeEndpoint.Some? ==> BindingNames(disk, disk.journal.value))
  }

  /** One attempt, at three ordered instants of a run: nothing read is corrupt or mismatched. */
  lemma LookIsConsistent(trace: seq<System>, events: seq<Event>, m: nat, k: nat, n: nat)
    requires Behavior(trace, events) && Inv(trace[0])
    requires m <= k <= n < |trace|
    ensures LoadJournal(trace[m].disk).Success? && LoadJournal(trace[n].disk).Success?
    ensures ActiveBindingOf(trace[m].disk).Some? && ActiveBindingOf(trace[n].disk) == ActiveBindingOf(trace[m].disk) ==>
              && trace[k].disk.journal == trace[m].disk.journal
              && LoadBinding(trace[k].disk) == Success(ActiveBindingOf(trace[m].disk))
  {
    LoadableAt(trace, events, m);
    LoadableAt(trace, events, n);
    if ActiveBindingOf(trace[m].disk).Some? && ActiveBindingOf(trace[n].disk) == ActiveBindingOf(trace[m].disk) {
      ActiveTwiceMeansThroughout(trace, events, m, k, n, ActiveBindingOf(trace[m].disk).value);
    }
  }

  lemma LooksAreConsistent(trace: seq<System>, events: seq<Event>, times: seq<nat>, looks: seq<Look>, k: nat)
    requires Behavior(trace, events) && Inv(trace[0])
    requires LooksDuring(trace, times, looks) && k < |looks|
    ensures LoadJournal(looks[k].first).Success? && LoadJournal(looks[k].last).Success?
    ensures ActiveBindingOf(looks[k].first).Some? && !Torn(looks[k]) ==>
              && looks[k].middle.journal == looks[k].first.journal
              && LoadBinding(looks[k].middle) == Success(ActiveBindingOf(looks[k].first))
    ensures times[0] <= times[3 * k] <= times[3 * k + 1] <= times[3 * k + 2] <= times[|times| - 1] < |trace|
  {
    LookIsConsistent(trace, events, times[3 * k], times[3 * k + 1], times[3 * k + 2]);
  }

  /** A look at a journal that is not Active tells the truth about the instant it was read at. */
  lemma InactiveLook(trace: seq<System>, events: seq<Event>, times: seq<nat>, looks: seq<Look>, k: nat, status: Status)
    requires Behavior(trace, events) && Inv(trace[0])
    requires LooksDuring(trace, times, looks) && k < |looks|
    requires ActiveBindingOf(looks[k].first).None? && Settles(looks[k], Success(status))
    ensures exists n | times[0] <= n <= times[|times| - 1] :: StatusAt(trace[n].disk, status)
  {
    LooksAreConsistent(trace, events, times, looks, k);
    assert StatusAt(trace[times[3 * k]].disk, status);
  }

  /** An untorn look at an Active journal tells the truth about the instant the binding was read at. */
  lemma ActiveLook(trace: seq<System>, events: seq<Event>, times: seq<nat>, looks: seq<Look>, k: nat, status: Status)
    requires Behavior(trace, events) && Inv(trace[0])
    requires LooksDuring(trace, times, looks) && k < |looks|
    requires ActiveBindingOf(looks[k].first).Some? && !Torn(looks[k]) && Settles(looks[k], Success(status))
    ensures exists n | times[0] <= n <= times[|times| - 1] :: StatusAt(trace[n].disk, status)
  {
    LooksAreConsistent(trace, events, times, looks, k);
    assert StatusAt(trace[times[3 * k + 1]].disk, status);
  }

  /** In a run no look finds anything corrupt. */
  lemma NothingCorrupt(trace: seq<System>, events: seq<Event>, times: seq<nat>, looks: seq<Look>, k: nat,
                       answer: Result<Status, StatusError>)
    requires Behavior(trace, events) && Inv(trace[0])
    requires LooksDuring(trace, times, looks) && k < |looks|
    requires !Torn(looks[k]) && Settles(looks[k], answer)
    ensures answer.Success?
  {
    LooksAreConsistent(trace, events, times, looks, k);
  }

  /**
   The lock-free reader linearises against every concurrent writer: each successful status was
   the state of the disk at one instant of the call, a corrupt state is never reported, and
   giving up means that during each attempt the journal changed.
   */
  lemma LocalStatusLinearises(trace: seq<System>, events: seq<Event>, times: seq<nat>, looks: seq<Look>,
                              answer: Result<Status, StatusError>)
    requires Behavior(trace, events) && Inv(trace[0])
    requires LooksDuring(trace, times, looks) && |looks| == MAX_SNAPSHOT_ATTEMPTS
    requires StatusAnswer(looks, answer)
    ensures answer.Success? ==>
              exists n | times[0] <= n <= times[|times| - 1] :: StatusAt(trace[n].disk, answer.value)
    ensures answer.Failure? ==> answer.error == ChangedRepeatedly
    ensures answer.Failure? ==> forall k | 0 <= k < |looks| :: looks[k].first.journal != looks[k].last.journal
  {
    if exists k | 0 <= k < |looks| :: !Torn(looks[k]) && Settles(looks[k], answer) {
      var k :| 0 <= k < |looks| && !Torn(looks[k]) && Settles(looks[k], answer);
      NothingCorrupt(trace, events, times, looks, k, answer);
      if ActiveBindingOf(looks[k].first).None? {
        InactiveLook(trace, events, times, looks, k, answer.value);
      } else {
        ActiveLook(trace, events, times, looks, k, answer.value);
      }
    }
  }

  lemma LoadableAt(trace: seq<System>, events: seq<Event>, n: nat)
    requires Behavior(trace, events) && Inv(trace[0]) && n < |trace|
    ensures LoadJournal(trace[n].disk).Success?
  {
    BehaviorKeepsInv(trace, events, n);
    if trace[n].disk.journal.Some? {
      JournalInHistory(trace[n]);
    }
  }

  // ----- The remote probe -----

  datatype Remote = RemoteAuthorized(hostId: Uuid) | RemoteUnauthorized | RemoteUnsupported | RemoteFailed

  datatype BindingState =
    | NoBinding
    | LocalOnly
    | TimedOut
    | TokenCorrupt
    | ConcurrentlyChanged
    | Verdict(revision: Revision, remote: Remote)

  /** One attempt: time left, the disk the reporter was built from, the reply, the disk re-checked. */
  datatype Probe = Probe(inTime: bool, before: Disk, remote: Remote, after: Disk)

  /** The revision of the reporter the probe was sent with, if one could be built. */
  function ProbedRevision(probe: Probe): Option<Revision> {
    var reporter := CurrentReporter(probe.before);
    if reporter.Success? && reporter.value.Some? then Some(reporter.value.value.revision) else None
  }

  predicate Probed(probe: Probe, revision: Revision) {
    ProbedRevision(probe) == Some(revision) && ActiveRevision(probe.after) == Success(Some(revision))
  }

  /** The credential was rotated while it was being probed, in time to try again. */
  predicate Rotated(probe: Probe) {
    && probe.inTime
    && ProbedRevision(probe).Some?
    && ActiveRevision(probe.after).Success?
    && ActiveRevision(probe.after).value.Some?
    && ActiveRevision(probe.after).value != ProbedRevision(probe)
  }

  /** The one answer of a probe that is not to be repeated. */
  predicate Concludes(probe: Probe, state: BindingState) {
    if !probe.inTime then state == TimedOut
    else if CurrentReporter(probe.before) == Failure(CorruptToken) then state == TokenCorrupt
    else if ProbedRevision(probe).None? || ActiveRevision(probe.after).Failure? then state == LocalOnly
    else if ActiveRevision(probe.after).value.None? then state == ConcurrentlyChanged
    else state == Verdict(ProbedRevision(probe).value, probe.remote)
  }

  /** The first probe that is not to be repeated concludes; if all are, the credential keeps changing. */
  predicate ProbesAnswer(probes: seq<Probe>, state: BindingState) {
    || (exists k | 0 <= k < |probes| ::
          (forall i | 0 <= i < k :: Rotated(probes[i])) && !Rotated(probes[k]) && Concludes(probes[k], state))
    || ((forall i | 0 <= i < |probes| :: Rotated(probes[i])) && state == ConcurrentlyChanged)
  }

  method ExistingBindingState(activeEndpoint: Option<string>, probes: seq<Probe>) returns (state: BindingState)
    requires |probes| == MAX_PROBE_ATTEMPTS
    ensures activeEndpoint.None? ==> state == NoBinding
    ensures activeEndpoint.Some? ==> ProbesAnswer(probes, state)
  {
    if activeEndpoint.None? {
      return NoBinding;
    }
    for k := 0 to MAX_PROBE_ATTEMPTS
      invariant forall i | 0 <= i < k :: Rotated(probes[i])
    {
      if !probes[k].inTime {
        return TimedOut;
      }
      var reporter := CurrentReporter(probes[k].before);
      if reporter == Failure(CorruptToken) {
        return TokenCorrupt;
      }
      if reporter.Failure? || reporter.value.None? {
        return LocalOnly;
      }
      var revision := reporter.value.value.revision;
      var current := ActiveRevision(probes[k].after);
      if current.Failure? {
        return LocalOnly;
      }
      if current.value.None? {
        return ConcurrentlyChanged;
      }
      if current.value.value == revision {
        return Verdict(revision, probes[k].remote);
      }
    }
    return ConcurrentlyChanged;
  }

  /** At the first probe that is not repeated, each outcome has exactly its own cause. */
  lemma ProbeOutcomes(probes: seq<Probe>, state: BindingState, k: nat)
    requires ProbesAnswer(probes, state) && k < |probes|
    requires (forall i | 0 <= i < k :: Rotated(probes[i])) && !Rotated(probes[k])
    ensures state == TimedOut <==> !probes[k].inTime
    ensures state == TokenCorrupt <==> probes[k].inTime && CurrentReporter(probes[k].before) == Failure(CorruptToken)
    ensures forall revision, remote ::
              state == Verdict(revision, remote) <==>
                probes[k].inTime && Probed(probes[k], revision) && remote == probes[k].remote
    ensures state == ConcurrentlyChanged <==>
              && probes[k].inTime && ProbedRevision(probes[k]).Some? && ActiveRevision(probes[k].after) == Success(None)
    ensures state == LocalOnly <==>
              && probes[k].inTime && CurrentReporter(probes[k].before) != Failure(CorruptToken)
              && (ProbedRevision(probes[k]).None? || ActiveRevision(probes[k].after).Failure?)
    ensures state != NoBinding
  {
    assert Concludes(probes[k], state);
  }

  ghost predicate ProbesDuring(trace: seq<System>, times: seq<nat>, probes: seq<Probe>) {
    && |times| == 2 * |probes|
    && (forall i, j | 0 <= i <= j < |times| :: times[i] <= times[j] < |trace|)
    && (forall k | 0 <= k < |probes| ::
          && probes[k].before == trace[times[2 * k]].disk
          && probes[k].after == trace[times[2 * k + 1]].disk)
  }

  /**
   A probe verdict describes the credential still in force: from building the reporter to the
   re-check the probed revision was the Active one on disk, without a gap, and stayed authorized.
   */
  lemma VerdictDescribesCredentialInForce(trace: seq<System>, events: seq<Event>, times: seq<nat>, probes: seq<Probe>,
                                          state: BindingState)
    returns (k: nat)
    requires Behavior(trace, events) && Inv(trace[0])
    requires ProbesDuring(trace, times, probes)
    requires state.Verdict?
    requires exists i | 0 <= i < |probes| :: Probed(probes[i], state.revision) && state.remote == probes[i].remote
    ensures k < |probes| && state.remote == probes[k].remote
    ensures forall n | times[2 * k] <= n <= times[2 * k + 1] ::
              && ActiveBindingOf(trace[n].disk).Some?
              && trace[n].disk.journal == trace[times[2 * k]].disk.journal
              && trace[n].disk.binding == ActiveBindingOf(trace[n].disk)
              && state.revision == (trace[n].disk.binding.value.generation, trace[n].disk.binding.value.requestId)
              && IsAuthorized(trace[n].disk)
  {
    k :| 0 <= k < |probes| && Probed(probes[k], state.revision) && state.remote == probes[k].remote;
    assert times[2 * k] <= times[2 * k + 1];
    ProbedInForce(trace, events, times[2 * k], times[2 * k + 1], probes[k], state.revision);
  }

  /** One probe between two instants of a run that found its revision in force at both. */
  lemma ProbedInForce(trace: seq<System>, events: seq<Event>, m: nat, e: nat, probe: Probe, revision: Revision)
    requires Behavior(trace, events) && Inv(trace[0]) && m <= e < |trace|
    requires probe.before == trace[m].disk && probe.after == trace[e].disk && Probed(probe, revision)
    ensures forall n | m <= n <= e ::
              && ActiveBindingOf(trace[n].disk).Some?
              && trace[n].disk.journal == trace[m].disk.journal
              && trace[n].disk.binding == ActiveBindingOf(trace[n].disk)
              && revision == (trace[n].disk.binding.value.generation, trace[n].disk.binding.value.requestId)
              && IsAuthorized(trace[n].disk)
  {
    InForceBetween(trace, events, m, e);
  }

  /** Active under one generation and authorized at both ends: in force all the way. */
  lemma InForceBetween(trace: seq<System>, events: seq<Event>, m: nat, e: nat)
    requires Behavior(trace, events) && Inv(trace[0]) && m <= e < |trace|
    requires ActiveBindingOf(trace[m].disk).Some? && ActiveBindingOf(trace[e].disk).Some?
    requires ActiveBindingOf(trace[m].disk).value.generation == ActiveBindingOf(trace[e].disk).value.generation
    requires trace[m].disk.binding == ActiveBindingOf(trace[m].disk)
    requires IsAuthorized(trace[e].disk)
    ensures forall n | m <= n <= e ::
              && trace[n].disk.journal == trace[m].disk.journal
              && ActiveBindingOf(trace[n].disk) == trace[n].disk.binding == trace[m].disk.binding
              && IsAuthorized(trace[n].disk)
  {
    JournalAt(trace, events, m);
    JournalAt(trace, events, e);
    var binding := ActiveBindingOf(trace[m].disk).value;
    SameGenerationSameBinding(trace, events, m, e);
    forall n | m <= n <= e
      ensures trace[n].disk.journal == trace[m].disk.journal && trace[n].disk.binding == Some(binding)
    {
      ActiveTwiceMeansThroughout(trace, events, m, n, e, binding);
    }
    forall n | m <= n <= e ensures IsAuthorized(trace[n].disk) {
      AuthorizationNotRegained(trace, events, n, e);
    }
  }

  lemma SameGenerationSameBinding(trace: seq<System>, events: seq<Event>, m: nat, n: nat)
    requires Behavior(trace, events) && Inv(trace[0]) && m <= n < |trace|
    requires ActiveBindingOf(trace[m].disk).Some? && ActiveBindingOf(trace[n].disk).Some?
    requires ActiveBindingOf(trace[m].disk).value.generation == ActiveBindingOf(trace[n].disk).value.generation
    ensures ActiveBindingOf(trace[m].disk) == ActiveBindingOf(trace[n].disk)
  {
    JournalAt(trace, events, m);
    JournalAt(trace, events, n);
    HistoryOnlyGrows(trace, events, m, n);
    ActiveIsTerminal(trace[m].history, trace[n].history);
  }
}
