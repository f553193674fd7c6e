/**
 What every transaction promises its caller, phase by phase, said of the five files alone: when it changes
 them, to what, and what it returns. The plans are proved to keep these promises.
 */
module PairingOutcomes {
  import opened Wrappers
  import opened PairingState
  import opened PairingPlans

  predicate Loadable(disk: Disk) {
    disk.journal.Some? ==> disk.journal.value.generation != 0
  }

  /** The binding file names the credential that this journal installs or installed. */
  predicate Names(binding: Binding, journal: Journal)
    requires journal.Activating? || journal.Active?
  {
    && binding.generation == journal.generation && binding.requestId == journal.requestId
    && binding.instanceId == journal.instanceId && binding.reportEndpoint == journal.reportEndpoint
  }

  /** What the user is shown of a journal, phase by phase; a commit in progress still looks like a creation. */
  predicate Shows(progress: Option<Progress>, journal: Option<Journal>) {
    match journal
    case None => progress == None
    case Some(Creating(generation, _, report, _, _, _)) => progress == Some(InCreation(generation, report))
    case Some(Pending(generation, requestId, url, expiresAt, interval, _, _, _, _)) =>
      progress == Some(Waiting(Session(generation, requestId, url, expiresAt, interval)))
    case Some(Activating(generation, _, _, _, _, _, _, report, _)) => progress == Some(InCreation(generation, report))
    case Some(Active(generation, requestId, _, instanceId, report, _)) =>
      progress == Some(InForce(generation, requestId, instanceId, report))
    case Some(Denied(generation, requestId, url, _, _)) => progress == Some(Refused(generation, requestId, url))
    case Some(Expired(generation, requestId, url, _, _)) => progress == Some(Lapsed(generation, requestId, url))
  }

  lemma ProgressShows(journal: Journal)
    ensures Shows(Some(ProgressOf(journal)), Some(journal))
  {
  }

  // ----- The commit -----

  /** What a completed commit leaves: every file of the directory is determined. */
  function Committed(activating: Journal, now: int): Disk
    requires activating.Activating?
  {
    Disk(Some(activating.instanceId),
         Some(activating.bearer),
         Some(Active(activating.generation, activating.requestId, activating.activationUrl, activating.instanceId,
                     activating.reportEndpoint, now)),
         Some(AuthState(Authorized, "browser pairing completed", now)),
         Some(Binding(activating.generation, activating.requestId, activating.instanceId, activating.reportEndpoint)))
  }

  predicate Identified(activating: Journal)
    requires activating.Activating?
  {
    && activating.generation != 0 && activating.requestId != 0 && activating.instanceId != 0
    && EndpointIsSafe(activating.reportEndpoint)
  }

  predicate Committable(activating: Journal) {
    activating.Activating? && Identified(activating) && ValidToken(activating.bearer)
  }

  /** The disk when the first `n` of the five commit writes have reached it. */
  function Partly(disk: Disk, activating: Journal, now: int, n: nat): Disk
    requires activating.Activating?
  {
    var full := Committed(activating, now);
    Disk(if n >= 2 then full.identity else disk.identity,
         if n >= 1 then full.credential else disk.credential,
         if n >= 5 then full.journal else disk.journal,
         if n >= 4 then full.auth else disk.auth,
         if n >= 3 then full.binding else disk.binding)
  }

  lemma {:induction false} CommitPrefix(disk: Disk, activating: Journal, now: int, n: nat)
    requires activating.Activating?
    requires n <= 5
    ensures ApplyAll(disk, CommitWrites(activating, now)[..n]) == Partly(disk, activating, now, n)
  {
    var writes := CommitWrites(activating, now);
    if n > 0 {
      assert writes[..n] == writes[..n - 1] + [writes[n - 1]];
      CommitPrefix(disk, activating, now, n - 1);
      ApplyAllConcat(disk, writes[..n - 1], [writes[n - 1]]);
      ApplyOne(Partly(disk, activating, now, n - 1), writes[n - 1]);
    }
  }

  /** The outcome of a commit that `reached` of its five writes survived. */
  ghost predicate CommitPromise(before: Disk, activating: Journal, now: int, reached: nat, after: Disk,
                                result: Result<(), Error>)
  {
    if !activating.Activating? then after == before && result == Failure(InternalError)
    else if !Identified(activating) then after == before && result == Failure(UnsafeBinding)
    else if !ValidToken(activating.bearer) then after == before && result == Failure(CorruptToken)
    else
      && after == Partly(before, activating, now, reached)
      && result == if reached >= 5 then Success(()) else Failure(Interrupted)
  }

  lemma CommitOutcome(disk: Disk, activating: Journal, now: int)
    ensures var plan := CommitPlan(activating, now);
            CommitPromise(disk, activating, now, 5, ApplyAll(disk, plan.writes), plan.result)
  {
    if activating.Activating? {
      CommitPrefix(disk, activating, now, 5);
      assert CommitWrites(activating, now)[..5] == CommitWrites(activating, now);
    }
  }

  /** A replacement commits the journal on disk if it is the requested one, whatever the caller's copy holds. */
  ghost predicate ReplacePromise(before: Disk, requested: Journal, now: int, reached: nat, after: Disk,
                                 result: Result<(), Error>)
  {
    if !requested.Activating? then after == before && result == Failure(InternalError)
    else if !Loadable(before) then after == before && result == Failure(Corrupt)
    else if && before.journal.Some? && before.journal.value.Activating?
            && before.journal.value.generation == requested.generation
            && before.journal.value.requestId == requested.requestId
    then CommitPromise(before, before.journal.value, now, reached, after, result)
    else after == before && result == Failure(Superseded)
  }

  /** What finishing the Activating journal on disk does: everything, or nothing and an error. */
  predicate FinishPromise(before: Disk, activating: Journal, now: int, after: Disk, result: Result<Progress, Error>)
    requires activating.Activating?
  {
    if Committable(activating) then
      && after == Committed(activating, now)
      && result == Success(InForce(activating.generation, activating.requestId, activating.instanceId,
                                   activating.reportEndpoint))
    else
      && after == before
      && result == Failure(if Identified(activating) then CorruptToken else UnsafeBinding)
  }

  lemma FinishOutcome(disk: Disk, activating: Journal, now: int)
    requires activating.Activating? && activating.generation != 0 && disk.journal == Some(activating)
    ensures var plan := FinishPlan(disk, activating, now);
            FinishPromise(disk, activating, now, ApplyAll(disk, plan.writes), plan.result)
    ensures |FinishPlan(disk, activating, now).writes| <= 5
  {
    CommitOutcome(disk, activating, now);
  }

  // ----- Compare and persist -----

  /** The journal is replaced if it is the expected one, and otherwise nothing happens. */
  predicate ReplacedIf(same: bool, before: Disk, next: Journal, after: Disk, result: Result<(), Error>) {
    if same && Loadable(before) then after == before.(journal := Some(next)) && result == Success(())
    else after == before && result == Failure(if Loadable(before) then Superseded else Corrupt)
  }

  predicate SameCreating(journal: Option<Journal>, expected: Journal)
    requires expected.Creating?
  {
    && journal.Some? && journal.value.Creating?
    && journal.value.generation == expected.generation && journal.value.polling == expected.polling
    && journal.value.pairingEndpoint == expected.pairingEndpoint && journal.value.reportEndpoint == expected.reportEndpoint
  }

  predicate SamePending(journal: Option<Journal>, expected: Journal)
    requires expected.Pending?
  {
    && journal.Some? && journal.value.Pending?
    && journal.value.generation == expected.generation && journal.value.requestId == expected.requestId
    && journal.value.polling == expected.polling
    && journal.value.pairingEndpoint == expected.pairingEndpoint && journal.value.reportEndpoint == expected.reportEndpoint
  }

  lemma CompareCreatingOutcome(disk: Disk, expected: Journal, next: Journal)
    requires expected.Creating?
    ensures var plan := CasCreatingPlan(disk, expected, next);
            ReplacedIf(SameCreating(disk.journal, expected), disk, next, ApplyAll(disk, plan.writes), plan.result)
  {
    ApplyOne(disk, WriteJournal(next));
  }

  lemma ComparePendingOutcome(disk: Disk, expected: Journal, next: Journal)
    requires expected.Pending?
    ensures var plan := CasPendingPlan(disk, expected, next);
            ReplacedIf(SamePending(disk.journal, expected), disk, next, ApplyAll(disk, plan.writes), plan.result)
  {
    ApplyOne(disk, WriteJournal(next));
  }

  // ----- The server's confirmation, and recovering it -----

  /** The pending request becomes this Activating journal, and the commit follows. */
  predicate ConfirmPromise(before: Disk, pending: Journal, instanceId: Uuid, now: int, after: Disk,
                           result: Result<Progress, Error>)
  {
    if !pending.Pending? then after == before && result == Failure(InternalError)
    else if !Loadable(before) then after == before && result == Failure(Corrupt)
    else if !SamePending(before.journal, pending) then after == before && result == Failure(Superseded)
    else
      var activating := Activating(pending.generation, pending.requestId, pending.activationUrl, pending.expiresAt,
                                   pending.pollInterval, instanceId, pending.pairingEndpoint, pending.reportEndpoint,
                                   pending.bearer);
      FinishPromise(before.(journal := Some(activating)), activating, now, after, result)
  }

  lemma ConfirmOutcome(disk: Disk, pending: Journal, instanceId: Uuid, now: int)
    ensures var plan := PersistActivePlan(disk, pending, instanceId, now);
            ConfirmPromise(disk, pending, instanceId, now, ApplyAll(disk, plan.writes), plan.result)
    ensures |PersistActivePlan(disk, pending, instanceId, now).writes| <= 6
  {
    if pending.Pending? && Loadable(disk) && PendingIsCurrent(disk, pending) {
      var activating := ActivatingFrom(pending, instanceId);
      var confirmed := ApplyWrite(disk, WriteJournal(activating));
      FinishOutcome(confirmed, activating, now);
      ApplyOne(disk, WriteJournal(activating));
      ApplyAllConcat(disk, [WriteJournal(activating)], FinishPlan(confirmed, activating, now).writes);
    }
  }

  predicate RecoverPromise(before: Disk, expected: Journal, now: int, after: Disk, result: Result<Progress, Error>) {
    if !expected.Activating? then after == before && result == Failure(InternalError)
    else if !Loadable(before) then after == before && result == Failure(Corrupt)
    else
      match before.journal
      case Some(Activating(generation, requestId, _, _, _, _, _, _, _)) =>
        if (generation, requestId) == (expected.generation, expected.requestId)
        then FinishPromise(before, before.journal.value, now, after, result)
        else after == before && result == Failure(Superseded)
      case Some(Active(generation, requestId, _, instanceId, endpoint, _)) =>
        && after == before
        && result == if (generation, requestId) == (expected.generation, expected.requestId)
                     then Success(InForce(generation, requestId, instanceId, endpoint)) else Failure(Superseded)
      case _ => after == before && result == Failure(Superseded)
  }

  lemma RecoverOutcome(disk: Disk, expected: Journal, now: int)
    ensures var plan := RecoverPlan(disk, expected, now);
            RecoverPromise(disk, expected, now, ApplyAll(disk, plan.writes), plan.result)
    ensures |RecoverPlan(disk, expected, now).writes| <= 5
  {
    if disk.journal.Some? && disk.journal.value.Activating? && Loadable(disk) {
      FinishOutcome(disk, disk.journal.value, now);
    }
  }

  // ----- Starting -----

  /** A new generation from the drawn secrets replaces whatever journal is there. */
  predicate CreatedAnew(before: Disk, config: Config, host: Uuid, drawn: Drawn, after: Disk, result: Result<Start, Error>) {
    var creating := Creating(drawn.generation, config.pairingEndpoint, config.endpoint, host, drawn.bearer, drawn.polling);
    after == before.(journal := Some(creating)) && result == Success(Create(creating))
  }

  /** What starting does with the journal it finds; `here` says that it is for the configured server. */
  predicate StartPromise(before: Disk, config: Config, host: Uuid, now: int, drawn: Drawn, after: Disk,
                         result: Result<Start, Error>)
  {
    if before.journal.None? then CreatedAnew(before, config, host, drawn, after, result)
    else if before.journal.value.generation == 0 then after == before && result == Failure(Corrupt)
    else
      match before.journal.value
      case Creating(_, pairing, report, _, _, _) =>
        if config.replacePending then CreatedAnew(before, config, host, drawn, after, result)
        else
          var here := (pairing, report) == (config.pairingEndpoint, config.endpoint);
          && after == before
          && result == if here then Success(Create(before.journal.value)) else Failure(OtherServerCreating)
      case Pending(generation, requestId, url, expiresAt, interval, pairing, report, _, _) =>
        var here := (pairing, report) == (config.pairingEndpoint, config.endpoint);
        var session := Session(generation, requestId, url, expiresAt, interval);
        if config.replacePending || (!here && expiresAt <= now) then CreatedAnew(before, config, host, drawn, after, result)
        else
          && after == before
          && result == if !here then Failure(OtherServerPending)
                       else if expiresAt > now then Success(Resume(session)) else Success(CheckExpired(session))
      case Activating(generation, requestId, url, expiresAt, interval, _, pairing, report, _) =>
        var here := (pairing, report) == (config.pairingEndpoint, config.endpoint);
        var activating := before.journal.value;
        if !Committable(activating) then
          && after == before
          && result == Failure(if Identified(activating) then CorruptToken else UnsafeBinding)
        else if here then
          && after == Committed(activating, now)
          && result == Success(Resume(Session(generation, requestId, url, expiresAt, interval)))
        else CreatedAnew(Committed(activating, now), config, host, drawn, after, result)
      case Active(_, _, _, _, _, _) =>
        if && before.binding.Some? && ValidBinding(before.binding.value)
           && Names(before.binding.value, before.journal.value)
        then CreatedAnew(before, config, host, drawn, after, result)
        else after == before && result == Failure(Corrupt)
      case _ => CreatedAnew(before, config, host, drawn, after, result)
  }

  lemma CreateOutcome(disk: Disk, config: Config, host: Uuid, drawn: Drawn)
    ensures var plan := CreatePlan(config, host, drawn);
            CreatedAnew(disk, config, host, drawn, ApplyAll(disk, plan.writes), plan.result)
  {
    ApplyOne(disk, WriteJournal(CreatingFrom(config, host, drawn)));
  }

  lemma StartOutcome(disk: Disk, config: Config, host: Uuid, now: int, drawn: Drawn)
    ensures var plan := StartPlan(disk, config, host, now, drawn);
            StartPromise(disk, config, host, now, drawn, ApplyAll(disk, plan.writes), plan.result)
    ensures |StartPlan(disk, config, host, now, drawn).writes| <= 6
  {
    CreateOutcome(disk, config, host, drawn);
    if disk.journal.Some? && disk.journal.value.Activating? && Loadable(disk) {
      var activating := disk.journal.value;
      var finish := FinishPlan(disk, activating, now);
      FinishOutcome(disk, activating, now);
      CreateOutcome(ApplyAll(disk, finish.writes), config, host, drawn);
      ApplyAllConcat(disk, finish.writes, CreatePlan(config, host, drawn).writes);
    }
  }

  // ----- Reporters -----

  /** The reporter of a coherent binding: identity and token must be there and be right. */
  function Reporter(disk: Disk, binding: Binding): Result<Option<Snapshot>, Error> {
    if disk.identity.None? then Failure(IdentityMissing)
    else if disk.identity.value != binding.instanceId then Failure(IdentityMismatch)
    else if disk.credential.None? then Success(None)
    else if !ValidToken(disk.credential.value) then Failure(CorruptToken)
    else Success(Some(Snapshot((binding.generation, binding.requestId), disk.credential.value, binding.instanceId,
                               binding.instanceId, binding.reportEndpoint)))
  }

  /** The binding file is usable under the journal on disk; under an Active one it must name that credential. */
  predicate Coherent(disk: Disk)
    requires disk.journal.Some? && !disk.journal.value.Activating?
  {
    && disk.binding.Some? && ValidBinding(disk.binding.value)
    && (disk.journal.value.Active? ==> Names(disk.binding.value, disk.journal.value))
  }

  lemma ReporterOutcome(disk: Disk)
    requires disk.journal.Some? && !disk.journal.value.Activating? && Loadable(disk) && Coherent(disk) && IsAuthorized(disk)
    ensures ReporterFor(disk, disk.binding.value) == Reporter(disk, disk.binding.value)
  {
  }

  lemma CurrentReporterOutcome(disk: Disk)
    ensures CurrentReporter(disk) ==
              if !IsAuthorized(disk) || disk.journal.None? then Success(None)
              else if !Loadable(disk) then Failure(Corrupt)
              else if !disk.journal.value.Active? then Success(None)
              else if !Coherent(disk) then Failure(Corrupt)
              else Reporter(disk, disk.binding.value)
  {
    if disk.journal.Some? && disk.journal.value.Active? && Loadable(disk) && Coherent(disk) && IsAuthorized(disk) {
      ReporterOutcome(disk);
    }
  }

  /** The newer credential, if it is not the one the caller already has. */
  lemma RefreshOutcome(disk: Disk, revision: Revision)
    ensures RefreshReporter(disk, revision) ==
              if !IsAuthorized(disk) || disk.journal.None? then Success(None)
              else if !Loadable(disk) then Failure(Corrupt)
              else if disk.journal.value.Activating? then Success(None)
              else if !Coherent(disk) then Failure(Corrupt)
              else if (disk.binding.value.generation, disk.binding.value.requestId) == revision then Success(None)
              else Reporter(disk, disk.binding.value)
  {
    if disk.journal.Some? && !disk.journal.value.Activating? && Loadable(disk) && IsAuthorized(disk) && Coherent(disk) {
      ReporterOutcome(disk);
    }
  }

  /** The reporter of exactly the pairing the caller has just seen become Active. */
  lemma ActivateOutcome(disk: Disk, expected: Binding)
    ensures ActivateReporter(disk, expected).Success? <==>
              && IsAuthorized(disk) && disk.journal.Some? && Loadable(disk) && disk.journal.value.Active?
              && Names(expected, disk.journal.value) && ValidBinding(expected) && disk.binding == Some(expected)
              && disk.identity == Some(expected.instanceId) && disk.credential.Some? && ValidToken(disk.credential.value)
    ensures ActivateReporter(disk, expected).Success? ==>
              ActivateReporter(disk, expected).value ==
              Snapshot((expected.generation, expected.requestId), disk.credential.value, expected.instanceId,
                       expected.instanceId, expected.reportEndpoint)
  {
    if disk.journal.Some? && disk.journal.value.Active? && Loadable(disk) && IsAuthorized(disk) && Coherent(disk) {
      ReporterOutcome(disk);
    }
  }

  lemma ActiveRevisionOutcome(disk: Disk)
    ensures ActiveRevision(disk) ==
              if !IsAuthorized(disk) || disk.journal.None? then Success(None)
              else if !Loadable(disk) then Failure(Corrupt)
              else if !disk.journal.value.Active? then Success(None)
              else if !Coherent(disk) then Failure(Corrupt)
              else Success(Some((disk.journal.value.generation, disk.journal.value.requestId)))
  {
  }

  /** A service that starts: an interrupted commit is finished, an older credential under a new request is found. */
  predicate ServicePromise(before: Disk, now: int, after: Disk, result: Result<Option<Snapshot>, Error>) {
    if before.journal.None? then after == before && result == Success(None)
    else if !Loadable(before) then after == before && result == Failure(Corrupt)
    else if before.journal.value.Activating? then
      var activating := before.journal.value;
      if Committable(activating) then
        && after == Committed(activating, now)
        && result == Success(Some(Snapshot((activating.generation, activating.requestId), activating.bearer,
                                           activating.instanceId, activating.instanceId, activating.reportEndpoint)))
      else
        after == before && result == Failure(if Identified(activating) then CorruptToken else UnsafeBinding)
    else
      && after == before
      && result == if !IsAuthorized(before) || before.journal.value.Active? then Success(None)
                   else if !Coherent(before) then Failure(Corrupt)
                   else Reporter(before, before.binding.value)
  }

  lemma ServiceOutcome(disk: Disk, now: int)
    ensures var plan := ExistingReporterPlan(disk, now);
            ServicePromise(disk, now, ApplyAll(disk, plan.writes), plan.result)
    ensures |ExistingReporterPlan(disk, now).writes| <= 5
  {
    if disk.journal.Some? && Loadable(disk) {
      if disk.journal.value.Activating? {
        FinishOutcome(disk, disk.journal.value, now);
        CurrentReporterOutcome(ApplyAll(disk, FinishPlan(disk, disk.journal.value, now).writes));
      } else if IsAuthorized(disk) && !disk.journal.value.Active? && Coherent(disk) {
        ReporterOutcome(disk);
      }
    }
  }

  // ----- Revocation -----

  /** The credential that is on disk outside a commit carries this revision. */
  predicate CarriesRevision(disk: Disk, revision: Revision) {
    && disk.journal.Some? && Loadable(disk) && !disk.journal.value.Activating? && Coherent(disk)
    && disk.binding.value.generation == revision.0 && disk.binding.value.requestId == revision.1
  }

  /** The binding contradicts the journal, or is no binding. */
  predicate Incoherent(disk: Disk) {
    || !Loadable(disk)
    || (&& disk.journal.Some? && !disk.journal.value.Activating? && !Coherent(disk)
        && (disk.binding.Some? || disk.journal.value.Active?))
  }

  /** The authorization is withdrawn exactly from the revision on disk; nothing else ever changes. */
  predicate InvalidatePromise(before: Disk, revision: Revision, reason: string, now: int, after: Disk,
                              result: Result<bool, Error>)
  {
    && (result == Success(true) <==> CarriesRevision(before, revision) && before.auth.Some?)
    && (result == Failure(AuthMissing) <==> CarriesRevision(before, revision) && before.auth.None?)
    && (result == Failure(Corrupt) <==> Incoherent(before))
    && (result == Success(false) <==> !CarriesRevision(before, revision) && !Incoherent(before))
    && after == if result == Success(true) then before.(auth := Some(AuthState(ReauthorizationRequired, reason, now)))
                else before
  }

  lemma InvalidateOutcome(disk: Disk, revision: Revision, reason: string, now: int)
    ensures var plan := InvalidatePlan(disk, revision, reason, now);
            InvalidatePromise(disk, revision, reason, now, ApplyAll(disk, plan.writes), plan.result)
    ensures |InvalidatePlan(disk, revision, reason, now).writes| <= 1
  {
    ApplyOne(disk, WriteAuth(AuthState(ReauthorizationRequired, reason, now)));
  }
}
