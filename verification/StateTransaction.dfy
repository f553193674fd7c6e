/**
 The locked transaction over the pairing directory and the operations that run inside
 one, in the order in which they read and write the files.

 `budget` is the number of file replacements that still succeed before the process dies or
 a replacement fails; every operation is verified for every budget, so `Ran` says what is
 on disk after a stop between any two writes.
 */
module StateStore {
  import opened Wrappers
  import opened PairingState
  import opened PairingPlans
  import opened PairingOutcomes

  ghost predicate Ran<T>(before: Disk, writesAllowed: nat, plan: Plan<T>, after: Disk, writesLeft: nat,
                         result: Result<T, Error>)
  {
    if |plan.writes| <= writesAllowed then
      && after == ApplyAll(before, plan.writes)
      && writesLeft == writesAllowed - |plan.writes|
      && result == plan.result
    else
      && after == ApplyAll(before, plan.writes[..writesAllowed])
      && writesLeft == 0
      && result == Failure(Interrupted)
  }

  /** Two runs in a row are a run of the concatenated writes. */
  lemma RanThen<S, T>(d0: Disk, b0: nat, first: Plan<S>, d1: Disk, b1: nat, r1: Result<S, Error>,
                      second: Plan<T>, d2: Disk, b2: nat, r2: Result<T, Error>, whole: Plan<T>)
    requires Ran(d0, b0, first, d1, b1, r1)
    requires |first.writes| <= b0
    requires Ran(d1, b1, second, d2, b2, r2)
    requires whole == Plan(first.writes + second.writes, second.result)
    ensures Ran(d0, b0, whole, d2, b2, r2)
  {
    if |whole.writes| <= b0 {
      ApplyAllConcat(d0, first.writes, second.writes);
    } else {
      ApplyAllConcat(d0, first.writes, second.writes[..b1]);
      assert whole.writes[..b0] == first.writes + second.writes[..b1];
    }
  }

  class StateTransaction {
    var disk: Disk
    var budget: nat

    constructor (disk: Disk, budget: nat)
      ensures this.disk == disk && this.budget == budget
    {
      this.disk := disk;
      this.budget := budget;
    }

    method Write(write: Write) returns (result: Result<(), Error>)
      modifies this
      ensures Ran(old(disk), old(budget), Plan([write], Success(())), disk, budget, result)
    {
      if budget == 0 {
        return Failure(Interrupted);
      }
      disk := ApplyWrite(disk, write);
      budget := budget - 1;
      result := Success(());
    }

    /** Five idempotent replacements; every identity component is validated before the first. */
    method CommitActivating(activating: Journal, now: int) returns (result: Result<(), Error>)
      modifies this
      ensures Ran(old(disk), old(budget), CommitPlan(activating, now), disk, budget, result)
      ensures CommitPromise(old(disk), activating, now, old(budget), disk, result)
    {
      if !activating.Activating? {
        return Failure(InternalError);
      }
      var binding := BindingOf(activating);
      if !ValidBinding(binding) {
        return Failure(UnsafeBinding);
      }
      if !ValidToken(activating.bearer) {
        return Failure(CorruptToken);
      }
      ghost var writes := CommitWrites(activating, now);
      ghost var start, allowed := disk, budget;
      var step := Write(WriteCredential(activating.bearer));
      Chain(start, allowed, writes, 0, disk, budget, step);
      if step.Failure? {
        CommitPrefix(start, activating, now, 0);
        return step;
      }
      step := Write(WriteIdentity(activating.instanceId));
      Chain(start, allowed, writes, 1, disk, budget, step);
      if step.Failure? {
        CommitPrefix(start, activating, now, 1);
        return step;
      }
      step := Write(WriteBinding(binding));
      Chain(start, allowed, writes, 2, disk, budget, step);
      if step.Failure? {
        CommitPrefix(start, activating, now, 2);
        return step;
      }
      step := Write(WriteAuth(AuthState(Authorized, COMPLETED_REASON, now)));
      Chain(start, allowed, writes, 3, disk, budget, step);
      if step.Failure? {
        CommitPrefix(start, activating, now, 3);
        return step;
      }
      step := Write(WriteJournal(ActiveFrom(activating, now)));
      Chain(start, allowed, writes, 4, disk, budget, step);
      assert writes[..5] == writes;
      CommitPrefix(start, activating, now, if allowed >= 5 then 5 else allowed);
      return step;
    }

    method Replace(requested: Journal, now: int) returns (result: Result<(), Error>)
      modifies this
      ensures Ran(old(disk), old(budget), ReplacePlan(old(disk), requested, now), disk, budget, result)
      ensures ReplacePromise(old(disk), requested, now, old(budget), disk, result)
    {
      if !requested.Activating? {
        return Failure(InternalError);
      }
      var loaded := LoadJournal(disk);
      if loaded.Failure? {
        return Failure(loaded.error);
      }
      if loaded.value.Some? {
        var current := loaded.value.value;
        if current.Activating? && current.generation == requested.generation
           && current.requestId == requested.requestId {
          // The reloaded journal is committed, never the caller's copy.
          result := CommitActivating(current, now);
          return;
        }
      }
      return Failure(Superseded);
    }

    method FinishActivating(activating: Journal, now: int) returns (result: Result<Progress, Error>)
      modifies this
      ensures Ran(old(disk), old(budget), FinishPlan(old(disk), activating, now), disk, budget, result)
    {
      var replaced := Replace(activating, now);
      if replaced.Failure? {
        return Failure(replaced.error);
      }
      var loaded := LoadJournal(disk);
      if loaded.Failure? {
        return Failure(loaded.error);
      }
      if loaded.value.None? {
        return Failure(InternalError);
      }
      return Success(ProgressOf(loaded.value.value));
    }

    method PersistActiveCredentials(pending: Journal, instanceId: Uuid, now: int)
      returns (result: Result<Progress, Error>)
      modifies this
      ensures Ran(old(disk), old(budget), PersistActivePlan(old(disk), pending, instanceId, now), disk, budget, result)
      ensures old(budget) >= 6 ==> ConfirmPromise(old(disk), pending, instanceId, now, disk, result)
    {
      ConfirmOutcome(disk, pending, instanceId, now);
      if !pending.Pending? {
        return Failure(InternalError);
      }
      var loaded := LoadJournal(disk);
      if loaded.Failure? {
        return Failure(loaded.error);
      }
      if !PendingIsCurrent(disk, pending) {
        return Failure(Superseded);
      }
      var activating := ActivatingFrom(pending, instanceId);
      ghost var d0, b0 := disk, budget;
      var step := Write(WriteJournal(activating));
      if step.Failure? {
        return Failure(step.error);
      }
      ghost var d1, b1 := disk, budget;
      ApplyOne(d0, WriteJournal(activating));
      result := FinishActivating(activating, now);
      RanThen(d0, b0, Plan([WriteJournal(activating)], Success(())), d1, b1, step,
              FinishPlan(d1, activating, now), disk, budget, result, PersistActivePlan(d0, pending, instanceId, now));
    }

    method RecoverActivating(expected: Journal, now: int) returns (result: Result<Progress, Error>)
      modifies this
      ensures Ran(old(disk), old(budget), RecoverPlan(old(disk), expected, now), disk, budget, result)
      ensures old(budget) >= 5 ==> RecoverPromise(old(disk), expected, now, disk, result)
    {
      RecoverOutcome(disk, expected, now);
      if !expected.Activating? {
        return Failure(InternalError);
      }
      var loaded := LoadJournal(disk);
      if loaded.Failure? {
        return Failure(loaded.error);
      }
      if loaded.value.Some? {
        var current := loaded.value.value;
        if current.Activating? && current.generation == expected.generation
           && current.requestId == expected.requestId {
          result := FinishActivating(current, now);
          return;
        }
        if current.Active? && current.generation == expected.generation && current.requestId == expected.requestId {
          return Success(ProgressOf(current));
        }
      }
      return Failure(Superseded);
    }

    method CompareAndPersistCreating(expected: Journal, next: Journal) returns (result: Result<(), Error>)
      requires expected.Creating?
      modifies this
      ensures Ran(old(disk), old(budget), CasCreatingPlan(old(disk), expected, next), disk, budget, result)
      ensures old(budget) >= 1 ==> ReplacedIf(SameCreating(old(disk).journal, expected), old(disk), next, disk, result)
    {
      CompareCreatingOutcome(disk, expected, next);
      var loaded := LoadJournal(disk);
      if loaded.Failure? {
        return Failure(loaded.error);
      }
      if loaded.value.None? {
        return Failure(Superseded);
      }
      var current := loaded.value.value;
      if !current.Creating?
         || current.generation != expected.generation
         || current.pairingEndpoint != expected.pairingEndpoint
         || current.reportEndpoint != expected.reportEndpoint
         || current.polling != expected.polling {
        return Failure(Superseded);
      }
      result := Write(WriteJournal(next));
    }

    method CompareAndPersistPending(expected: Journal, next: Journal) returns (result: Result<(), Error>)
      requires expected.Pending?
      modifies this
      ensures Ran(old(disk), old(budget), CasPendingPlan(old(disk), expected, next), disk, budget, result)
      ensures old(budget) >= 1 ==> ReplacedIf(SamePending(old(disk).journal, expected), old(disk), next, disk, result)
    {
      ComparePendingOutcome(disk, expected, next);
      var loaded := LoadJournal(disk);
      if loaded.Failure? {
        return Failure(loaded.error);
      }
      if !PendingIsCurrent(disk, expected) {
        return Failure(Superseded);
      }
      result := Write(WriteJournal(next));
    }

    method WriteCreating(config: Config, host: Uuid, drawn: Drawn) returns (result: Result<Start, Error>)
      modifies this
      ensures Ran(old(disk), old(budget), CreatePlan(config, host, drawn), disk, budget, result)
    {
      var creating := CreatingFrom(config, host, drawn);
      var step := Write(WriteJournal(creating));
      result := if step.Failure? then Failure(step.error) else Success(Create(creating));
    }

    method PrepareStart(config: Config, host: Uuid, now: int, drawn: Drawn) returns (result: Result<Start, Error>)
      modifies this
      ensures Ran(old(disk), old(budget), StartPlan(old(disk), config, host, now, drawn), disk, budget, result)
      ensures old(budget) >= 6 ==> StartPromise(old(disk), config, host, now, drawn, disk, result)
    {
      StartOutcome(disk, config, host, now, drawn);
      ghost var d0, b0 := disk, budget;
      ghost var finish: Plan<Progress> := Plan([], Failure(InternalError));
      var loaded := LoadJournal(disk);
      if loaded.Failure? {
        return Failure(loaded.error);
      }
      if loaded.value.Some? {
        var journal := loaded.value.value;
        if journal.Pending? {
          if !config.replacePending && journal.expiresAt > now && EndpointsMatch(config, journal) {
            return Success(Resume(SessionOf(journal)));
          }
          if !config.replacePending && journal.expiresAt > now {
            return Failure(OtherServerPending);
          }
          if !config.replacePending && EndpointsMatch(config, journal) {
            return Success(CheckExpired(SessionOf(journal)));
          }
        } else if journal.Creating? {
          if !config.replacePending && EndpointsMatch(config, journal) {
            return Success(Create(journal));
          }
          if !config.replacePending {
            return Failure(OtherServerCreating);
          }
        } else if journal.Activating? {
          finish := FinishPlan(d0, journal, now);
          var finished := FinishActivating(journal, now);
          if finished.Failure? {
            ghost var create := [WriteJournal(CreatingFrom(config, host, drawn))];
            assert b0 < |finish.writes| ==> (finish.writes + create)[..b0] == finish.writes[..b0];
            return Failure(finished.error);
          }
          if EndpointsMatch(config, journal) {
            return Success(Resume(SessionOf(journal)));
          }
        } else if journal.Active? {
          var checked := LoadExpectedBinding(disk, BindingOf(journal));
          if checked.Failure? {
            return Failure(checked.error);
          }
        }
      }
      ghost var d1, b1 := disk, budget;
      result := WriteCreating(config, host, drawn);
      var creating := CreatingFrom(config, host, drawn);
      RanThen(d0, b0, finish, d1, b1, finish.result, CreatePlan(config, host, drawn), disk, budget, result,
              Plan(finish.writes + [WriteJournal(creating)], Success(Create(creating))));
    }

    method ExistingReporterForRun(now: int) returns (result: Result<Option<Snapshot>, Error>)
      modifies this
      ensures Ran(old(disk), old(budget), ExistingReporterPlan(old(disk), now), disk, budget, result)
      ensures old(budget) >= 5 ==> ServicePromise(old(disk), now, disk, result)
    {
      ServiceOutcome(disk, now);
      var loaded := LoadJournal(disk);
      if loaded.Failure? {
        return Failure(loaded.error);
      }
      if loaded.value.Some? && loaded.value.value.Activating? {
        var finished := FinishActivating(loaded.value.value, now);
        if finished.Failure? {
          return Failure(finished.error);
        }
        return CurrentReporter(disk);
      }
      if !IsAuthorized(disk) {
        return Success(None);
      }
      if loaded.value.None? || loaded.value.value.Active? {
        return Success(None);
      }
      var binding := LoadBinding(disk);
      if binding.Failure? {
        return Failure(binding.error);
      }
      if binding.value.None? {
        return Failure(Corrupt);
      }
      return ReporterFor(disk, binding.value.value);
    }

    method Invalidate(revision: Revision, reason: string, now: int) returns (result: Result<bool, Error>)
      modifies this
      ensures Ran(old(disk), old(budget), InvalidatePlan(old(disk), revision, reason, now), disk, budget, result)
      ensures old(budget) >= 1 ==> InvalidatePromise(old(disk), revision, reason, now, disk, result)
    {
      InvalidateOutcome(disk, revision, reason, now);
      var bound := CredentialBinding(disk);
      if bound.Failure? {
        return Failure(bound.error);
      }
      if bound.value.None? {
        return Success(false);
      }
      var binding := bound.value.value;
      if (binding.generation, binding.requestId) != revision {
        return Success(false);
      }
      if disk.auth.None? {
        return Failure(AuthMissing);
      }
      var step := Write(WriteAuth(AuthState(ReauthorizationRequired, reason, now)));
      result := if step.Failure? then Failure(step.error) else Success(true);
    }
  }

  /** One more write extends a run of the first `n` writes to a run of the first `n + 1`. */
  lemma Chain(start: Disk, allowed: nat, writes: seq<Write>, n: nat, disk: Disk, left: nat, step: Result<(), Error>)
    requires n < |writes| && n <= allowed
    requires Ran(ApplyAll(start, writes[..n]), allowed - n, Plan([writes[n]], Success(())), disk, left, step)
    ensures Ran(start, allowed, Plan(writes[..n + 1], Success(())), disk, left, step)
  {
    assert writes[..n + 1] == writes[..n] + [writes[n]];
    ApplyAllConcat(start, writes[..n], [writes[n]]);
    if allowed == n {
      assert writes[..n + 1][..n] == writes[..n];
    }
  }
}
