/**
 Submitting the one-time authorization key: read the journal under the lock, talk to the server without it,
 then read the journal again and compare.
 */
module PairingActivation {
  import opened Wrappers
  import opened PairingState
  import opened PairingPlans
  import opened PairingOutcomes
  import opened PairingProtocol
  import opened PairingSafety

  /** What the server's answer amounts to; a conflict says nothing, since an earlier answer may have been lost. */
  datatype Answer = Confirmed(instanceId: Uuid) | Ambiguous | EndedRequest | Refusal

  datatype ActivationError = NoJournal | Unreadable | NotThisRequest | NoLongerPending | ServerError | OtherInstance

  predicate IsCommitted(journal: Journal) {
    journal.Activating? || journal.Active?
  }

  predicate OfRequest(journal: Journal, generation: Uuid, requestId: Uuid) {
    && !journal.Creating?
    && journal.generation == generation
    && journal.requestId == requestId
  }

  function ConfirmedInstance(answer: Answer): Option<Uuid> {
    if answer.Confirmed? then Some(answer.instanceId) else None
  }

  /** The request was pending when the key was sent, and the server did not turn it down. */
  predicate Awaited(first: Disk, generation: Uuid, requestId: Uuid, answer: Answer) {
    && PendingHere(first, generation, requestId)
    && (answer.Confirmed? || answer.Ambiguous?)
  }

  predicate PendingHere(disk: Disk, generation: Uuid, requestId: Uuid) {
    && disk.journal.Some? && Loadable(disk) && disk.journal.value.Pending?
    && OfRequest(disk.journal.value, generation, requestId)
  }

  predicate CommittedHere(disk: Disk, generation: Uuid, requestId: Uuid) {
    && disk.journal.Some? && Loadable(disk) && IsCommitted(disk.journal.value)
    && OfRequest(disk.journal.value, generation, requestId)
  }

  /** `first` and `second` are the disk at the two locked reads; nothing is written here. */
  method ActivatePending(first: Disk, generation: Uuid, requestId: Uuid, answer: Answer, second: Disk)
    returns (result: Result<Option<Uuid>, ActivationError>)
    ensures forall value :: result == Success(value) <==> Described(first, generation, requestId, answer, second, value)
    ensures result == Failure(Unreadable) <==>
              !Loadable(first) || (Awaited(first, generation, requestId, answer) && !Loadable(second))
    ensures result == Failure(NoJournal) <==>
              first.journal.None? || (Awaited(first, generation, requestId, answer) && second.journal.None?)
    ensures result == Failure(NoLongerPending) <==>
              && first.journal.Some? && Loadable(first) && !first.journal.value.Pending?
              && !CommittedHere(first, generation, requestId)
    ensures result == Failure(ServerError) <==>
              PendingHere(first, generation, requestId) && (answer.EndedRequest? || answer.Refusal?)
    ensures result == Failure(OtherInstance) <==>
              && Awaited(first, generation, requestId, answer) && CommittedHere(second, generation, requestId)
              && answer.Confirmed? && answer.instanceId != second.journal.value.instanceId
  {
    var loaded := LoadJournal(first);
    if loaded.Failure? {
      return Failure(Unreadable);
    }
    if loaded.value.None? {
      return Failure(NoJournal);
    }
    var before := loaded.value.value;
    if before.Pending? {
      if before.generation != generation || before.requestId != requestId {
        return Failure(NotThisRequest);
      }
    } else if IsCommitted(before) && before.generation == generation && before.requestId == requestId {
      return Success(Some(before.instanceId));
    } else {
      return Failure(NoLongerPending);
    }
    if answer.EndedRequest? || answer.Refusal? {
      return Failure(ServerError);
    }
    var reloaded := LoadJournal(second);
    if reloaded.Failure? {
      return Failure(Unreadable);
    }
    if reloaded.value.None? {
      return Failure(NoJournal);
    }
    var current := reloaded.value.value;
    if current.Pending? {
      if !PendingIsCurrent(second, before) {
        return Failure(NotThisRequest);
      }
      return Success(ConfirmedInstance(answer));
    } else if IsCommitted(current) && current.generation == generation && current.requestId == requestId {
      if answer.Confirmed? && answer.instanceId != current.instanceId {
        return Failure(OtherInstance);
      }
      return Success(Some(current.instanceId));
    }
    return Failure(NotThisRequest);
  }

  /** What a successful submission reports: the committed instance, or what the server claims for a pending request. */
  predicate Described(first: Disk, generation: Uuid, requestId: Uuid, answer: Answer, second: Disk, value: Option<Uuid>) {
    || (CommittedHere(first, generation, requestId) && value == Some(first.journal.value.instanceId))
    || (&& Awaited(first, generation, requestId, answer)
        && Loadable(second) && SamePending(second.journal, first.journal.value)
        && value == (if answer.Confirmed? then Some(answer.instanceId) else None))
    || (&& Awaited(first, generation, requestId, answer)
        && CommittedHere(second, generation, requestId) && value == Some(second.journal.value.instanceId)
        && (answer.Confirmed? ==> answer.instanceId == second.journal.value.instanceId))
  }

  /** A generation on disk at two instants was on disk at every instant between them. */
  lemma SameGenerationThroughout(trace: seq<System>, events: seq<Event>, m: nat, k: nat, n: nat)
    requires Behavior(trace, events) && Inv(trace[0]) && m <= k <= n < |trace|
    requires trace[m].disk.journal.Some? && trace[n].disk.journal.Some?
    requires trace[m].disk.journal.value.generation == trace[n].disk.journal.value.generation
    ensures trace[k].disk.journal.Some?
    ensures trace[k].disk.journal.value.generation == trace[m].disk.journal.value.generation
  {
    JournalAt(trace, events, m);
    JournalAt(trace, events, n);
    HistoryOnlyGrows(trace, events, m, k);
    HistoryOnlyGrows(trace, events, k, n);
    JournalAt(trace, events, k);
    var i, j, l := |trace[m].history| - 1, |trace[n].history| - 1, |trace[k].history| - 1;
    var history := trace[n].history;
    assert history[i] == trace[m].history[i] && history[l] == trace[k].history[l];
    if i < j {
      GenerationLifecycle(history, i, j);
    }
  }

  /**
   In every run, a successful submission is about this request and no other: from the first read to the last the
   journal never left its generation, a request still pending is the very one that was read, and a committed one
   has the reported instance, which the server did not contradict.
   */
  lemma ActivationDescribesThisRequest(trace: seq<System>, events: seq<Event>, m: nat, n: nat, generation: Uuid,
                                       requestId: Uuid, answer: Answer, value: Option<Uuid>)
    requires Behavior(trace, events) && Inv(trace[0]) && m <= n < |trace|
    requires Described(trace[m].disk, generation, requestId, answer, trace[n].disk, value)
    requires trace[m].disk.journal.value.Pending?
    ensures forall k | m <= k <= n ::
              trace[k].disk.journal.Some? && trace[k].disk.journal.value.generation == generation
    ensures trace[n].disk.journal.value.Pending? ==> trace[n].disk.journal == trace[m].disk.journal
    ensures !trace[n].disk.journal.value.Pending? ==> value == Some(trace[n].disk.journal.value.instanceId)
  {
    forall k | m <= k <= n
      ensures trace[k].disk.journal.Some? && trace[k].disk.journal.value.generation == generation
    {
      SameGenerationThroughout(trace, events, m, k, n);
    }
    if trace[n].disk.journal.value.Pending? {
      JournalAt(trace, events, m);
      JournalAt(trace, events, n);
      HistoryOnlyGrows(trace, events, m, n);
      var history := trace[n].history;
      assert trace[m].disk.journal.value == history[|trace[m].history| - 1];
      SamePhaseSameEntry(history, trace[m].disk.journal.value, trace[n].disk.journal.value);
    }
  }
}
