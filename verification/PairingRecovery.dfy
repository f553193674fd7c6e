/** Crash convergence of the journal commit, and what a commit that fails validation means. */
module PairingRecovery {
  import opened Wrappers
  import opened PairingState
  import opened PairingPlans
  import opened PairingOutcomes
  import opened PairingProtocol

  /** Who finishes an interrupted commit: a poll, a service that asks for its reporter, or a new start. */
  datatype Means = Polling | Reporting | Starting(config: Config, host: Uuid, drawn: Drawn)

  /** One recovery attempt: by whom, when, and how many of its writes reached the disk. */
  datatype Attempt = Attempt(means: Means, now: int, completed: nat)

  /** A start recovers a commit for its own server; after the commit it is a new pairing, not a recovery. */
  predicate Recovers(means: Means, activating: Journal) {
    means.Starting? ==> activating.Activating? && EndpointsMatch(means.config, activating)
  }

  function RecoveryWrites(disk: Disk, expected: Journal, means: Means, now: int): seq<Write> {
    match means
    case Polling => RecoverPlan(disk, expected, now).writes
    case Reporting => ExistingReporterPlan(disk, now).writes
    case Starting(config, host, drawn) =>
      if disk.journal == Some(expected) then StartPlan(disk, config, host, now, drawn).writes else []
  }

  function Min(a: nat, b: nat): nat {
    if a <= b then a else b
  }

  function Interrupted(disk: Disk, writes: seq<Write>, completed: nat): Disk {
    ApplyAll(disk, writes[..Min(completed, |writes|)])
  }

  /** The disk after any number of recovery attempts, each stopped anywhere. */
  function AfterAttempts(disk: Disk, expected: Journal, attempts: seq<Attempt>): Disk
    decreases |attempts|
  {
    if attempts == [] then disk
    else
      var first := attempts[0];
      AfterAttempts(Interrupted(disk, RecoveryWrites(disk, expected, first.means, first.now), first.completed), expected,
                    attempts[1..])
  }

  /** The durable state without its two timestamps. */
  function Timeless(disk: Disk): Disk {
    disk.(auth := if disk.auth.Some? then Some(disk.auth.value.(changedAt := 0)) else None,
          journal := match disk.journal
                     case Some(Active(g, r, url, instance, endpoint, _)) => Some(Active(g, r, url, instance, endpoint, 0))
                     case _ => disk.journal)
  }

  predicate UnderCommit(disk: Disk, activating: Journal)
    requires activating.Activating?
  {
    disk.journal == Some(activating) || Timeless(disk) == Timeless(Committed(activating, 0))
  }

  /** While the journal is Activating, every means of recovery makes the same five writes. */
  lemma SameCommit(disk: Disk, activating: Journal, means: Means, now: int)
    requires Committable(activating) && disk.journal == Some(activating) && Recovers(means, activating)
    ensures RecoveryWrites(disk, activating, means, now) == CommitWrites(activating, now)
  {
    var writes := CommitWrites(activating, now);
    CommitPrefix(disk, activating, now, 5);
    assert writes[..5] == writes;
    assert FinishPlan(disk, activating, now).writes == writes;
  }

  lemma RecoveryFromCommit(disk: Disk, activating: Journal, means: Means, now: int, completed: nat)
    requires Committable(activating) && UnderCommit(disk, activating) && Recovers(means, activating)
    ensures var writes := RecoveryWrites(disk, activating, means, now);
            && UnderCommit(Interrupted(disk, writes, completed), activating)
            && Timeless(ApplyAll(disk, writes)) == Timeless(Committed(activating, 0))
  {
    if disk.journal == Some(activating) {
      var writes := CommitWrites(activating, now);
      SameCommit(disk, activating, means, now);
      CommitPrefix(disk, activating, now, Min(completed, 5));
      CommitPrefix(disk, activating, now, 5);
      assert writes[..5] == writes;
    } else {
      assert disk.journal.Some? && disk.journal.value.Active?;
      assert RecoveryWrites(disk, activating, means, now) == [];
    }
  }

  /** What the recovering caller is told: the pairing is in force, the new reporter, or the session it asked for. */
  lemma RecoveryResults(disk: Disk, activating: Journal, config: Config, host: Uuid, drawn: Drawn, now: int)
    requires Committable(activating) && UnderCommit(disk, activating)
    ensures RecoverPlan(disk, activating, now).result
            == Success(InForce(activating.generation, activating.requestId, activating.instanceId,
                               activating.reportEndpoint))
    ensures disk.journal == Some(activating) ==>
              ExistingReporterPlan(disk, now).result
              == Success(Some(Snapshot((activating.generation, activating.requestId), activating.bearer,
                                       activating.instanceId, activating.instanceId, activating.reportEndpoint)))
    ensures disk.journal == Some(activating) && EndpointsMatch(config, activating) ==>
              StartPlan(disk, config, host, now, drawn).result == Success(Resume(SessionOf(activating)))
  {
    if disk.journal == Some(activating) {
      var writes := CommitWrites(activating, now);
      CommitPrefix(disk, activating, now, 5);
      assert writes[..5] == writes;
      assert FinishPlan(disk, activating, now).writes == writes;
    }
  }

  predicate AllRecover(attempts: seq<Attempt>, activating: Journal) {
    forall i | 0 <= i < |attempts| :: Recovers(attempts[i].means, activating)
  }

  lemma {:induction false} AttemptsStayUnderCommit(disk: Disk, activating: Journal, attempts: seq<Attempt>)
    requires Committable(activating) && UnderCommit(disk, activating) && AllRecover(attempts, activating)
    ensures UnderCommit(AfterAttempts(disk, activating, attempts), activating)
    decreases |attempts|
  {
    if attempts != [] {
      var first := attempts[0];
      RecoveryFromCommit(disk, activating, first.means, first.now, first.completed);
      AttemptsStayUnderCommit(Interrupted(disk, RecoveryWrites(disk, activating, first.means, first.now), first.completed),
                              activating, attempts[1..]);
    }
  }

  /**
   However the commit of a confirmed request and any number of recoveries by any means are cut short, one
   recovery that completes leaves, timestamps aside, exactly what an uninterrupted commit leaves, and a poll
   reports the same progress. Only a stop before the first write loses the commit.
   */
  lemma CrashConvergence(disk: Disk, pending: Journal, instanceId: Uuid, now: int, completed: nat,
                         attempts: seq<Attempt>, means: Means, last: int)
    requires pending.Pending? && PendingIsCurrent(disk, pending) && pending.generation != 0
    requires Committable(ActivatingFrom(pending, instanceId))
    requires AllRecover(attempts, ActivatingFrom(pending, instanceId))
    requires Recovers(means, ActivatingFrom(pending, instanceId))
    requires completed > 0
    ensures var plan := PersistActivePlan(disk, pending, instanceId, now);
            var activating := ActivatingFrom(pending, instanceId);
            var crashed := AfterAttempts(Interrupted(disk, plan.writes, completed), activating, attempts);
            && Timeless(ApplyAll(crashed, RecoveryWrites(crashed, activating, means, last)))
               == Timeless(ApplyAll(disk, plan.writes))
            && RecoverPlan(crashed, activating, last).result == plan.result
            && plan.result == Success(InForce(pending.generation, pending.requestId, instanceId, pending.reportEndpoint))
  {
    var activating := ActivatingFrom(pending, instanceId);
    var plan := PersistActivePlan(disk, pending, instanceId, now);
    var d1 := ApplyWrite(disk, WriteJournal(activating));
    var writes := CommitWrites(activating, now);
    var finish := FinishPlan(d1, activating, now);
    assert finish.writes == writes;
    assert plan.writes == [WriteJournal(activating)] + writes;
    assert plan.writes[1..] == writes;
    CommitPrefix(d1, activating, now, 5);
    assert writes[..5] == writes;
    assert finish.result.Success?;
    var n := Min(completed, 6);
    assert plan.writes[..n][1..] == writes[..n - 1];
    CommitPrefix(d1, activating, now, n - 1);
    var start := Interrupted(disk, plan.writes, completed);
    assert start == ApplyAll(d1, writes[..n - 1]);
    AttemptsStayUnderCommit(start, activating, attempts);
    var crashed := AfterAttempts(start, activating, attempts);
    RecoveryFromCommit(crashed, activating, means, last, 5);
    RecoveryResults(crashed, activating, Config("", "", false), 0, Drawn(0, "", ""), last);
  }

  /** A commit goes through exactly when every identity component is valid; otherwise nothing is written. */
  lemma CommitIffValid(activating: Journal, now: int)
    requires activating.Activating?
    ensures CommitPlan(activating, now).result.Success? <==> Committable(activating)
    ensures CommitPlan(activating, now).writes != [] <==> Committable(activating)
  {
  }

  /** Under an Activating journal some transaction can still write a file exactly if its commit is valid. */
  lemma BlockedIffInvalid(disk: Disk)
    requires disk.journal.Some? && disk.journal.value.Activating? && disk.journal.value.generation != 0
    ensures (forall request: Request :: PlanWrites(disk, request) == []) <==> !Committable(disk.journal.value)
  {
    if Committable(disk.journal.value) {
      assert PlanWrites(disk, ExistingReporter(0)) == CommitWrites(disk.journal.value, 0);
    }
  }

  /**
   An Activating journal whose commit fails validation is final: over every continuation of the
   run no file changes again, so neither polling, nor restarting, nor a new pairing clears it.
   */
  lemma {:induction false} InvalidCommitIsFinal(trace: seq<System>, events: seq<Event>, m: nat, n: nat)
    requires Behavior(trace, events) && Inv(trace[0])
    requires m <= n < |trace|
    requires trace[m].disk.journal.Some? && trace[m].disk.journal.value.Activating?
    requires !Committable(trace[m].disk.journal.value)
    requires trace[m].holder.Some? ==> trace[m].holder.value.remaining == []
    ensures trace[n].disk == trace[m].disk
    ensures trace[n].holder.Some? ==> trace[n].holder.value.remaining == []
    decreases n
  {
    if m < n {
      InvalidCommitIsFinal(trace, events, m, n - 1);
      BehaviorKeepsInv(trace, events, n - 1);
      JournalInHistory(trace[n - 1]);
      BlockedIffInvalid(trace[n - 1].disk);
      assert Enabled(trace[n - 1], events[n - 1]);
    }
  }

  // ----- Such a commit is reached -----

  lemma Extended(trace: seq<System>, events: seq<Event>, event: Event) returns (longer: seq<System>)
    requires Behavior(trace, events) && Enabled(trace[|events|], event)
    ensures longer == trace + [Step(trace[|events|], event)]
    ensures Behavior(longer, events + [event])
    ensures longer[|events| + 1] == Step(trace[|events|], event)
  {
    longer := trace + [Step(trace[|events|], event)];
    var more := events + [event];
    forall i {:trigger more[i]} | 0 <= i < |more|
      ensures Enabled(longer[i], more[i]) && longer[i + 1] == Step(longer[i], more[i])
    {
      if i < |events| {
        assert events[i] == more[i] && longer[i] == trace[i] && longer[i + 1] == trace[i + 1];
      }
    }
  }

  /** What every continuation below keeps: the run so far ends in this state. */
  ghost predicate Reaches(trace: seq<System>, events: seq<Event>, s: System) {
    Behavior(trace, events) && trace[0] == FRESH_SYSTEM && trace[|events|] == s
  }

  /** A pairing that is started, answered and remembered: the journal holds a Pending that some process knows. */
  lemma PendingIsReached(config: Config, host: Uuid, now: int, drawn: Drawn, pending: Journal)
    returns (trace: seq<System>, events: seq<Event>, s: System)
    requires drawn.generation != 0 && IsPendingOf(CreatingFrom(config, host, drawn), pending)
    ensures Reaches(trace, events, s)
    ensures s.holder.None? && s.disk.journal == Some(pending) && pending in s.copies
  {
    var creating := CreatingFrom(config, host, drawn);
    var start := StartPairing(config, host, now, drawn);
    trace, events := [FRESH_SYSTEM], [];
    trace := Extended(trace, events, Begin(start));
    events := events + [Begin(start)];
    trace := Extended(trace, events, WriteNext);
    events := events + [WriteNext];
    trace := Extended(trace, events, Finish);
    events := events + [Finish];
    s := trace[|events|];
    assert s.holder.None? && s.disk.journal == Some(creating) && creating in s.copies;
    trace := Extended(trace, events, Post(creating));
    events := events + [Post(creating)];
    trace := Extended(trace, events, Hear(CreatedReply(creating, pending)));
    events := events + [Hear(CreatedReply(creating, pending))];
    trace, events, s := PendingIsPersisted(trace, events, creating, pending);
  }

  lemma PendingIsPersisted(before: seq<System>, done: seq<Event>, creating: Journal, pending: Journal)
    returns (trace: seq<System>, events: seq<Event>, s: System)
    requires |before| == |done| + 1 && Reaches(before, done, before[|done|])
    requires creating.Creating? && creating.generation != 0 && IsPendingOf(creating, pending)
    requires before[|done|].holder.None? && before[|done|].disk.journal == Some(creating)
    requires CreatedReply(creating, pending) in before[|done|].replies
    ensures Reaches(trace, events, s)
    ensures s.holder.None? && s.disk.journal == Some(pending) && pending in s.copies
  {
    trace := Extended(before, done, Begin(PersistPending(creating, pending)));
    events := done + [Begin(PersistPending(creating, pending))];
    trace := Extended(trace, events, WriteNext);
    events := events + [WriteNext];
    trace := Extended(trace, events, Finish);
    events := events + [Finish];
    s := trace[|events|];
    assert s.holder.None? && s.disk.journal == Some(pending);
    trace := Extended(trace, events, Begin(Load));
    events := events + [Begin(Load)];
    trace := Extended(trace, events, Finish);
    events := events + [Finish];
    s := trace[|events|];
  }

  /** The server confirms a remembered request with the nil instance: the journal is Activating for good. */
  lemma NilInstanceBlocks(s: System, pending: Journal, now: int)
    requires Inv(s) && s.holder.None?
    requires s.disk.journal == Some(pending) && pending.Pending? && pending in s.copies
    ensures Enabled(s, Hear(PollReply(pending, ServerActive(0))))
    ensures var heard := Step(s, Hear(PollReply(pending, ServerActive(0))));
            && Enabled(heard, Begin(PersistActive(pending, 0, now)))
            && var begun := Step(heard, Begin(PersistActive(pending, 0, now)));
               && Enabled(begun, WriteNext)
               && var stuck := Step(begun, WriteNext);
                  && stuck.disk.journal == Some(ActivatingFrom(pending, 0))
                  && !Committable(ActivatingFrom(pending, 0))
                  && stuck.holder.Some? && stuck.holder.value.remaining == []
  {
    JournalInHistory(s);
    var heard := Step(s, Hear(PollReply(pending, ServerActive(0))));
    var plan := PersistActivePlan(heard.disk, pending, 0, now);
    assert !ValidBinding(BindingOf(ActivatingFrom(pending, 0)));
    assert plan.writes == [WriteJournal(ActivatingFrom(pending, 0))];
  }

  /** From an empty directory, some run ends with an Activating journal whose commit is refused. */
  lemma InvalidCommitIsReached(config: Config, host: Uuid, now: int, drawn: Drawn, pending: Journal)
    returns (trace: seq<System>, events: seq<Event>, stuck: System)
    requires drawn.generation != 0 && IsPendingOf(CreatingFrom(config, host, drawn), pending)
    ensures Reaches(trace, events, stuck)
    ensures stuck.disk.journal == Some(ActivatingFrom(pending, 0)) && !Committable(ActivatingFrom(pending, 0))
    ensures stuck.holder.Some? && stuck.holder.value.remaining == []
  {
    var s;
    trace, events, s := PendingIsReached(config, host, now, drawn, pending);
    FreshSystemInv();
    BehaviorKeepsInv(trace, events, |events|);
    NilInstanceBlocks(s, pending, now);
    trace := Extended(trace, events, Hear(PollReply(pending, ServerActive(0))));
    events := events + [Hear(PollReply(pending, ServerActive(0)))];
    trace := Extended(trace, events, Begin(PersistActive(pending, 0, now)));
    events := events + [Begin(PersistActive(pending, 0, now))];
    trace := Extended(trace, events, WriteNext);
    events := events + [WriteNext];
    stuck := trace[|events|];
  }

  // ----- Every pairing can be completed, every request ended, every stop recovered from -----

  /** The first `n` writes of the transaction under way are made. */
  lemma {:induction false} WritesMade(trace: seq<System>, events: seq<Event>, s: System, n: nat)
    returns (longer: seq<System>, more: seq<Event>, done: System)
    requires Reaches(trace, events, s) && s.holder.Some? && n <= |s.holder.value.remaining|
    ensures Reaches(longer, more, done)
    ensures done.disk == ApplyAll(s.disk, s.holder.value.remaining[..n])
    ensures done.holder == Some(s.holder.value.(remaining := s.holder.value.remaining[n..]))
    ensures done.copies == s.copies && done.snapshots == s.snapshots && done.replies == s.replies
    decreases n
  {
    if n == 0 {
      longer, more, done := trace, events, s;
    } else {
      var remaining := s.holder.value.remaining;
      longer := Extended(trace, events, WriteNext);
      longer, more, done := WritesMade(longer, events + [WriteNext], Step(s, WriteNext), n - 1);
      assert remaining[..n][0] == remaining[0] && remaining[..n][1..] == remaining[1..][..n - 1];
    }
  }

  /** A request that may be made is made and completed. */
  lemma RequestCompletes(trace: seq<System>, events: seq<Event>, s: System, request: Request)
    returns (longer: seq<System>, more: seq<Event>, done: System)
    requires Reaches(trace, events, s) && s.holder.None? && RequestPossible(s, request)
    ensures Reaches(longer, more, done) && done.holder.None?
    ensures done.disk == ApplyAll(s.disk, PlanWrites(s.disk, request))
    ensures done.copies == s.copies + LearnedCopies(s.disk, request)
    ensures done.snapshots == s.snapshots + LearnedSnapshots(s.disk, request)
    ensures done.replies == s.replies
  {
    longer := Extended(trace, events, Begin(request));
    var begun := Step(s, Begin(request));
    longer, more, done := WritesMade(longer, events + [Begin(request)], begun, |begun.holder.value.remaining|);
    assert begun.holder.value.remaining[..|begun.holder.value.remaining|] == PlanWrites(s.disk, request);
    longer := Extended(longer, more, Finish);
    more, done := more + [Finish], Step(done, Finish);
  }

  /** The server's answer to a poll of a remembered request reaches the client. */
  lemma AnswerIsHeard(trace: seq<System>, events: seq<Event>, s: System, pending: Journal, verdict: Verdict)
    returns (longer: seq<System>, more: seq<Event>, heard: System)
    requires Reaches(trace, events, s) && pending.Pending? && pending in s.copies
    ensures Reaches(longer, more, heard)
    ensures heard == s.(replies := s.replies + {PollReply(pending, verdict)})
  {
    longer := Extended(trace, events, Hear(PollReply(pending, verdict)));
    more, heard := events + [Hear(PollReply(pending, verdict))], Step(s, Hear(PollReply(pending, verdict)));
  }

  /**
   From an empty directory, every pairing with a well-formed token and a safe endpoint can be completed: the five files
   are those of its commit, and the service gets its reporter.
   */
  lemma PairingIsReached(config: Config, host: Uuid, now: int, drawn: Drawn, pending: Journal, instanceId: Uuid)
    returns (trace: seq<System>, events: seq<Event>, s: System)
    requires drawn.generation != 0 && IsPendingOf(CreatingFrom(config, host, drawn), pending)
    requires pending.requestId != 0 && instanceId != 0 && EndpointIsSafe(pending.reportEndpoint)
    requires |drawn.bearer| == 64
    requires forall i | 0 <= i < 64 :: '0' <= drawn.bearer[i] <= '9' || 'a' <= drawn.bearer[i] <= 'f'
    ensures Reaches(trace, events, s) && s.holder.None?
    ensures s.disk == Committed(ActivatingFrom(pending, instanceId), now)
    ensures Snapshot((drawn.generation, pending.requestId), drawn.bearer, instanceId, instanceId, pending.reportEndpoint)
              in s.snapshots
  {
    trace, events, s := PendingIsReached(config, host, now, drawn, pending);
    trace, events, s := AnswerIsHeard(trace, events, s, pending, ServerActive(instanceId));
    ConfirmOutcome(s.disk, pending, instanceId, now);
    trace, events, s := RequestCompletes(trace, events, s, PersistActive(pending, instanceId, now));
    CurrentReporterOutcome(s.disk);
    trace, events, s := RequestCompletes(trace, events, s, ActiveReporter);
  }

  /** From an empty directory, every request can be ended by each of the server's three verdicts. */
  lemma EndIsReached(config: Config, host: Uuid, now: int, drawn: Drawn, pending: Journal, verdict: Verdict, at: int)
    returns (trace: seq<System>, events: seq<Event>, s: System)
    requires drawn.generation != 0 && IsPendingOf(CreatingFrom(config, host, drawn), pending)
    requires !verdict.ServerActive?
    ensures Reaches(trace, events, s) && s.holder.None?
    ensures s.disk.journal == Some(if verdict.ServerDenied?
                                   then Denied(drawn.generation, pending.requestId, pending.activationUrl,
                                               pending.reportEndpoint, at)
                                   else Expired(drawn.generation, pending.requestId, pending.activationUrl,
                                                pending.reportEndpoint, at))
  {
    trace, events, s := PendingIsReached(config, host, now, drawn, pending);
    trace, events, s := AnswerIsHeard(trace, events, s, pending, verdict);
    var ended := if verdict.ServerDenied? then DeniedFrom(pending, at) else ExpiredFrom(pending, at);
    ComparePendingOutcome(s.disk, pending, ended);
    trace, events, s := RequestCompletes(trace, events, s, PersistEnded(pending, ended));
  }

  /** The transaction is begun and stopped after `n` of its writes. */
  lemma RequestStops(trace: seq<System>, events: seq<Event>, s: System, request: Request, n: nat)
    returns (longer: seq<System>, more: seq<Event>, done: System)
    requires Reaches(trace, events, s) && s.holder.None? && RequestPossible(s, request)
    requires n <= |PlanWrites(s.disk, request)|
    ensures Reaches(longer, more, done) && done.holder.None?
    ensures done.disk == ApplyAll(s.disk, PlanWrites(s.disk, request)[..n])
  {
    longer := Extended(trace, events, Begin(request));
    longer, more, done := WritesMade(longer, events + [Begin(request)], Step(s, Begin(request)), n);
    longer := Extended(longer, more, Abort);
    more, done := more + [Abort], Step(done, Abort);
  }

  lemma StoppedConfirmation(disk: Disk, pending: Journal, instanceId: Uuid, now: int, n: nat)
    requires disk.journal == Some(pending) && pending.Pending? && pending.generation != 0 && n < 5
    requires Committable(ActivatingFrom(pending, instanceId))
    ensures |PlanWrites(disk, PersistActive(pending, instanceId, now))| == 6
    ensures ApplyAll(disk, PlanWrites(disk, PersistActive(pending, instanceId, now))[..n + 1]).journal ==
              Some(ActivatingFrom(pending, instanceId))
  {
    var activating := ActivatingFrom(pending, instanceId);
    var commit := CommitWrites(activating, now);
    var writes := PlanWrites(disk, PersistActive(pending, instanceId, now));
    assert writes == [WriteJournal(activating)] + commit;
    assert writes[..n + 1] == [WriteJournal(activating)] + commit[..n];
    ApplyAllConcat(disk, [WriteJournal(activating)], commit[..n]);
    ApplyOne(disk, WriteJournal(activating));
    CommitPrefix(ApplyWrite(disk, WriteJournal(activating)), activating, now, n);
  }

  /**
   From an empty directory: a confirmed pairing that is stopped after the journal write and any number of its commit's
   writes is completed by a process that loads the journal and recovers it.
   */
  lemma StoppedPairingIsRecovered(config: Config, host: Uuid, now: int, drawn: Drawn, pending: Journal,
                                  instanceId: Uuid, n: nat, later: int)
    returns (trace: seq<System>, events: seq<Event>, s: System)
    requires drawn.generation != 0 && IsPendingOf(CreatingFrom(config, host, drawn), pending) && n < 5
    requires Committable(ActivatingFrom(pending, instanceId))
    ensures Reaches(trace, events, s) && s.holder.None?
    ensures s.disk == Committed(ActivatingFrom(pending, instanceId), later)
  {
    var activating := ActivatingFrom(pending, instanceId);
    trace, events, s := PendingIsReached(config, host, now, drawn, pending);
    trace, events, s := AnswerIsHeard(trace, events, s, pending, ServerActive(instanceId));
    StoppedConfirmation(s.disk, pending, instanceId, now, n);
    trace, events, s := RequestStops(trace, events, s, PersistActive(pending, instanceId, now), n + 1);
    trace, events, s := RequestCompletes(trace, events, s, Load);
    RecoverOutcome(s.disk, activating, later);
    trace, events, s := RequestCompletes(trace, events, s, Recover(activating, later));
  }
}
