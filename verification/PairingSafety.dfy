/**
 What the pairing protocol guarantees over whole runs, started from any state that
 satisfies the invariant, in particular from an empty directory.
 */
module PairingSafety {
  import opened Wrappers
  import opened PairingState
  import opened PairingPlans
  import opened PairingOutcomes
  import opened PairingProtocol

  // ----- Generations -----

  /**
   In every run each generation moves only forward, through one contiguous stretch of the journal history,
   with the secrets, endpoints, request and instance it was given.
   */
  lemma RunLifecycle(trace: seq<System>, events: seq<Event>, n: nat, i: nat, j: nat)
    requires Behavior(trace, events) && Inv(trace[0]) && n < |trace|
    requires i < j < |trace[n].history|
    requires trace[n].history[i].generation == trace[n].history[j].generation
    ensures var history := trace[n].history;
            && (forall k | i <= k <= j :: history[k].generation == history[i].generation)
            && (forall k | i <= k < j :: Rank(history[k]) < Rank(history[j]))
            && (forall k, l | i <= k < l <= j && l == k + 1 :: Advances(history[k], history[l]))
            && SameGenerationData(history[i], history[j])
  {
    BehaviorKeepsInv(trace, events, n);
    GenerationLifecycle(trace[n].history, i, j);
  }

  /** The one creation request behind an Activating entry. */
  lemma CreationOf(s: System, activating: Journal) returns (creating: Journal)
    requires CoreInv(s) && activating in s.history && activating.Activating?
    ensures creating in s.posted && creating in s.history && creating.Creating?
    ensures creating.generation == activating.generation && creating.bearer == activating.bearer
    ensures creating.reportEndpoint == activating.reportEndpoint
    ensures forall other | other in s.history && other.Creating? && other.generation == activating.generation ::
              other == creating
  {
    var k :| 0 <= k < |s.history| && s.history[k] == activating;
    assert Link(s.history, k);
    var pending := s.history[k - 1];
    assert Justified(s.replies, pending);
    creating :| CreatedReply(creating, pending) in s.replies;
    assert ReplyOk(s, CreatedReply(creating, pending));
    forall other | other in s.history && other.Creating? && other.generation == activating.generation
      ensures other == creating
    {
      SamePhaseSameEntry(s.history, other, creating);
    }
  }

  /**
   In every reachable state with an authorization and no commit in progress, the four credential files are those
   of one generation, and the token is the secret of that generation's one Creating entry.
   */
  lemma InstalledTokenWasCreated(trace: seq<System>, events: seq<Event>, n: nat) returns (creating: Journal)
    requires Behavior(trace, events) && Inv(trace[0]) && n < |trace|
    requires trace[n].disk.auth.Some? && trace[n].disk.journal.Some? && !trace[n].disk.journal.value.Activating?
    ensures creating in trace[n].posted && creating in trace[n].history && creating.Creating?
    ensures trace[n].disk.credential == Some(creating.bearer)
    ensures trace[n].disk.binding.Some? && trace[n].disk.binding.value.generation == creating.generation
    ensures trace[n].disk.binding.value.reportEndpoint == creating.reportEndpoint
    ensures trace[n].disk.identity == Some(trace[n].disk.binding.value.instanceId)
    ensures forall other | other in trace[n].history && other.Creating? && other.generation == creating.generation ::
              other == creating
  {
    BehaviorKeepsInv(trace, events, n);
    assert FilesOf(trace[n].disk, trace[n].installed.value);
    creating := CreationOf(trace[n], trace[n].installed.value);
  }

  // ----- Snapshots -----

  /**
   Every reporter snapshot ever handed out carries the token, identity and endpoint of the
   one Activating journal of its revision, and that token is the secret whose hash was
   sent when this generation was created.
   */
  lemma SnapshotsBelongToOneGeneration(trace: seq<System>, events: seq<Event>, n: nat, snapshot: Snapshot)
    returns (activating: Journal, creating: Journal)
    requires Behavior(trace, events) && Inv(trace[0]) && n < |trace|
    requires snapshot in trace[n].snapshots
    ensures activating in trace[n].history && SnapshotOf(activating, snapshot)
    ensures creating in trace[n].posted && creating.Creating? && creating.generation == snapshot.revision.0
    ensures creating.bearer == snapshot.token && creating.reportEndpoint == snapshot.endpoint
    ensures forall other | other in trace[n].history && other.Activating? && other.generation == snapshot.revision.0 ::
              other == activating
    ensures forall other | other in trace[n].posted && other.generation == snapshot.revision.0 :: other == creating
  {
    BehaviorKeepsInv(trace, events, n);
    var s := trace[n];
    assert SnapshotOk(s.history, snapshot);
    activating :| activating in s.history && SnapshotOf(activating, snapshot);
    creating := CreationOf(s, activating);
    forall other | other in s.history && other.Activating? && other.generation == snapshot.revision.0
      ensures other == activating
    {
      SamePhaseSameEntry(s.history, other, activating);
    }
  }

  // ----- The journal only grows, and an Active entry seen twice never left -----

  lemma StepHistory(s: System, event: Event)
    requires Enabled(s, event)
    ensures s.history <= Step(s, event).history
    ensures s.history == Step(s, event).history ==> s.disk.journal == Step(s, event).disk.journal
  {
  }

  lemma {:induction false} HistoryOnlyGrows(trace: seq<System>, events: seq<Event>, m: nat, n: nat)
    requires Behavior(trace, events)
    requires m <= n < |trace|
    ensures trace[m].history <= trace[n].history
    ensures trace[m].history == trace[n].history ==> trace[m].disk.journal == trace[n].disk.journal
    decreases n
  {
    if m < n {
      HistoryOnlyGrows(trace, events, m, n - 1);
      assert Enabled(trace[n - 1], events[n - 1]);
      StepHistory(trace[n - 1], events[n - 1]);
    }
  }

  predicate ActiveUnder(disk: Disk, binding: Binding) {
    disk.journal.Some? && disk.journal.value.Active? && BindingOf(disk.journal.value) == binding
  }

  lemma ActiveIsTerminal(early: seq<Journal>, late: seq<Journal>)
    requires HistoryOk(late) && early <= late && early != []
    requires early[|early| - 1].Active? && late[|late| - 1].Active?
    requires early[|early| - 1].generation == late[|late| - 1].generation
    ensures early == late
  {
    if |early| < |late| {
      assert late[|early| - 1] == early[|early| - 1];
      GenerationLifecycle(late, |early| - 1, |late| - 1);
      assert false;
    }
  }

  lemma JournalAt(trace: seq<System>, events: seq<Event>, n: nat)
    requires Behavior(trace, events) && Inv(trace[0]) && n < |trace|
    ensures var s := trace[n];
            && HistoryOk(s.history)
            && s.disk.journal == (if s.history == [] then None else Some(s.history[|s.history| - 1]))
            && (s.disk.journal.Some? && s.disk.journal.value.Active? ==>
                  s.disk.binding == Some(BindingOf(s.disk.journal.value)) && ValidBinding(s.disk.binding.value))
  {
    BehaviorKeepsInv(trace, events, n);
  }

  /** No ABA: an Active binding observed at two instants was on disk all the time between. */
  lemma ActiveTwiceMeansThroughout(trace: seq<System>, events: seq<Event>, m: nat, k: nat, n: nat, binding: Binding)
    requires Behavior(trace, events) && Inv(trace[0])
    requires m <= k <= n < |trace|
    requires ActiveUnder(trace[m].disk, binding) && ActiveUnder(trace[n].disk, binding)
    ensures trace[k].disk.journal == trace[m].disk.journal
    ensures trace[k].disk.binding == Some(binding)
    ensures ValidBinding(binding)
  {
    JournalAt(trace, events, m);
    JournalAt(trace, events, k);
    JournalAt(trace, events, n);
    HistoryOnlyGrows(trace, events, m, k);
    HistoryOnlyGrows(trace, events, k, n);
    ActiveIsTerminal(trace[m].history, trace[n].history);
    assert trace[k].history == trace[m].history;
  }

  // ----- A late 401 -----

  predicate IsRevocation(write: Write) {
    write.WriteAuth? && write.auth.status.ReauthorizationRequired?
  }

  predicate RevokesNothing(writes: seq<Write>) {
    forall write | write in writes :: !IsRevocation(write)
  }

  /** Only an invalidation can still be about to revoke, and it was planned on the disk as it is. */
  predicate RevocationsKnown(s: System) {
    s.holder.Some? ==>
      || RevokesNothing(s.holder.value.remaining)
      || (&& s.holder.value.request.InvalidateRevision?
          && s.holder.value.remaining == PlanWrites(s.disk, s.holder.value.request))
  }

  lemma CommitRevokesNothing(disk: Disk, requested: Journal, now: int)
    ensures RevokesNothing(FinishPlan(disk, requested, now).writes)
  {
  }

  lemma PlansRevokeNothing(disk: Disk, request: Request)
    requires !request.InvalidateRevision?
    ensures RevokesNothing(PlanWrites(disk, request))
  {
    match request
    case PersistActive(pending, instanceId, now) =>
      if pending.Pending? {
        var activating := ActivatingFrom(pending, instanceId);
        CommitRevokesNothing(ApplyWrite(disk, WriteJournal(activating)), activating, now);
      }
    case StartPairing(_, _, now, _) =>
      if disk.journal.Some? {
        CommitRevokesNothing(disk, disk.journal.value, now);
      }
    case Recover(_, now) =>
      if disk.journal.Some? {
        CommitRevokesNothing(disk, disk.journal.value, now);
      }
    case ExistingReporter(now) =>
      if disk.journal.Some? {
        CommitRevokesNothing(disk, disk.journal.value, now);
      }
    case _ =>
  }

  lemma StepKeepsRevocations(s: System, event: Event)
    requires RevocationsKnown(s) && Enabled(s, event)
    ensures RevocationsKnown(Step(s, event))
  {
    match event
    case Begin(request) =>
      if !request.InvalidateRevision? {
        PlansRevokeNothing(s.disk, request);
      }
    case WriteNext =>
      var remaining := s.holder.value.remaining;
      assert forall write | write in remaining[1..] :: write in remaining;
    case _ =>
  }

  /**
   Authorization is revoked only by an invalidation naming the revision that is on disk at
   that moment, never during a commit, and nothing but the authorization file changes.
   */
  lemma RevocationIsExact(trace: seq<System>, events: seq<Event>, n: nat)
    returns (request: Request)
    requires Behavior(trace, events) && Inv(trace[0]) && RevocationsKnown(trace[0])
    requires n < |events|
    requires IsAuthorized(trace[n].disk) && !IsAuthorized(trace[n + 1].disk)
    ensures trace[n].holder.Some? && request == trace[n].holder.value.request && request.InvalidateRevision?
    ensures trace[n].disk.binding.Some?
    ensures request.revision == (trace[n].disk.binding.value.generation, trace[n].disk.binding.value.requestId)
    ensures trace[n].disk.journal.Some? && !trace[n].disk.journal.value.Activating?
    ensures trace[n + 1].disk == trace[n].disk.(auth := trace[n + 1].disk.auth)
    ensures trace[n + 1].disk.auth == Some(AuthState(ReauthorizationRequired, request.reason, request.now))
  {
    RevocationsKnownThroughout(trace, events, n);
    BehaviorKeepsInv(trace, events, n);
    assert Enabled(trace[n], events[n]);
    var holder := trace[n].holder.value;
    var write := holder.remaining[0];
    assert IsRevocation(write) && write in holder.remaining;
    request := holder.request;
  }

  /** While one transaction holds the lock, what it has written and what it still has to write is its plan. */
  lemma {:induction false} HolderFollowsPlan(trace: seq<System>, events: seq<Event>, m: nat, n: nat, request: Request)
    requires Behavior(trace, events) && m < n < |trace| && events[m] == Begin(request)
    requires forall i | m < i <= n :: trace[i].holder.Some?
    ensures trace[n].holder.value.request == request
    ensures ApplyAll(trace[n].disk, trace[n].holder.value.remaining) ==
              ApplyAll(trace[m].disk, PlanWrites(trace[m].disk, request))
  {
    var s, e := trace[n - 1], events[n - 1];
    assert Enabled(s, e) && trace[n] == Step(s, e);
    if m < n - 1 {
      HolderFollowsPlan(trace, events, m, n - 1, request);
      HeldStep(s, e);
    }
  }

  lemma HeldStep(s: System, e: Event)
    requires s.holder.Some? && Enabled(s, e) && Step(s, e).holder.Some?
    ensures Step(s, e).holder.value.request == s.holder.value.request
    ensures ApplyAll(Step(s, e).disk, Step(s, e).holder.value.remaining) == ApplyAll(s.disk, s.holder.value.remaining)
  {
  }

  /** A transaction that completes has made exactly the writes it planned on the disk it found. */
  lemma CompletedIsPlanned(trace: seq<System>, events: seq<Event>, m: nat, n: nat, request: Request)
    requires Behavior(trace, events) && m < n < |events| && events[m] == Begin(request) && events[n].Finish?
    requires forall i | m < i <= n :: trace[i].holder.Some?
    ensures trace[n + 1].disk == ApplyAll(trace[m].disk, PlanWrites(trace[m].disk, request))
  {
    HolderFollowsPlan(trace, events, m, n, request);
    assert Enabled(trace[n], events[n]) && trace[n + 1] == Step(trace[n], events[n]);
  }

  /** What a request that completes makes of the disk it found, said without the plans. */
  ghost predicate Completes(request: Request, before: Disk, after: Disk) {
    match request
    case StartPairing(config, host, now, drawn) =>
      exists result :: StartPromise(before, config, host, now, drawn, after, result)
    case PersistPending(creating, pending) =>
      if creating.Creating?
      then exists result :: ReplacedIf(SameCreating(before.journal, creating), before, pending, after, result)
      else after == before
    case PersistEnded(pending, ended) =>
      if pending.Pending?
      then exists result :: ReplacedIf(SamePending(before.journal, pending), before, ended, after, result)
      else after == before
    case PersistActive(pending, instanceId, now) =>
      exists result :: ConfirmPromise(before, pending, instanceId, now, after, result)
    case Recover(activating, now) => exists result :: RecoverPromise(before, activating, now, after, result)
    case ExistingReporter(now) => exists result :: ServicePromise(before, now, after, result)
    case InvalidateRevision(revision, reason, now) =>
      exists result :: InvalidatePromise(before, revision, reason, now, after, result)
    case _ => after == before
  }

  /** The reporter snapshots a request hands out on a disk. */
  ghost predicate HandsOut(request: Request, disk: Disk, snapshot: Snapshot) {
    match request
    case ExistingReporter(now) => exists after :: ServicePromise(disk, now, after, Success(Some(snapshot)))
    case ActiveReporter =>
      && InForceOn(disk) && disk.journal.value.Active? && Reporter(disk, disk.binding.value) == Success(Some(snapshot))
    case NewerReporter(revision) =>
      && InForceOn(disk) && (disk.binding.value.generation, disk.binding.value.requestId) != revision
      && Reporter(disk, disk.binding.value) == Success(Some(snapshot))
    case PairedReporter(expected) =>
      && InForceOn(disk) && disk.journal.value.Active? && disk.binding == Some(expected)
      && Reporter(disk, expected) == Success(Some(snapshot))
    case _ => false
  }

  /** An authorized credential with a binding that the journal does not contradict. */
  predicate InForceOn(disk: Disk) {
    IsAuthorized(disk) && disk.journal.Some? && Loadable(disk) && !disk.journal.value.Activating? && Coherent(disk)
  }

  /** The journal documents a request lets its caller act on. */
  ghost predicate Reveals(request: Request, disk: Disk, journal: Journal) {
    match request
    case Load => disk.journal == Some(journal)
    case StartPairing(config, host, now, drawn) =>
      exists after :: StartPromise(disk, config, host, now, drawn, after, Success(Create(journal)))
    case _ => false
  }

  lemma PlannedCompletes(disk: Disk, request: Request)
    ensures Completes(request, disk, ApplyAll(disk, PlanWrites(disk, request)))
  {
    match request
    case StartPairing(config, host, now, drawn) => StartOutcome(disk, config, host, now, drawn);
    case PersistPending(creating, pending) => if creating.Creating? { CompareCreatingOutcome(disk, creating, pending); }
    case PersistEnded(pending, ended) => if pending.Pending? { ComparePendingOutcome(disk, pending, ended); }
    case PersistActive(pending, instanceId, now) => ConfirmOutcome(disk, pending, instanceId, now);
    case Recover(activating, now) => RecoverOutcome(disk, activating, now);
    case ExistingReporter(now) => ServiceOutcome(disk, now);
    case InvalidateRevision(revision, reason, now) => InvalidateOutcome(disk, revision, reason, now);
    case _ =>
  }

  lemma LearnedIsHandedOut(disk: Disk, request: Request, snapshot: Snapshot)
    ensures snapshot in LearnedSnapshots(disk, request) <==> HandsOut(request, disk, snapshot)
  {
    match request
    case ExistingReporter(now) => ServiceOutcome(disk, now);
    case ActiveReporter => CurrentReporterOutcome(disk);
    case NewerReporter(revision) => RefreshOutcome(disk, revision);
    case PairedReporter(expected) => ActivateOutcome(disk, expected);
    case _ =>
  }

  lemma LearnedIsRevealed(disk: Disk, request: Request, journal: Journal)
    ensures journal in LearnedCopies(disk, request) <==> Reveals(request, disk, journal)
  {
    match request
    case StartPairing(config, host, now, drawn) => StartOutcome(disk, config, host, now, drawn);
    case _ =>
  }

  /** Nothing is handed out before the transaction completes. */
  lemma {:induction false} HolderKeepsFindings(trace: seq<System>, events: seq<Event>, m: nat, n: nat, request: Request)
    requires Behavior(trace, events) && m < n < |trace| && events[m] == Begin(request)
    requires forall i | m < i <= n :: trace[i].holder.Some?
    ensures trace[n].holder.value.snapshots == LearnedSnapshots(trace[m].disk, request)
    ensures trace[n].holder.value.copies == LearnedCopies(trace[m].disk, request)
    ensures trace[n].snapshots == trace[m].snapshots && trace[n].copies == trace[m].copies
  {
    assert Enabled(trace[n - 1], events[n - 1]) && trace[n] == Step(trace[n - 1], events[n - 1]);
    if m < n - 1 {
      HolderKeepsFindings(trace, events, m, n - 1, request);
    }
  }

  /**
   In every interleaving, a transaction that completes leaves what its request promises of the disk it found, and
   hands out exactly the snapshots and journal copies promised.
   */
  lemma CompletedAsPromised(trace: seq<System>, events: seq<Event>, m: nat, n: nat, request: Request)
    requires Behavior(trace, events) && m < n < |events| && events[m] == Begin(request) && events[n].Finish?
    requires forall i | m < i <= n :: trace[i].holder.Some?
    ensures Completes(request, trace[m].disk, trace[n + 1].disk)
    ensures forall snapshot :: snapshot in trace[n + 1].snapshots <==>
              snapshot in trace[m].snapshots || HandsOut(request, trace[m].disk, snapshot)
    ensures forall journal :: journal in trace[n + 1].copies <==>
              journal in trace[m].copies || Reveals(request, trace[m].disk, journal)
  {
    CompletedIsPlanned(trace, events, m, n, request);
    PlannedCompletes(trace[m].disk, request);
    HolderKeepsFindings(trace, events, m, n, request);
    assert trace[n + 1] == Step(trace[n], events[n]);
    forall snapshot ensures snapshot in LearnedSnapshots(trace[m].disk, request) <==> HandsOut(request, trace[m].disk, snapshot)
    {
      LearnedIsHandedOut(trace[m].disk, request, snapshot);
    }
    forall journal ensures journal in LearnedCopies(trace[m].disk, request) <==> Reveals(request, trace[m].disk, journal) {
      LearnedIsRevealed(trace[m].disk, request, journal);
    }
  }

  /** An invalidation of the revision on disk that completes takes the authorization away, and nothing else. */
  lemma CompletedInvalidationRevokes(trace: seq<System>, events: seq<Event>, m: nat, n: nat, revision: Revision,
                                     reason: string, now: int)
    requires Behavior(trace, events) && Inv(trace[0]) && m < n < |events|
    requires events[m] == Begin(InvalidateRevision(revision, reason, now)) && events[n].Finish?
    requires forall i | m < i <= n :: trace[i].holder.Some?
    requires IsAuthorized(trace[m].disk) && trace[m].disk.journal.Some? && !trace[m].disk.journal.value.Activating?
    requires trace[m].disk.binding.Some?
    requires (trace[m].disk.binding.value.generation, trace[m].disk.binding.value.requestId) == revision
    ensures trace[n + 1].disk == trace[m].disk.(auth := Some(AuthState(ReauthorizationRequired, reason, now)))
    ensures !IsAuthorized(trace[n + 1].disk)
  {
    BehaviorKeepsInv(trace, events, m);
    JournalInHistory(trace[m]);
    CompletedIsPlanned(trace, events, m, n, InvalidateRevision(revision, reason, now));
    InvalidateOutcome(trace[m].disk, revision, reason, now);
  }

  lemma {:induction false} RevocationsKnownThroughout(trace: seq<System>, events: seq<Event>, n: nat)
    requires Behavior(trace, events) && RevocationsKnown(trace[0])
    requires n < |trace|
    ensures RevocationsKnown(trace[n])
  {
    if n > 0 {
      RevocationsKnownThroughout(trace, events, n - 1);
      assert Enabled(trace[n - 1], events[n - 1]);
      StepKeepsRevocations(trace[n - 1], events[n - 1]);
    }
  }

  /** While one journal entry other than Activating stays on disk, authorization is never regained. */
  lemma {:induction false} AuthorizationNotRegained(trace: seq<System>, events: seq<Event>, k: nat, n: nat)
    requires Behavior(trace, events) && Inv(trace[0])
    requires k <= n < |trace|
    requires forall i | k <= i <= n :: trace[i].disk.journal.Some? && !trace[i].disk.journal.value.Activating?
    requires IsAuthorized(trace[n].disk)
    ensures IsAuthorized(trace[k].disk)
    decreases n
  {
    if k < n {
      BehaviorKeepsInv(trace, events, n - 1);
      assert Enabled(trace[n - 1], events[n - 1]);
      assert IsAuthorized(trace[n - 1].disk);
      AuthorizationNotRegained(trace, events, k, n - 1);
    }
  }

  // ----- A pending request is not lost to local time -----

  predicate FixedEndpoints(config: Config, journal: Journal) {
    && journal.reportEndpoint == config.endpoint
    && (Rank(journal) <= 2 ==> journal.pairingEndpoint == config.pairingEndpoint)
  }

  /** Every process is configured for the same server and never asks to replace a pending request. */
  ghost predicate FixedConfiguration(config: Config, events: seq<Event>) {
    forall i {:trigger events[i]} | 0 <= i < |events| ::
      events[i].Begin? && events[i].request.StartPairing? ==>
        && !events[i].request.config.replacePending
        && events[i].request.config.endpoint == config.endpoint
        && events[i].request.config.pairingEndpoint == config.pairingEndpoint
  }

  /** An unfinished request is followed only by a document of the same generation. */
  ghost predicate NothingLost(history: seq<Journal>) {
    forall i, j | 0 <= i < j < |history| && j == i + 1 && Rank(history[i]) <= 1 :: !history[j].Creating?
  }

  ghost predicate AllFixed(config: Config, history: seq<Journal>) {
    forall i | 0 <= i < |history| :: FixedEndpoints(config, history[i])
  }

  ghost predicate KeepsRequests(config: Config, s: System) {
    && AllFixed(config, Planned(s))
    && NothingLost(Planned(s))
  }

  /** The journal history once the current lock holder has finished. */
  function Planned(s: System): seq<Journal> {
    if s.holder.Some? then WrittenAll(s, s.holder.value.remaining).history else s.history
  }

  /** The journal documents among some writes. */
  function Journals(writes: seq<Write>): seq<Journal> {
    if writes == [] then []
    else (if writes[0].WriteJournal? then [writes[0].journal] else []) + Journals(writes[1..])
  }

  lemma {:induction false} WrittenHistory(s: System, writes: seq<Write>)
    ensures WrittenAll(s, writes).history == s.history + Journals(writes)
    decreases |writes|
  {
    if writes != [] {
      WrittenHistory(Written(s, writes[0]), writes[1..]);
      var head := if writes[0].WriteJournal? then [writes[0].journal] else [];
      assert Written(s, writes[0]).history == s.history + head;
      assert (s.history + head) + Journals(writes[1..]) == s.history + (head + Journals(writes[1..]));
    }
  }

  lemma {:induction false} JournalsConcat(first: seq<Write>, second: seq<Write>)
    ensures Journals(first + second) == Journals(first) + Journals(second)
  {
    if first == [] {
      assert first + second == second;
    } else {
      assert (first + second)[1..] == first[1..] + second;
      JournalsConcat(first[1..], second);
      var head := if first[0].WriteJournal? then [first[0].journal] else [];
      assert head + (Journals(first[1..]) + Journals(second)) == (head + Journals(first[1..])) + Journals(second);
    }
  }

  lemma CommitJournals(activating: Journal, now: int)
    requires activating.Activating?
    ensures Journals(CommitWrites(activating, now)) == [ActiveFrom(activating, now)]
  {
    var writes := CommitWrites(activating, now);
    assert writes[1..][1..][1..][1..] == [writes[4]];
    assert Journals([writes[4]][1..]) == [];
    assert Journals(writes[1..][1..][1..][1..]) == [ActiveFrom(activating, now)];
    assert Journals(writes[1..][1..][1..]) == [ActiveFrom(activating, now)];
    assert Journals(writes[1..][1..]) == [ActiveFrom(activating, now)];
    assert Journals(writes[1..]) == [ActiveFrom(activating, now)];
  }

  lemma FinishJournals(disk: Disk, requested: Journal, now: int)
    ensures forall j | j in Journals(FinishPlan(disk, requested, now).writes) :: j.Active?
  {
    var replaced := ReplacePlan(disk, requested, now);
    if replaced.writes != [] {
      CommitJournals(disk.journal.value, now);
    }
  }

  /** Apart from starting a pairing, no transaction creates a generation. */
  lemma OnlyStartCreates(s: System, request: Request)
    requires CoreInv(s) && RequestPossible(s, request) && !request.StartPairing?
    ensures forall j | j in Journals(PlanWrites(s.disk, request)) :: !j.Creating?
  {
    match request
    case PersistPending(creating, pending) => assert ReplyOk(s, CreatedReply(creating, pending));
    case PersistActive(pending, instanceId, now) =>
      var writes := PlanWrites(s.disk, request);
      if writes != [] {
        var activating := ActivatingFrom(pending, instanceId);
        var disk := ApplyWrite(s.disk, WriteJournal(activating));
        FinishJournals(disk, activating, now);
        JournalsConcat([WriteJournal(activating)], FinishPlan(disk, activating, now).writes);
      }
    case Recover(activating, now) =>
      if s.disk.journal.Some? {
        FinishJournals(s.disk, s.disk.journal.value, now);
      }
    case ExistingReporter(now) =>
      if s.disk.journal.Some? {
        FinishJournals(s.disk, s.disk.journal.value, now);
      }
    case _ =>
  }

  /** A matching configuration without replacement resumes an unfinished request. */
  lemma StartKeepsRequest(disk: Disk, config: Config, host: Uuid, now: int, drawn: Drawn)
    requires disk.journal.Some? && Rank(disk.journal.value) <= 2 && FixedEndpoints(config, disk.journal.value)
    requires !config.replacePending
    ensures forall j | j in Journals(StartPlan(disk, config, host, now, drawn).writes) :: !j.Creating?
  {
    if disk.journal.value.Activating? {
      FinishJournals(disk, disk.journal.value, now);
    }
  }

  lemma StartJournals(disk: Disk, config: Config, host: Uuid, now: int, drawn: Drawn)
    ensures var journals := Journals(StartPlan(disk, config, host, now, drawn).writes);
            forall i | 0 <= i < |journals| :: journals[i].Active? || journals[i] == CreatingFrom(config, host, drawn)
  {
    var creating := [WriteJournal(CreatingFrom(config, host, drawn))];
    assert Journals(creating) == [CreatingFrom(config, host, drawn)];
    if disk.journal.Some? && disk.journal.value.Activating? {
      FinishJournals(disk, disk.journal.value, now);
      JournalsConcat(FinishPlan(disk, disk.journal.value, now).writes, creating);
    }
  }

  /** Endpoints are fixed by creation: a longer legal history with matching creations matches throughout. */
  lemma {:induction false} FixedThroughout(config: Config, history: seq<Journal>, start: nat, n: nat)
    requires HistoryOk(history) && start <= |history| && n <= |history|
    requires AllFixed(config, history[..start])
    requires forall i | start <= i < |history| :: history[i].Creating? ==> FixedEndpoints(config, history[i])
    ensures forall i | 0 <= i < n :: FixedEndpoints(config, history[i])
  {
    if n > 0 {
      FixedThroughout(config, history, start, n - 1);
      assert Link(history, n - 1);
      if n - 1 < start {
        assert history[..start][n - 1] == history[n - 1];
      }
    }
  }

  lemma NewGenerationsAreFixed(config: Config, s: System, request: Request)
    requires CoreInv(s) && RequestPossible(s, request) && AllFixed(config, s.history)
    requires request.StartPairing? ==>
               && !request.config.replacePending
               && request.config.endpoint == config.endpoint
               && request.config.pairingEndpoint == config.pairingEndpoint
    ensures forall j | j in Journals(PlanWrites(s.disk, request)) :: j.Creating? ==> FixedEndpoints(config, j)
    ensures s.disk.journal.Some? && Rank(s.disk.journal.value) <= 1 ==>
              forall j | j in Journals(PlanWrites(s.disk, request)) :: !j.Creating?
    ensures NothingLost(Journals(PlanWrites(s.disk, request)))
  {
    match request
    case StartPairing(requested, host, now, drawn) =>
      StartJournals(s.disk, requested, host, now, drawn);
      if s.disk.journal.Some? && Rank(s.disk.journal.value) <= 1 {
        StartKeepsRequest(s.disk, requested, host, now, drawn);
      }
      StartCreatesLast(s.disk, requested, host, now, drawn);
    case _ =>
      OnlyStartCreates(s, request);
  }

  lemma BeginPlanned(s: System, request: Request)
    requires Inv(s) && s.holder.None? && RequestPossible(s, request)
    ensures Planned(s) == s.history
    ensures Planned(Step(s, Begin(request))) == s.history + Journals(PlanWrites(s.disk, request))
    ensures HistoryOk(s.history + Journals(PlanWrites(s.disk, request)))
  {
    var writes := PlanWrites(s.disk, request);
    WrittenHistory(Step(s, Begin(request)), writes);
    WrittenHistory(s, writes);
    PlanIsSafe(s, request);
    SafeTailKeepsCore(s, writes);
  }

  lemma ExtendedIsFixed(config: Config, history: seq<Journal>, added: seq<Journal>)
    requires HistoryOk(history + added) && AllFixed(config, history)
    requires forall j | j in added :: j.Creating? ==> FixedEndpoints(config, j)
    ensures AllFixed(config, history + added)
  {
    var planned := history + added;
    assert planned[..|history|] == history;
    forall i | |history| <= i < |planned| && planned[i].Creating? ensures FixedEndpoints(config, planned[i]) {
      assert planned[i] == added[i - |history|];
    }
    FixedThroughout(config, planned, |history|, |planned|);
  }

  lemma BeginKeepsRequests(config: Config, s: System, request: Request)
    requires Inv(s) && s.holder.None? && RequestPossible(s, request)
    requires KeepsRequests(config, s)
    requires request.StartPairing? ==>
               && !request.config.replacePending
               && request.config.endpoint == config.endpoint
               && request.config.pairingEndpoint == config.pairingEndpoint
    ensures KeepsRequests(config, Step(s, Begin(request)))
  {
    var added := Journals(PlanWrites(s.disk, request));
    BeginPlanned(s, request);
    NewGenerationsAreFixed(config, s, request);
    ExtendedIsFixed(config, s.history, added);
    NothingLostConcat(s.history, added);
  }

  lemma NothingLostConcat(first: seq<Journal>, second: seq<Journal>)
    requires NothingLost(first) && NothingLost(second)
    requires first != [] && Rank(first[|first| - 1]) <= 1 && second != [] ==> !second[0].Creating?
    ensures NothingLost(first + second)
  {
    var both := first + second;
    forall i, j | 0 <= i < j < |both| && j == i + 1 && Rank(both[i]) <= 1 ensures !both[j].Creating? {
      if j < |first| {
        assert first[i] == both[i] && first[j] == both[j];
      } else if i >= |first| {
        assert second[i - |first|] == both[i] && second[j - |first|] == both[j];
      }
    }
  }

  lemma CreatesLast(finish: seq<Write>, creating: Journal)
    requires forall j | j in Journals(finish) :: j.Active?
    ensures NothingLost(Journals(finish)) && NothingLost(Journals(finish + [WriteJournal(creating)]))
  {
    var journals, create := Journals(finish), [WriteJournal(creating)];
    assert create[1..] == [] && Journals(create) == [creating];
    assert forall i | 0 <= i < |journals| :: journals[i] in journals;
    JournalsConcat(finish, create);
    NothingLostConcat(journals, [creating]);
  }

  lemma StartCreatesLast(disk: Disk, config: Config, host: Uuid, now: int, drawn: Drawn)
    ensures NothingLost(Journals(StartPlan(disk, config, host, now, drawn).writes))
  {
    var creating := CreatingFrom(config, host, drawn);
    CreatesLast([], creating);
    assert [] + [WriteJournal(creating)] == [WriteJournal(creating)];
    if disk.journal.Some? && disk.journal.value.Activating? {
      FinishJournals(disk, disk.journal.value, now);
      CreatesLast(FinishPlan(disk, disk.journal.value, now).writes, creating);
    }
  }

  lemma StepKeepsRequests(config: Config, s: System, event: Event)
    requires Inv(s) && Enabled(s, event) && KeepsRequests(config, s)
    requires FixedConfiguration(config, [event])
    ensures KeepsRequests(config, Step(s, event))
  {
    match event
    case Begin(request) =>
      assert [event][0] == event;
      BeginKeepsRequests(config, s, request);
    case WriteNext =>
      SafeTailMonotone(Written(s, s.holder.value.remaining[0]), Step(s, event), s.holder.value.remaining[1..]);
    case Abort =>
      PlannedExtends(s);
      assert forall i | 0 <= i < |s.history| :: s.history[i] == Planned(s)[i];
    case Finish =>
    case Post(_) =>
      PlannedUnchanged(s, Step(s, event));
    case Hear(_) =>
      PlannedUnchanged(s, Step(s, event));
  }

  lemma PlannedExtends(s: System)
    ensures s.history <= Planned(s)
  {
    if s.holder.Some? {
      WrittenHistory(s, s.holder.value.remaining);
    }
  }

  lemma PlannedUnchanged(s: System, t: System)
    requires t.holder == s.holder && t.history == s.history
    ensures Planned(t) == Planned(s)
  {
    if s.holder.Some? {
      WrittenHistory(s, s.holder.value.remaining);
      WrittenHistory(t, s.holder.value.remaining);
    }
  }

  lemma FixedEvent(config: Config, events: seq<Event>, i: nat)
    requires FixedConfiguration(config, events) && i < |events|
    ensures FixedConfiguration(config, [events[i]])
  {
  }

  lemma RequestsKept(config: Config, s: System, event: Event, t: System)
    requires Inv(s) && Enabled(s, event) && t == Step(s, event)
    requires FixedConfiguration(config, [event]) && KeepsRequests(config, s)
    ensures KeepsRequests(config, t)
  {
    StepKeepsRequests(config, s, event);
  }

  lemma {:induction false} RunKeepsRequests(config: Config, trace: seq<System>, events: seq<Event>, n: nat)
    requires Behavior(trace, events) && Inv(trace[0]) && n < |trace|
    requires FixedConfiguration(config, events) && KeepsRequests(config, trace[0])
    ensures KeepsRequests(config, trace[n])
  {
    if n > 0 {
      RunKeepsRequests(config, trace, events, n - 1);
      BehaviorKeepsInv(trace, events, n - 1);
      FixedEvent(config, events, n - 1);
      RequestsKept(config, trace[n - 1], events[n - 1], trace[n]);
    }
  }

  /**
   With one server configured and replacement off, whatever the clocks say: a Creating request
   is only ever completed, and a Pending request gives way only to what the server said about
   exactly this request: activated, denied, expired, or a trusted ended-transaction error.
   */
  lemma PendingOnlyEndedByServer(config: Config, trace: seq<System>, events: seq<Event>, n: nat, i: nat)
    requires Behavior(trace, events) && Inv(trace[0]) && n < |trace|
    requires FixedConfiguration(config, events) && KeepsRequests(config, trace[0])
    requires i + 1 < |trace[n].history|
    ensures var kept, next := trace[n].history[i], trace[n].history[i + 1];
            && (kept.Creating? ==> IsPendingOf(kept, next))
            && (kept.Pending? ==>
                  && next.generation == kept.generation
                  && (|| (next.Activating? && PollReply(kept, ServerActive(next.instanceId)) in trace[n].replies)
                      || (!next.Activating? && EndedBy(kept, next, trace[n].replies))))
  {
    RunKeepsRequests(config, trace, events, n);
    BehaviorKeepsInv(trace, events, n);
    var s := trace[n];
    var kept, next := s.history[i], s.history[i + 1];
    if s.holder.Some? {
      WrittenHistory(s, s.holder.value.remaining);
    }
    assert Planned(s)[i] == kept && Planned(s)[i + 1] == next;
    assert Link(s.history, i + 1);
    assert Justified(s.replies, next);
    if kept.Pending? && next.Activating? {
      var p :| PollReply(p, ServerActive(next.instanceId)) in s.replies && p.Pending?
               && next == ActivatingFrom(p, next.instanceId);
      assert ReplyOk(s, PollReply(p, ServerActive(next.instanceId)));
      SamePhaseSameEntry(s.history, p, kept);
    } else if kept.Pending? {
      var p: Journal :| p.Pending? && EndedBy(p, next, s.replies);
      assert exists verdict :: PollReply(p, verdict) in s.replies;
      var verdict :| PollReply(p, verdict) in s.replies;
      assert ReplyOk(s, PollReply(p, verdict));
      SamePhaseSameEntry(s.history, p, kept);
    }
  }

  lemma FreshSystemKeepsRequests(config: Config)
    ensures KeepsRequests(config, FRESH_SYSTEM) && RevocationsKnown(FRESH_SYSTEM)
  {
  }
}
