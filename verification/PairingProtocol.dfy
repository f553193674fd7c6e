/**
 The pairing protocol as a transition system: any number of processes run the locked
 transactions of `PairingPlans` against one directory, one file replacement per step.

 - The lock is exclusive: at most one transaction has writes outstanding.
 - A transaction can stop after any prefix of its writes (`Abort`: crash or failed replacement).
 - Whatever any process ever read (`copies`) or ever heard from the server (`replies`) can be
   used by some process arbitrarily later, so every stale in-memory copy is covered.
 - The server is unconstrained, except that it can answer only requests that were sent.
 - A drawn generation was never used in the journal before (fresh UUIDs).
 */
module PairingProtocol {
  import opened Wrappers
  import opened PairingState
  import opened PairingPlans

  // ----- Requests, replies and the state -----

  datatype Verdict = ServerActive(instanceId: Uuid) | ServerDenied | ServerExpired | ServerEnded

  datatype Reply =
    | CreatedReply(creating: Journal, pending: Journal)
    | PollReply(polled: Journal, verdict: Verdict)

  datatype Request =
    | Load
    | StartPairing(config: Config, host: Uuid, now: int, drawn: Drawn)
    | PersistPending(creating: Journal, pending: Journal)
    | PersistEnded(polled: Journal, ended: Journal)
    | PersistActive(polled: Journal, instanceId: Uuid, now: int)
    | Recover(activating: Journal, now: int)
    | ExistingReporter(now: int)
    | ActiveReporter
    | NewerReporter(revision: Revision)
    | PairedReporter(expected: Binding)
    | InvalidateRevision(revision: Revision, reason: string, now: int)

  /** A lock holder: its request, the writes it still has to make, and what it learns if it finishes. */
  datatype Holder = Holder(request: Request, remaining: seq<Write>, copies: set<Journal>, snapshots: set<Snapshot>)

  datatype System = System(
    disk: Disk,
    holder: Option<Holder>,
    history: seq<Journal>,         // every journal document ever written, oldest first
    installed: Option<Journal>,    // the Activating journal whose commit completed last
    copies: set<Journal>,
    posted: set<Journal>,          // creation requests sent, by the journal they were built from
    replies: set<Reply>,
    snapshots: set<Snapshot>)      // every reporter snapshot ever handed out

  const FRESH_SYSTEM := System(EMPTY_DISK, None, [], None, {}, {}, {}, {})

  datatype Event = Begin(request: Request) | WriteNext | Finish | Abort | Post(creating: Journal) | Hear(reply: Reply)

  predicate IsPendingOf(creating: Journal, pending: Journal) {
    && creating.Creating?
    && pending.Pending?
    && pending.generation == creating.generation
    && pending.pairingEndpoint == creating.pairingEndpoint
    && pending.reportEndpoint == creating.reportEndpoint
    && pending.bearer == creating.bearer
    && pending.polling == creating.polling
  }

  function DeniedFrom(pending: Journal, now: int): Journal
    requires pending.Pending?
  {
    Denied(pending.generation, pending.requestId, pending.activationUrl, pending.reportEndpoint, now)
  }

  function ExpiredFrom(pending: Journal, now: int): Journal
    requires pending.Pending?
  {
    Expired(pending.generation, pending.requestId, pending.activationUrl, pending.reportEndpoint, now)
  }

  predicate EndedBy(pending: Journal, ended: Journal, replies: set<Reply>)
    requires pending.Pending?
  {
    || (ended.Denied? && ended == DeniedFrom(pending, ended.completedAt)
        && PollReply(pending, ServerDenied) in replies)
    || (ended.Expired? && ended == ExpiredFrom(pending, ended.completedAt)
        && (PollReply(pending, ServerExpired) in replies || PollReply(pending, ServerEnded) in replies))
  }

  function PlanWrites(disk: Disk, request: Request): seq<Write> {
    match request
    case StartPairing(config, host, now, drawn) => StartPlan(disk, config, host, now, drawn).writes
    case PersistPending(creating, pending) =>
      if creating.Creating? then CasCreatingPlan(disk, creating, pending).writes else []
    case PersistEnded(pending, ended) => if pending.Pending? then CasPendingPlan(disk, pending, ended).writes else []
    case PersistActive(pending, instanceId, now) => PersistActivePlan(disk, pending, instanceId, now).writes
    case Recover(activating, now) => RecoverPlan(disk, activating, now).writes
    case ExistingReporter(now) => ExistingReporterPlan(disk, now).writes
    case InvalidateRevision(revision, reason, now) => InvalidatePlan(disk, revision, reason, now).writes
    case _ => []
  }

  function LearnedCopies(disk: Disk, request: Request): set<Journal> {
    match request
    case Load => if disk.journal.Some? then {disk.journal.value} else {}
    case StartPairing(config, host, now, drawn) =>
      var start := StartPlan(disk, config, host, now, drawn).result;
      if start.Success? && start.value.Create? then {start.value.journal} else {}
    case _ => {}
  }

  function SnapshotSet(result: Result<Option<Snapshot>, Error>): set<Snapshot> {
    if result.Success? && result.value.Some? then {result.value.value} else {}
  }

  function LearnedSnapshots(disk: Disk, request: Request): set<Snapshot> {
    match request
    case ExistingReporter(now) => SnapshotSet(ExistingReporterPlan(disk, now).result)
    case ActiveReporter => SnapshotSet(CurrentReporter(disk))
    case NewerReporter(revision) => SnapshotSet(RefreshReporter(disk, revision))
    case PairedReporter(expected) =>
      var activated := ActivateReporter(disk, expected);
      if activated.Success? then {activated.value} else {}
    case _ => {}
  }

  predicate RequestPossible(s: System, request: Request) {
    match request
    case StartPairing(_, _, _, drawn) =>
      drawn.generation != 0 && forall i | 0 <= i < |s.history| :: s.history[i].generation != drawn.generation
    case PersistPending(creating, pending) => CreatedReply(creating, pending) in s.replies
    case PersistEnded(pending, ended) => pending.Pending? && EndedBy(pending, ended, s.replies)
    case PersistActive(pending, instanceId, _) => PollReply(pending, ServerActive(instanceId)) in s.replies
    case Recover(activating, _) => activating in s.copies
    case _ => true
  }

  predicate Enabled(s: System, event: Event) {
    match event
    case Begin(request) => s.holder.None? && RequestPossible(s, request)
    case WriteNext => s.holder.Some? && s.holder.value.remaining != []
    case Finish => s.holder.Some? && s.holder.value.remaining == []
    case Abort => s.holder.Some?
    case Post(creating) => creating in s.copies && creating.Creating?
    case Hear(CreatedReply(creating, pending)) => creating in s.posted && IsPendingOf(creating, pending)
    case Hear(PollReply(pending, _)) => pending in s.copies && pending.Pending?
  }

  /** One write, with the bookkeeping of the journal history. */
  function Written(s: System, write: Write): System {
    var after := s.(disk := ApplyWrite(s.disk, write));
    if write.WriteJournal? then
      after.(history := s.history + [write.journal],
             installed := if write.journal.Active? then s.disk.journal else s.installed)
    else after
  }

  function Step(s: System, event: Event): System
    requires Enabled(s, event)
  {
    match event
    case Begin(request) =>
      s.(holder := Some(Holder(request, PlanWrites(s.disk, request),
                               LearnedCopies(s.disk, request), LearnedSnapshots(s.disk, request))))
    case WriteNext =>
      var holder := s.holder.value;
      Written(s, holder.remaining[0]).(holder := Some(holder.(remaining := holder.remaining[1..])))
    case Finish =>
      s.(holder := None, copies := s.copies + s.holder.value.copies,
         snapshots := s.snapshots + s.holder.value.snapshots)
    case Abort => s.(holder := None)
    case Post(creating) => s.(posted := s.posted + {creating})
    case Hear(reply) => s.(replies := s.replies + {reply})
  }

  ghost predicate Behavior(trace: seq<System>, events: seq<Event>) {
    && |trace| == |events| + 1
    && forall i {:trigger events[i]} | 0 <= i < |events| ::
         Enabled(trace[i], events[i]) && trace[i + 1] == Step(trace[i], events[i])
  }

  // ----- The life of one generation -----

  function Rank(journal: Journal): nat {
    match journal
    case Creating(_, _, _, _, _, _) => 0
    case Pending(_, _, _, _, _, _, _, _, _) => 1
    case Activating(_, _, _, _, _, _, _, _, _) => 2
    case _ => 3
  }

  /** The only ways one document of a generation may follow another. */
  predicate Advances(prev: Journal, next: Journal) {
    match next
    case Creating(_, _, _, _, _, _) => false
    case Pending(_, _, _, _, _, _, _, _, _) => IsPendingOf(prev, next)
    case Activating(_, _, _, _, _, _, _, _, _) => prev.Pending? && next == ActivatingFrom(prev, next.instanceId)
    case Active(_, _, _, _, _, _) => prev.Activating? && next == ActiveFrom(prev, next.completedAt)
    case Denied(_, _, _, _, _) => prev.Pending? && next == DeniedFrom(prev, next.completedAt)
    case Expired(_, _, _, _, _) => prev.Pending? && next == ExpiredFrom(prev, next.completedAt)
  }

  /** Entry `i` is a new generation, not interrupting a commit, or advances entry `i - 1`. */
  ghost predicate Link(history: seq<Journal>, i: nat)
    requires i < |history|
  {
    if history[i].Creating? then
      && history[i].generation != 0
      && (forall j | 0 <= j < i :: history[j].generation != history[i].generation)
      && (i > 0 ==> !history[i - 1].Activating?)
    else
      i > 0 && Advances(history[i - 1], history[i])
  }

  ghost predicate HistoryOk(history: seq<Journal>) {
    forall i: nat | i < |history| :: Link(history, i)
  }

  /** What never changes between two documents of one generation, as far as both carry it. */
  predicate SameGenerationData(a: Journal, b: Journal) {
    && a.reportEndpoint == b.reportEndpoint
    && (Rank(a) <= 2 && Rank(b) <= 2 ==> a.pairingEndpoint == b.pairingEndpoint && a.bearer == b.bearer)
    && (Rank(a) <= 1 && Rank(b) <= 1 ==> a.polling == b.polling)
    && (!a.Creating? && !b.Creating? ==> a.requestId == b.requestId && a.activationUrl == b.activationUrl)
    && ((a.Activating? || a.Active?) && (b.Activating? || b.Active?) ==> a.instanceId == b.instanceId)
  }

  /**
   A generation only moves forward, occupies one contiguous stretch of the journal history,
   and never changes its secrets, endpoints, request id or instance id.
   */
  lemma {:induction false} GenerationLifecycle(history: seq<Journal>, i: nat, j: nat)
    requires HistoryOk(history)
    requires i < j < |history|
    requires history[i].generation == history[j].generation
    ensures forall k | i <= k <= j :: history[k].generation == history[i].generation
    ensures forall k | i <= k < j :: Rank(history[k]) < Rank(history[j])
    ensures forall k, l | i <= k < l <= j && l == k + 1 :: Advances(history[k], history[l])
    ensures SameGenerationData(history[i], history[j])
    decreases j
  {
    assert Link(history, j);
    assert Advances(history[j - 1], history[j]);
    if i < j - 1 {
      GenerationLifecycle(history, i, j - 1);
    }
  }

  lemma GenerationPositive(history: seq<Journal>, i: nat)
    requires HistoryOk(history) && i < |history|
    ensures history[i].generation != 0
    decreases i
  {
    assert Link(history, i);
    if !history[i].Creating? {
      GenerationPositive(history, i - 1);
    }
  }

  /** Two documents of one generation in the same phase are the same history entry. */
  lemma SamePhaseSameEntry(history: seq<Journal>, a: Journal, b: Journal)
    requires HistoryOk(history)
    requires a in history && b in history
    requires a.generation == b.generation && Rank(a) == Rank(b)
    ensures a == b
  {
    var i :| 0 <= i < |history| && history[i] == a;
    var j :| 0 <= j < |history| && history[j] == b;
    if i < j {
      GenerationLifecycle(history, i, j);
    } else if j < i {
      GenerationLifecycle(history, j, i);
    }
  }

  // ----- The invariant -----

  /** The four credential files all belong to one Activating journal. */
  predicate FilesOf(disk: Disk, activating: Journal)
  {
    && activating.Activating?
    && disk.credential == Some(activating.bearer)
    && disk.identity == Some(activating.instanceId)
    && disk.binding == Some(BindingOf(activating))
    && disk.auth.Some?
    && ValidBinding(BindingOf(activating))
    && ValidToken(activating.bearer)
  }

  ghost predicate FilesOk(s: System) {
    && (s.disk.binding.Some? ==> ValidBinding(s.disk.binding.value))
    && (s.disk.journal.None? ==> s.disk == EMPTY_DISK)
    && (s.disk.journal.Some? && !s.disk.journal.value.Activating? && s.disk.auth.Some? ==>
          && s.installed.Some?
          && s.installed.value in s.history
          && FilesOf(s.disk, s.installed.value))
    && (s.disk.journal.Some? && s.disk.journal.value.Active? ==>
          && s.disk.auth.Some?
          && s.disk.binding == Some(BindingOf(s.disk.journal.value)))
  }

  /** Why the entry was allowed to be written. */
  ghost predicate Justified(replies: set<Reply>, journal: Journal) {
    match journal
    case Pending(_, _, _, _, _, _, _, _, _) => exists c :: CreatedReply(c, journal) in replies
    case Activating(_, _, _, _, _, instance, _, _, _) =>
      exists p :: PollReply(p, ServerActive(instance)) in replies && p.Pending? && journal == ActivatingFrom(p, instance)
    case Denied(_, _, _, _, _) => exists p: Journal :: p.Pending? && EndedBy(p, journal, replies)
    case Expired(_, _, _, _, _) => exists p: Journal :: p.Pending? && EndedBy(p, journal, replies)
    case _ => true
  }

  /** Token, identity, endpoint and revision of one and the same generation. */
  predicate SnapshotOf(activating: Journal, snapshot: Snapshot) {
    && activating.Activating?
    && snapshot.revision == (activating.generation, activating.requestId)
    && snapshot.token == activating.bearer
    && snapshot.identity == activating.instanceId
    && snapshot.host == activating.instanceId
    && snapshot.endpoint == activating.reportEndpoint
  }

  ghost predicate SnapshotOk(history: seq<Journal>, snapshot: Snapshot) {
    exists a :: a in history && SnapshotOf(a, snapshot)
  }

  ghost predicate KnowledgeOk(s: System) {
    && (forall c | c in s.copies :: c in s.history)
    && (forall c | c in s.posted :: c in s.history && c.Creating?)
    && (forall r | r in s.replies :: ReplyOk(s, r))
    && (forall snapshot | snapshot in s.snapshots :: SnapshotOk(s.history, snapshot))
    && (forall i: nat | i < |s.history| :: Justified(s.replies, s.history[i]))
  }

  ghost predicate ReplyOk(s: System, reply: Reply) {
    match reply
    case CreatedReply(creating, pending) => creating in s.posted && IsPendingOf(creating, pending)
    case PollReply(pending, _) => pending.Pending? && pending in s.history
  }

  ghost predicate CoreInv(s: System) {
    && HistoryOk(s.history)
    && s.disk.journal == (if s.history == [] then None else Some(s.history[|s.history| - 1]))
    && FilesOk(s)
    && KnowledgeOk(s)
  }

  /** The writes the protocol allows in a state. */
  ghost predicate SafeWrite(s: System, write: Write) {
    match write
    case WriteJournal(next) =>
      && Link(s.history + [next], |s.history|)
      && Justified(s.replies, next)
      && (next.Active? ==> s.disk.journal.Some? && FilesOf(s.disk, s.disk.journal.value))
    case WriteAuth(AuthState(ReauthorizationRequired, _, _)) =>
      s.disk.journal.Some? && !s.disk.journal.value.Activating? && s.disk.auth.Some?
    case WriteAuth(AuthState(Authorized, _, _)) => CommittingValid(s)
    case WriteIdentity(_) => CommittingValid(s)
    case WriteCredential(_) => CommittingValid(s)
    case WriteBinding(binding) => CommittingValid(s) && binding == BindingOf(s.disk.journal.value)
  }

  predicate CommittingValid(s: System) {
    && s.disk.journal.Some?
    && s.disk.journal.value.Activating?
    && ValidBinding(BindingOf(s.disk.journal.value))
  }

  ghost predicate SafeTail(s: System, writes: seq<Write>)
    decreases |writes|
  {
    writes == [] || (SafeWrite(s, writes[0]) && SafeTail(Written(s, writes[0]), writes[1..]))
  }

  function WrittenAll(s: System, writes: seq<Write>): System
    decreases |writes|
  {
    if writes == [] then s else WrittenAll(Written(s, writes[0]), writes[1..])
  }

  ghost predicate HolderOk(s: System, holder: Holder) {
    && SafeTail(s, holder.remaining)
    && var planned := WrittenAll(s, holder.remaining).history;
       && (forall c | c in holder.copies :: c in planned)
       && (forall snapshot | snapshot in holder.snapshots :: SnapshotOk(planned, snapshot))
  }

  ghost predicate Inv(s: System) {
    && CoreInv(s)
    && (s.holder.Some? ==> HolderOk(s, s.holder.value))
  }

  // ----- Every allowed write keeps the core invariant -----

  lemma HistoryGrows(history: seq<Journal>, next: Journal)
    requires HistoryOk(history)
    requires Link(history + [next], |history|)
    ensures HistoryOk(history + [next])
  {
    var longer := history + [next];
    forall i: nat | i < |longer| ensures Link(longer, i) {
      if i < |history| {
        assert Link(history, i);
      }
    }
  }

  lemma KnowledgeGrows(s: System, t: System)
    requires KnowledgeOk(s)
    requires s.history <= t.history
    requires t.copies == s.copies && t.posted == s.posted && t.replies == s.replies && t.snapshots == s.snapshots
    requires forall i: nat | |s.history| <= i < |t.history| :: Justified(t.replies, t.history[i])
    ensures KnowledgeOk(t)
  {
    forall c | c in s.history ensures c in t.history {
      var i :| 0 <= i < |s.history| && s.history[i] == c;
      assert t.history[i] == c;
    }
    forall r | r in t.replies ensures ReplyOk(t, r) {
      assert ReplyOk(s, r);
    }
    forall snapshot | snapshot in t.snapshots ensures SnapshotOk(t.history, snapshot) {
      assert SnapshotOk(s.history, snapshot);
    }
    forall i: nat | i < |t.history| ensures Justified(t.replies, t.history[i]) {
      if i < |s.history| {
        assert t.history[i] == s.history[i];
      }
    }
  }

  lemma SafeWriteKeepsCore(s: System, write: Write)
    requires CoreInv(s) && SafeWrite(s, write)
    ensures CoreInv(Written(s, write))
  {
    var t := Written(s, write);
    match write
    case WriteJournal(next) =>
      HistoryGrows(s.history, next);
      KnowledgeGrows(s, t);
      assert Link(t.history, |s.history|);
      if s.disk.journal.Some? {
        assert s.disk.journal.value == s.history[|s.history| - 1];
        assert s.disk.journal.value == t.history[|s.history| - 1];
      }
    case _ =>
      KnowledgeGrows(s, t);
  }

  lemma {:induction false} SafeTailKeepsCore(s: System, writes: seq<Write>)
    requires CoreInv(s) && SafeTail(s, writes)
    ensures CoreInv(WrittenAll(s, writes))
    decreases |writes|
  {
    if writes != [] {
      SafeWriteKeepsCore(s, writes[0]);
      SafeTailKeepsCore(Written(s, writes[0]), writes[1..]);
    }
  }

  lemma {:induction false} WrittenAllDisk(s: System, writes: seq<Write>)
    ensures WrittenAll(s, writes).disk == ApplyAll(s.disk, writes)
    ensures s.history <= WrittenAll(s, writes).history
    ensures WrittenAll(s, writes).replies == s.replies
    decreases |writes|
  {
    if writes != [] {
      WrittenAllDisk(Written(s, writes[0]), writes[1..]);
    }
  }

  // ----- Every plan makes only allowed writes -----

  lemma JournalInHistory(s: System)
    requires CoreInv(s) && s.disk.journal.Some?
    ensures s.disk.journal.value in s.history
    ensures s.disk.journal.value.generation != 0
  {
    assert s.history[|s.history| - 1] == s.disk.journal.value;
    GenerationPositive(s.history, |s.history| - 1);
  }

  lemma SafeFirst(s: System, write: Write, rest: seq<Write>)
    requires SafeWrite(s, write) && SafeTail(Written(s, write), rest)
    ensures SafeTail(s, [write] + rest)
    ensures WrittenAll(s, [write] + rest) == WrittenAll(Written(s, write), rest)
  {
    assert ([write] + rest)[1..] == rest;
  }

  lemma FiveSafe(s: System, writes: seq<Write>, s1: System, s2: System, s3: System, s4: System)
    requires |writes| == 5
    requires s1 == Written(s, writes[0]) && s2 == Written(s1, writes[1])
    requires s3 == Written(s2, writes[2]) && s4 == Written(s3, writes[3])
    requires SafeWrite(s, writes[0]) && SafeWrite(s1, writes[1]) && SafeWrite(s2, writes[2])
    requires SafeWrite(s3, writes[3]) && SafeWrite(s4, writes[4])
    ensures SafeTail(s, writes) && WrittenAll(s, writes) == Written(s4, writes[4])
  {
    assert SafeTail(Written(s4, writes[4]), []);
    SafeFirst(s4, writes[4], []);
    SafeFirst(s3, writes[3], [writes[4]] + []);
    SafeFirst(s2, writes[2], [writes[3]] + ([writes[4]] + []));
    SafeFirst(s1, writes[1], [writes[2]] + ([writes[3]] + ([writes[4]] + [])));
    SafeFirst(s, writes[0], [writes[1]] + ([writes[2]] + ([writes[3]] + ([writes[4]] + []))));
    assert writes == [writes[0]] + ([writes[1]] + ([writes[2]] + ([writes[3]] + ([writes[4]] + []))));
  }

  lemma CommitIsSafe(s: System, now: int)
    requires CoreInv(s)
    requires s.disk.journal.Some? && s.disk.journal.value.Activating?
    requires CommitPlan(s.disk.journal.value, now).result.Success?
    ensures SafeTail(s, CommitWrites(s.disk.journal.value, now))
    ensures WrittenAll(s, CommitWrites(s.disk.journal.value, now)).history
            == s.history + [ActiveFrom(s.disk.journal.value, now)]
    ensures WrittenAll(s, CommitWrites(s.disk.journal.value, now)).disk.journal
            == Some(ActiveFrom(s.disk.journal.value, now))
  {
    var writes := CommitWrites(s.disk.journal.value, now);
    var s1 := Written(s, writes[0]);
    var s2 := Written(s1, writes[1]);
    var s3 := Written(s2, writes[2]);
    var s4 := Written(s3, writes[3]);
    ActiveLast(s, s4, now);
    FiveSafe(s, writes, s1, s2, s3, s4);
  }

  /** With all four files in place the Active journal may be written. */
  lemma ActiveLast(s: System, committed: System, now: int)
    requires CoreInv(s) && s.disk.journal.Some? && s.disk.journal.value.Activating?
    requires committed.history == s.history && committed.replies == s.replies && committed.disk.journal == s.disk.journal
    requires FilesOf(committed.disk, s.disk.journal.value)
    ensures SafeWrite(committed, WriteJournal(ActiveFrom(s.disk.journal.value, now)))
  {
    assert s.history[|s.history| - 1] == s.disk.journal.value;
  }

  lemma FinishIsSafe(s: System, requested: Journal, now: int)
    requires CoreInv(s)
    ensures SafeTail(s, FinishPlan(s.disk, requested, now).writes)
    ensures FinishPlan(s.disk, requested, now).result.Success? ==>
              var done := WrittenAll(s, FinishPlan(s.disk, requested, now).writes);
              && s.disk.journal.Some? && s.disk.journal.value.Activating?
              && done.history == s.history + [ActiveFrom(s.disk.journal.value, now)]
              && done.disk.journal == Some(ActiveFrom(s.disk.journal.value, now))
  {
    var replaced := ReplacePlan(s.disk, requested, now);
    if replaced.writes != [] {
      CommitIsSafe(s, now);
    }
  }

  lemma {:induction false} SafeTailConcat(s: System, first: seq<Write>, second: seq<Write>)
    requires SafeTail(s, first)
    requires SafeTail(WrittenAll(s, first), second)
    ensures SafeTail(s, first + second)
    ensures WrittenAll(s, first + second) == WrittenAll(WrittenAll(s, first), second)
    decreases |first|
  {
    if first == [] {
      assert first + second == second;
    } else {
      assert (first + second)[1..] == first[1..] + second;
      SafeTailConcat(Written(s, first[0]), first[1..], second);
    }
  }

  lemma OneWrite(s: System, write: Write)
    requires SafeWrite(s, write)
    ensures SafeTail(s, [write])
    ensures WrittenAll(s, [write]) == Written(s, write)
  {
    assert [write][1..] == [];
    assert SafeTail(Written(s, write), []);
    assert WrittenAll(Written(s, write), []) == Written(s, write);
  }

  lemma CreateIsSafe(s: System, config: Config, host: Uuid, drawn: Drawn)
    requires CoreInv(s)
    requires s.disk.journal.Some? ==> !s.disk.journal.value.Activating?
    requires drawn.generation != 0
    requires forall i | 0 <= i < |s.history| :: s.history[i].generation != drawn.generation
    ensures SafeTail(s, [WriteJournal(CreatingFrom(config, host, drawn))])
    ensures WrittenAll(s, [WriteJournal(CreatingFrom(config, host, drawn))]).history
            == s.history + [CreatingFrom(config, host, drawn)]
  {
    OneWrite(s, WriteJournal(CreatingFrom(config, host, drawn)));
  }

  lemma StartIsSafe(s: System, config: Config, host: Uuid, now: int, drawn: Drawn)
    requires CoreInv(s)
    requires RequestPossible(s, StartPairing(config, host, now, drawn))
    ensures var plan := StartPlan(s.disk, config, host, now, drawn);
            && SafeTail(s, plan.writes)
            && (plan.result.Success? && plan.result.value.Create? ==>
                  plan.result.value.journal in WrittenAll(s, plan.writes).history)
  {
    var create := [WriteJournal(CreatingFrom(config, host, drawn))];
    if s.disk.journal.None? {
      CreateIsSafe(s, config, host, drawn);
    } else {
      JournalInHistory(s);
      var journal := s.disk.journal.value;
      if journal.Activating? {
        var finish := FinishPlan(s.disk, journal, now);
        FinishIsSafe(s, journal, now);
        if finish.result.Success? && !EndpointsMatch(config, journal) {
          var done := WrittenAll(s, finish.writes);
          SafeTailKeepsCore(s, finish.writes);
          forall i | 0 <= i < |done.history| ensures done.history[i].generation != drawn.generation {
            assert journal.generation != drawn.generation;
          }
          CreateIsSafe(done, config, host, drawn);
          SafeTailConcat(s, finish.writes, create);
        }
      } else {
        CreateIsSafe(s, config, host, drawn);
      }
    }
  }

  lemma CasCreatingIsSafe(s: System, creating: Journal, pending: Journal)
    requires CoreInv(s)
    requires CreatedReply(creating, pending) in s.replies
    ensures creating.Creating?
    ensures SafeTail(s, CasCreatingPlan(s.disk, creating, pending).writes)
  {
    assert ReplyOk(s, CreatedReply(creating, pending));
    var plan := CasCreatingPlan(s.disk, creating, pending);
    if plan.writes != [] {
      JournalInHistory(s);
      SamePhaseSameEntry(s.history, s.disk.journal.value, creating);
      OneWrite(s, WriteJournal(pending));
    }
  }

  /** The compare step identifies the caller's stale copy with the journal on disk, in every field. */
  lemma CurrentPendingIsTheCopy(s: System, pending: Journal)
    requires CoreInv(s)
    requires pending in s.history && pending.Pending?
    requires PendingIsCurrent(s.disk, pending)
    ensures s.disk.journal == Some(pending)
  {
    JournalInHistory(s);
    SamePhaseSameEntry(s.history, s.disk.journal.value, pending);
  }

  lemma CasPendingIsSafe(s: System, pending: Journal, ended: Journal)
    requires CoreInv(s)
    requires pending.Pending? && EndedBy(pending, ended, s.replies)
    ensures SafeTail(s, CasPendingPlan(s.disk, pending, ended).writes)
  {
    assert exists verdict :: PollReply(pending, verdict) in s.replies;
    var verdict :| PollReply(pending, verdict) in s.replies;
    assert ReplyOk(s, PollReply(pending, verdict));
    if CasPendingPlan(s.disk, pending, ended).writes != [] {
      CurrentPendingIsTheCopy(s, pending);
      assert Link(s.history + [ended], |s.history|);
      OneWrite(s, WriteJournal(ended));
    }
  }

  lemma PersistActiveIsSafe(s: System, pending: Journal, instanceId: Uuid, now: int)
    requires CoreInv(s)
    requires PollReply(pending, ServerActive(instanceId)) in s.replies
    ensures SafeTail(s, PersistActivePlan(s.disk, pending, instanceId, now).writes)
  {
    assert ReplyOk(s, PollReply(pending, ServerActive(instanceId)));
    var plan := PersistActivePlan(s.disk, pending, instanceId, now);
    if plan.writes != [] {
      CurrentPendingIsTheCopy(s, pending);
      var activating := ActivatingFrom(pending, instanceId);
      assert Link(s.history + [activating], |s.history|);
      OneWrite(s, WriteJournal(activating));
      SafeWriteKeepsCore(s, WriteJournal(activating));
      var s1 := Written(s, WriteJournal(activating));
      FinishIsSafe(s1, activating, now);
      SafeTailConcat(s, [WriteJournal(activating)], FinishPlan(s1.disk, activating, now).writes);
    }
  }

  lemma InvalidateIsSafe(s: System, revision: Revision, reason: string, now: int)
    requires CoreInv(s)
    ensures SafeTail(s, InvalidatePlan(s.disk, revision, reason, now).writes)
  {
    var plan := InvalidatePlan(s.disk, revision, reason, now);
    if plan.writes != [] {
      OneWrite(s, plan.writes[0]);
    }
  }

  lemma PlanTailIsSafe(s: System, request: Request)
    requires CoreInv(s) && RequestPossible(s, request)
    ensures SafeTail(s, PlanWrites(s.disk, request))
  {
    match request
    case StartPairing(config, host, now, drawn) => StartIsSafe(s, config, host, now, drawn);
    case PersistPending(creating, pending) => CasCreatingIsSafe(s, creating, pending);
    case PersistEnded(pending, ended) => CasPendingIsSafe(s, pending, ended);
    case PersistActive(pending, instanceId, now) => PersistActiveIsSafe(s, pending, instanceId, now);
    case Recover(activating, now) =>
      if s.disk.journal.Some? {
        FinishIsSafe(s, s.disk.journal.value, now);
      }
    case ExistingReporter(now) =>
      if s.disk.journal.Some? {
        FinishIsSafe(s, s.disk.journal.value, now);
      }
    case InvalidateRevision(revision, reason, now) => InvalidateIsSafe(s, revision, reason, now);
    case _ =>
  }

  lemma CopiesAreWritten(s: System, request: Request)
    requires CoreInv(s) && RequestPossible(s, request)
    ensures forall c | c in LearnedCopies(s.disk, request) ::
              c in WrittenAll(s, PlanWrites(s.disk, request)).history
  {
    match request
    case Load =>
      if s.disk.journal.Some? {
        JournalInHistory(s);
      }
    case StartPairing(config, host, now, drawn) => StartIsSafe(s, config, host, now, drawn);
    case _ =>
  }

  lemma PlanIsSafe(s: System, request: Request)
    requires CoreInv(s) && RequestPossible(s, request)
    ensures SafeTail(s, PlanWrites(s.disk, request))
    ensures forall c | c in LearnedCopies(s.disk, request) ::
              c in WrittenAll(s, PlanWrites(s.disk, request)).history
  {
    PlanTailIsSafe(s, request);
    CopiesAreWritten(s, request);
  }

  // ----- Every snapshot read from a safe disk is one generation's -----

  lemma ReporterIsConsistent(s: System, binding: Binding)
    requires CoreInv(s)
    requires s.disk.binding == Some(binding)
    ensures forall snapshot | snapshot in SnapshotSet(ReporterFor(s.disk, binding)) :: SnapshotOk(s.history, snapshot)
  {
    var result := ReporterFor(s.disk, binding);
    if result.Success? && result.value.Some? {
      assert FilesOf(s.disk, s.installed.value);
      assert SnapshotOf(s.installed.value, result.value.value);
    }
  }

  lemma CurrentReporterIsConsistent(s: System)
    requires CoreInv(s)
    ensures forall snapshot | snapshot in SnapshotSet(CurrentReporter(s.disk)) :: SnapshotOk(s.history, snapshot)
  {
    if s.disk.binding.Some? {
      ReporterIsConsistent(s, s.disk.binding.value);
    }
  }

  lemma ExistingReporterIsConsistent(s: System, now: int)
    requires CoreInv(s)
    ensures var plan := ExistingReporterPlan(s.disk, now);
            forall snapshot | snapshot in SnapshotSet(plan.result) ::
              SnapshotOk(WrittenAll(s, plan.writes).history, snapshot)
  {
    var plan := ExistingReporterPlan(s.disk, now);
    if plan.writes != [] {
      PlanTailIsSafe(s, ExistingReporter(now));
      SafeTailKeepsCore(s, plan.writes);
      WrittenAllDisk(s, plan.writes);
      CurrentReporterIsConsistent(WrittenAll(s, plan.writes));
    } else {
      CurrentReporterIsConsistent(s);
      if s.disk.binding.Some? {
        ReporterIsConsistent(s, s.disk.binding.value);
      }
    }
  }

  lemma PairedReporterIsConsistent(s: System, expected: Binding)
    requires CoreInv(s)
    ensures forall snapshot | snapshot in LearnedSnapshots(s.disk, PairedReporter(expected)) :: SnapshotOk(s.history, snapshot)
  {
    if s.disk.binding.Some? {
      ReporterIsConsistent(s, s.disk.binding.value);
      assert forall snapshot | snapshot in LearnedSnapshots(s.disk, PairedReporter(expected)) ::
          snapshot in SnapshotSet(ReporterFor(s.disk, s.disk.binding.value));
    }
  }

  lemma LearnedSnapshotsAreConsistent(s: System, request: Request)
    requires CoreInv(s) && RequestPossible(s, request)
    ensures forall snapshot | snapshot in LearnedSnapshots(s.disk, request) ::
              SnapshotOk(WrittenAll(s, PlanWrites(s.disk, request)).history, snapshot)
  {
    match request
    case ExistingReporter(now) => ExistingReporterIsConsistent(s, now);
    case ActiveReporter => CurrentReporterIsConsistent(s);
    case NewerReporter(_) =>
      if s.disk.binding.Some? {
        ReporterIsConsistent(s, s.disk.binding.value);
      }
    case PairedReporter(expected) => PairedReporterIsConsistent(s, expected);
    case _ =>
  }

  // ----- Every step keeps the invariant -----

  lemma FreshSystemInv()
    ensures Inv(FRESH_SYSTEM)
  {
  }

  lemma {:induction false} SafeTailMonotone(s: System, t: System, writes: seq<Write>)
    requires SafeTail(s, writes)
    requires t.disk == s.disk && t.history == s.history && t.installed == s.installed && s.replies <= t.replies
    ensures SafeTail(t, writes)
    ensures WrittenAll(t, writes).history == WrittenAll(s, writes).history
    decreases |writes|
  {
    if writes != [] {
      if writes[0].WriteJournal? {
        JustifiedMonotone(s.replies, t.replies, writes[0].journal);
      }
      SafeTailMonotone(Written(s, writes[0]), Written(t, writes[0]), writes[1..]);
    }
  }

  lemma JustifiedMonotone(replies: set<Reply>, more: set<Reply>, journal: Journal)
    requires Justified(replies, journal) && replies <= more
    ensures Justified(more, journal)
  {
    match journal
    case Pending(_, _, _, _, _, _, _, _, _) =>
      var c :| CreatedReply(c, journal) in replies;
      assert CreatedReply(c, journal) in more;
    case Activating(_, _, _, _, _, instance, _, _, _) =>
      var p :| PollReply(p, ServerActive(instance)) in replies && p.Pending? && journal == ActivatingFrom(p, instance);
      assert PollReply(p, ServerActive(instance)) in more;
    case Denied(_, _, _, _, _) =>
      var p: Journal :| p.Pending? && EndedBy(p, journal, replies);
      assert EndedBy(p, journal, more);
    case Expired(_, _, _, _, _) =>
      var p: Journal :| p.Pending? && EndedBy(p, journal, replies);
      assert EndedBy(p, journal, more);
    case _ =>
  }

  /** Learning something new disturbs neither the files nor a transaction in progress. */
  lemma LearningKeepsInv(s: System, t: System)
    requires Inv(s)
    requires t.disk == s.disk && t.history == s.history && t.installed == s.installed
    requires s.replies <= t.replies && s.posted <= t.posted
    requires t.holder == s.holder || t.holder == None
    requires forall c | c in t.copies :: c in s.history
    requires forall c | c in t.posted :: c in s.history && c.Creating?
    requires forall r | r in t.replies :: r in s.replies || ReplyOk(t, r)
    requires forall snapshot | snapshot in t.snapshots :: SnapshotOk(s.history, snapshot)
    ensures Inv(t)
  {
    forall r | r in t.replies ensures ReplyOk(t, r) {
      if r in s.replies {
        assert ReplyOk(s, r);
      }
    }
    forall i: nat | i < |t.history| ensures Justified(t.replies, t.history[i]) {
      JustifiedMonotone(s.replies, t.replies, s.history[i]);
    }
    if t.holder.Some? {
      SafeTailMonotone(s, t, s.holder.value.remaining);
    }
  }

  lemma StepKeepsInv(s: System, event: Event)
    requires Inv(s) && Enabled(s, event)
    ensures Inv(Step(s, event))
  {
    var t := Step(s, event);
    match event
    case Begin(request) =>
      PlanIsSafe(s, request);
      LearnedSnapshotsAreConsistent(s, request);
      SafeTailMonotone(s, t, PlanWrites(s.disk, request));
      assert KnowledgeOk(t) by { KnowledgeGrows(s, t); }
    case WriteNext =>
      var remaining := s.holder.value.remaining;
      var w := Written(s, remaining[0]);
      SafeWriteKeepsCore(s, remaining[0]);
      SafeTailMonotone(w, t, remaining[1..]);
      assert KnowledgeOk(t) by { KnowledgeGrows(w, t); }
    case Finish =>
      var holder := s.holder.value;
      assert WrittenAll(s, holder.remaining) == s;
      LearningKeepsInv(s, t);
    case Abort =>
      LearningKeepsInv(s, t);
    case Post(creating) =>
      LearningKeepsInv(s, t);
    case Hear(reply) =>
      LearningKeepsInv(s, t);
  }

  lemma {:induction false} BehaviorKeepsInv(trace: seq<System>, events: seq<Event>, n: nat)
    requires Behavior(trace, events) && Inv(trace[0])
    requires n < |trace|
    ensures Inv(trace[n])
  {
    if n > 0 {
      BehaviorKeepsInv(trace, events, n - 1);
      assert events[n - 1] == events[n - 1];
      StepKeepsInv(trace[n - 1], events[n - 1]);
    }
  }
}
