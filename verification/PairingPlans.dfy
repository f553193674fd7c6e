/**
 What each locked transaction of the pairing code does to the directory: the ordered
 writes it makes and the result it returns when none of them is interrupted.
 A plan is computed from the disk the transaction sees when it takes the lock; no other
 writer can run before it releases it.
 */
module PairingPlans {
  import opened Wrappers
  import opened PairingState

  datatype Config = Config(endpoint: string, pairingEndpoint: string, replacePending: bool)

  datatype Session = Session(generation: Uuid, requestId: Uuid, activationUrl: string, expiresAt: int,
                             pollInterval: nat)

  datatype Progress =
    | InCreation(generation: Uuid, reportEndpoint: string)
    | Waiting(session: Session)
    | InForce(generation: Uuid, requestId: Uuid, instanceId: Uuid, reportEndpoint: string)
    | Refused(generation: Uuid, requestId: Uuid, activationUrl: string)
    | Lapsed(generation: Uuid, requestId: Uuid, activationUrl: string)

  datatype Start = Resume(session: Session) | Create(journal: Journal) | CheckExpired(session: Session)

  /** The locally drawn values of a new generation. */
  datatype Drawn = Drawn(generation: Uuid, bearer: string, polling: string)

  /** Token, identity and endpoint handed to a reporter, with the revision they were read under. */
  datatype Snapshot = Snapshot(revision: Revision, token: string, identity: Uuid, host: Uuid, endpoint: string)

  datatype Plan<+T> = Plan(writes: seq<Write>, result: Result<T, Error>)

  function Refuse<T>(error: Error): Plan<T> {
    Plan([], Failure(error))
  }

  function LoadJournal(disk: Disk): Result<Option<Journal>, Error> {
    if disk.journal.Some? && disk.journal.value.generation == 0 then Failure(Corrupt) else Success(disk.journal)
  }

  function LoadBinding(disk: Disk): Result<Option<Binding>, Error> {
    if disk.binding.Some? && !ValidBinding(disk.binding.value) then Failure(Corrupt) else Success(disk.binding)
  }

  function LoadExpectedBinding(disk: Disk, expected: Binding): Result<Binding, Error> {
    match LoadBinding(disk)
    case Failure(e) => Failure(e)
    case Success(found) => if found == Some(expected) then Success(expected) else Failure(Corrupt)
  }

  function SessionOf(journal: Journal): Session
    requires journal.Pending? || journal.Activating?
  {
    Session(journal.generation, journal.requestId, journal.activationUrl, journal.expiresAt, journal.pollInterval)
  }

  function ProgressOf(journal: Journal): Progress {
    match journal
    case Creating(g, _, endpoint, _, _, _) => InCreation(g, endpoint)
    case Pending(_, _, _, _, _, _, _, _, _) => Waiting(SessionOf(journal))
    case Activating(g, _, _, _, _, _, _, endpoint, _) => InCreation(g, endpoint)
    case Active(g, r, _, instance, endpoint, _) => InForce(g, r, instance, endpoint)
    case Denied(g, r, url, _, _) => Refused(g, r, url)
    case Expired(g, r, url, _, _) => Lapsed(g, r, url)
  }

  // ----- Committing an Activating journal -----

  function ActivatingFrom(pending: Journal, instanceId: Uuid): Journal
    requires pending.Pending?
  {
    Activating(pending.generation, pending.requestId, pending.activationUrl, pending.expiresAt, pending.pollInterval,
               instanceId, pending.pairingEndpoint, pending.reportEndpoint, pending.bearer)
  }

  function ActiveFrom(activating: Journal, now: int): Journal
    requires activating.Activating?
  {
    Active(activating.generation, activating.requestId, activating.activationUrl, activating.instanceId,
           activating.reportEndpoint, now)
  }

  const COMPLETED_REASON := "browser pairing completed"

  /** Active is deliberately last: any earlier stop leaves the journal Activating. */
  function CommitWrites(activating: Journal, now: int): seq<Write>
    requires activating.Activating?
  {
    [ WriteCredential(activating.bearer),
      WriteIdentity(activating.instanceId),
      WriteBinding(BindingOf(activating)),
      WriteAuth(AuthState(Authorized, COMPLETED_REASON, now)),
      WriteJournal(ActiveFrom(activating, now)) ]
  }

  function CommitPlan(activating: Journal, now: int): Plan<()> {
    if !activating.Activating? then Refuse(InternalError)
    else if !ValidBinding(BindingOf(activating)) then Refuse(UnsafeBinding)
    else if !ValidToken(activating.bearer) then Refuse(CorruptToken)
    else Plan(CommitWrites(activating, now), Success(()))
  }

  function ReplacePlan(disk: Disk, requested: Journal, now: int): Plan<()> {
    if !requested.Activating? then Refuse(InternalError)
    else match LoadJournal(disk)
      case Failure(e) => Refuse(e)
      case Success(None) => Refuse(Superseded)
      case Success(Some(current)) =>
        if current.Activating? && current.generation == requested.generation
           && current.requestId == requested.requestId
        then CommitPlan(current, now)
        else Refuse(Superseded)
  }

  function FinishPlan(disk: Disk, activating: Journal, now: int): Plan<Progress> {
    var replaced := ReplacePlan(disk, activating, now);
    match replaced.result
    case Failure(e) => Plan(replaced.writes, Failure(e))
    case Success(_) =>
      match LoadJournal(ApplyAll(disk, replaced.writes))
      case Failure(e) => Plan(replaced.writes, Failure(e))
      case Success(None) => Plan(replaced.writes, Failure(InternalError))
      case Success(Some(journal)) => Plan(replaced.writes, Success(ProgressOf(journal)))
  }

  predicate PendingIsCurrent(disk: Disk, expected: Journal)
    requires expected.Pending?
  {
    && disk.journal.Some?
    && var current := disk.journal.value;
       && current.Pending?
       && current.generation == expected.generation
       && current.requestId == expected.requestId
       && current.pairingEndpoint == expected.pairingEndpoint
       && current.reportEndpoint == expected.reportEndpoint
       && current.polling == expected.polling
  }

  /** The server confirmed a pending request: journal first, then the commit. */
  function PersistActivePlan(disk: Disk, pending: Journal, instanceId: Uuid, now: int): Plan<Progress> {
    if !pending.Pending? then Refuse(InternalError)
    else if LoadJournal(disk).Failure? then Refuse(LoadJournal(disk).error)
    else if !PendingIsCurrent(disk, pending) then Refuse(Superseded)
    else
      var activating := ActivatingFrom(pending, instanceId);
      var finish := FinishPlan(ApplyWrite(disk, WriteJournal(activating)), activating, now);
      Plan([WriteJournal(activating)] + finish.writes, finish.result)
  }

  function RecoverPlan(disk: Disk, expected: Journal, now: int): Plan<Progress> {
    if !expected.Activating? then Refuse(InternalError)
    else match LoadJournal(disk)
      case Failure(e) => Refuse(e)
      case Success(None) => Refuse(Superseded)
      case Success(Some(current)) =>
        if current.generation != expected.generation then Refuse(Superseded)
        else if current.Activating? && current.requestId == expected.requestId then FinishPlan(disk, current, now)
        else if current.Active? && current.requestId == expected.requestId then Plan([], Success(ProgressOf(current)))
        else Refuse(Superseded)
  }

  // ----- Compare and persist -----

  function CasCreatingPlan(disk: Disk, expected: Journal, next: Journal): Plan<()>
    requires expected.Creating?
  {
    match LoadJournal(disk)
    case Failure(e) => Refuse(e)
    case Success(None) => Refuse(Superseded)
    case Success(Some(current)) =>
      if && current.Creating?
         && current.generation == expected.generation
         && current.pairingEndpoint == expected.pairingEndpoint
         && current.reportEndpoint == expected.reportEndpoint
         && current.polling == expected.polling
      then Plan([WriteJournal(next)], Success(()))
      else Refuse(Superseded)
  }

  function CasPendingPlan(disk: Disk, expected: Journal, next: Journal): Plan<()>
    requires expected.Pending?
  {
    if LoadJournal(disk).Failure? then Refuse(LoadJournal(disk).error)
    else if PendingIsCurrent(disk, expected) then Plan([WriteJournal(next)], Success(()))
    else Refuse(Superseded)
  }

  // ----- Selecting or creating a request generation -----

  predicate EndpointsMatch(config: Config, journal: Journal)
    requires journal.Creating? || journal.Pending? || journal.Activating?
  {
    journal.pairingEndpoint == config.pairingEndpoint && journal.reportEndpoint == config.endpoint
  }

  function CreatingFrom(config: Config, host: Uuid, drawn: Drawn): Journal {
    Creating(drawn.generation, config.pairingEndpoint, config.endpoint, host, drawn.bearer, drawn.polling)
  }

  function CreatePlan(config: Config, host: Uuid, drawn: Drawn): Plan<Start> {
    var creating := CreatingFrom(config, host, drawn);
    Plan([WriteJournal(creating)], Success(Create(creating)))
  }

  function StartPlan(disk: Disk, config: Config, host: Uuid, now: int, drawn: Drawn): Plan<Start> {
    match LoadJournal(disk)
    case Failure(e) => Refuse(e)
    case Success(None) => CreatePlan(config, host, drawn)
    case Success(Some(journal)) =>
      match journal
      case Pending(_, _, _, expiresAt, _, _, _, _, _) =>
        if !config.replacePending && expiresAt > now && EndpointsMatch(config, journal) then
          Plan([], Success(Resume(SessionOf(journal))))
        else if !config.replacePending && expiresAt > now then
          Refuse(OtherServerPending)
        else if !config.replacePending && EndpointsMatch(config, journal) then
          Plan([], Success(CheckExpired(SessionOf(journal))))
        else
          CreatePlan(config, host, drawn)
      case Creating(_, _, _, _, _, _) =>
        if !config.replacePending && EndpointsMatch(config, journal) then Plan([], Success(Create(journal)))
        else if !config.replacePending then Refuse(OtherServerCreating)
        else CreatePlan(config, host, drawn)
      case Activating(_, _, _, _, _, _, _, _, _) =>
        var finish := FinishPlan(disk, journal, now);
        if finish.result.Failure? then Plan(finish.writes, Failure(finish.result.error))
        else if EndpointsMatch(config, journal) then Plan(finish.writes, Success(Resume(SessionOf(journal))))
        else
          var create := CreatePlan(config, host, drawn);
          Plan(finish.writes + create.writes, create.result)
      case Active(_, _, _, _, _, _) =>
        var checked := LoadExpectedBinding(disk, BindingOf(journal));
        if checked.Failure? then Refuse(checked.error) else CreatePlan(config, host, drawn)
      case Denied(_, _, _, _, _) => CreatePlan(config, host, drawn)
      case Expired(_, _, _, _, _) => CreatePlan(config, host, drawn)
  }

  // ----- Credentials and reporter snapshots -----

  /** The binding a credential may be used or invalidated under; none while a rotation is under way. */
  function CredentialBinding(disk: Disk): Result<Option<Binding>, Error> {
    match LoadJournal(disk)
    case Failure(e) => Failure(e)
    case Success(None) => Success(None)
    case Success(Some(journal)) =>
      if journal.Activating? then Success(None)
      else
        var binding := LoadBinding(disk);
        if journal.Active? && binding.Success? && binding.value != Some(BindingOf(journal)) then Failure(Corrupt)
        else binding
  }

  datatype Credential = Credential(identity: Uuid, revision: Revision, secret: string)

  function LoadCredential(disk: Disk): Result<Option<Credential>, Error> {
    if !IsAuthorized(disk) then Success(None)
    else match CredentialBinding(disk)
      case Failure(e) => Failure(e)
      case Success(None) => Failure(BindingUnavailable)
      case Success(Some(binding)) =>
        if disk.identity.None? then Failure(IdentityMissing)
        else if disk.identity.value != binding.instanceId then Failure(IdentityMismatch)
        else if disk.credential.None? then Success(None)
        else if !ValidToken(disk.credential.value) then Failure(CorruptToken)
        else Success(Some(Credential(disk.identity.value, (binding.generation, binding.requestId),
                                     disk.credential.value)))
  }

  function ReporterFor(disk: Disk, binding: Binding): Result<Option<Snapshot>, Error> {
    if disk.identity.None? then Failure(IdentityMissing)
    else if disk.identity.value != binding.instanceId then Failure(IdentityMismatch)
    else match LoadCredential(disk)
      case Failure(e) => Failure(e)
      case Success(None) => Success(None)
      case Success(Some(credential)) =>
        Success(Some(Snapshot(credential.revision, credential.secret, credential.identity, disk.identity.value,
                              binding.reportEndpoint)))
  }

  function CurrentReporter(disk: Disk): Result<Option<Snapshot>, Error> {
    if !IsAuthorized(disk) then Success(None)
    else match LoadJournal(disk)
      case Failure(e) => Failure(e)
      case Success(None) => Success(None)
      case Success(Some(journal)) =>
        if !journal.Active? then Success(None)
        else match LoadExpectedBinding(disk, BindingOf(journal))
          case Failure(e) => Failure(e)
          case Success(binding) => ReporterFor(disk, binding)
  }

  function ExistingReporterPlan(disk: Disk, now: int): Plan<Option<Snapshot>> {
    match LoadJournal(disk)
    case Failure(e) => Refuse(e)
    case Success(None) => Plan([], Success(None))
    case Success(Some(journal)) =>
      if journal.Activating? then
        var finish := FinishPlan(disk, journal, now);
        if finish.result.Failure? then Plan(finish.writes, Failure(finish.result.error))
        else Plan(finish.writes, CurrentReporter(ApplyAll(disk, finish.writes)))
      else if !IsAuthorized(disk) || journal.Active? then Plan([], Success(None))
      else match LoadBinding(disk)
        case Failure(e) => Refuse(e)
        case Success(None) => Refuse(Corrupt)
        case Success(Some(binding)) => Plan([], ReporterFor(disk, binding))
  }

  function RefreshReporter(disk: Disk, revision: Revision): Result<Option<Snapshot>, Error> {
    if !IsAuthorized(disk) then Success(None)
    else match LoadJournal(disk)
      case Failure(e) => Failure(e)
      case Success(None) => Success(None)
      case Success(Some(journal)) =>
        if journal.Activating? then Success(None)
        else match LoadBinding(disk)
          case Failure(e) => Failure(e)
          case Success(None) => Failure(Corrupt)
          case Success(Some(binding)) =>
            if journal.Active? && BindingOf(journal) != binding then Failure(Corrupt)
            else if (binding.generation, binding.requestId) == revision then Success(None)
            else ReporterFor(disk, binding)
  }

  function ActivateReporter(disk: Disk, expected: Binding): Result<Snapshot, Error> {
    if !IsAuthorized(disk) then Failure(NotAuthorized)
    else match LoadJournal(disk)
      case Failure(e) => Failure(e)
      case Success(None) => Failure(Superseded)
      case Success(Some(journal)) =>
        if !journal.Active? || BindingOf(journal) != expected then Failure(Superseded)
        else match LoadExpectedBinding(disk, BindingOf(journal))
          case Failure(e) => Failure(e)
          case Success(binding) =>
            match ReporterFor(disk, binding)
            case Failure(e) => Failure(e)
            case Success(None) => Failure(CredentialMissing)
            case Success(Some(snapshot)) => Success(snapshot)
  }

  function ActiveRevision(disk: Disk): Result<Option<Revision>, Error> {
    if !IsAuthorized(disk) then Success(None)
    else match LoadJournal(disk)
      case Failure(e) => Failure(e)
      case Success(None) => Success(None)
      case Success(Some(journal)) =>
        if !journal.Active? then Success(None)
        else match LoadExpectedBinding(disk, BindingOf(journal))
          case Failure(e) => Failure(e)
          case Success(binding) => Success(Some((binding.generation, binding.requestId)))
  }

  /** True when the invalidation was applied, false when it was superseded. */
  function InvalidatePlan(disk: Disk, revision: Revision, reason: string, now: int): Plan<bool> {
    match CredentialBinding(disk)
    case Failure(e) => Refuse(e)
    case Success(None) => Plan([], Success(false))
    case Success(Some(binding)) =>
      if (binding.generation, binding.requestId) != revision then Plan([], Success(false))
      else if disk.auth.None? then Refuse(AuthMissing)
      else Plan([WriteAuth(AuthState(ReauthorizationRequired, reason, now))], Success(true))
  }
}
