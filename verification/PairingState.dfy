/**
 The five durable files of the pairing state directory and the documents in them.

 A file is absent (`None`) or holds one parsed document. The package version field is
 a unit value in the source and is left out of every document.
 */
module PairingState {
  import opened Wrappers

  /** 0 stands for the nil UUID. */
  type Uuid = nat

  /** (generation, request id): the key of one credential revision. */
  type Revision = (Uuid, Uuid)

  /** The URL validator of the configuration module, any fixed predicate. */
  const EndpointIsSafe: string -> bool

  datatype Journal =
    | Creating(generation: Uuid, pairingEndpoint: string, reportEndpoint: string, host: Uuid,
               bearer: string, polling: string)
    | Pending(generation: Uuid, requestId: Uuid, activationUrl: string, expiresAt: int, pollInterval: nat,
              pairingEndpoint: string, reportEndpoint: string, bearer: string, polling: string)
    | Activating(generation: Uuid, requestId: Uuid, activationUrl: string, expiresAt: int, pollInterval: nat,
                 instanceId: Uuid, pairingEndpoint: string, reportEndpoint: string, bearer: string)
    | Active(generation: Uuid, requestId: Uuid, activationUrl: string, instanceId: Uuid, reportEndpoint: string,
             completedAt: int)
    | Denied(generation: Uuid, requestId: Uuid, activationUrl: string, reportEndpoint: string, completedAt: int)
    | Expired(generation: Uuid, requestId: Uuid, activationUrl: string, reportEndpoint: string, completedAt: int)

  datatype Binding = Binding(generation: Uuid, requestId: Uuid, instanceId: Uuid, reportEndpoint: string)

  datatype Authorization = Authorized | ReauthorizationRequired

  datatype AuthState = AuthState(status: Authorization, reason: string, changedAt: int)

  datatype Disk = Disk(
    identity: Option<Uuid>,
    credential: Option<string>,
    journal: Option<Journal>,
    auth: Option<AuthState>,
    binding: Option<Binding>)

  const EMPTY_DISK := Disk(None, None, None, None, None)

  /** One atomic replacement of one file. */
  datatype Write =
    | WriteIdentity(identity: Uuid)
    | WriteCredential(credential: string)
    | WriteJournal(journal: Journal)
    | WriteAuth(auth: AuthState)
    | WriteBinding(binding: Binding)

  function ApplyWrite(disk: Disk, write: Write): Disk {
    match write
    case WriteIdentity(identity) => disk.(identity := Some(identity))
    case WriteCredential(credential) => disk.(credential := Some(credential))
    case WriteJournal(journal) => disk.(journal := Some(journal))
    case WriteAuth(auth) => disk.(auth := Some(auth))
    case WriteBinding(binding) => disk.(binding := Some(binding))
  }

  function ApplyAll(disk: Disk, writes: seq<Write>): Disk
    decreases |writes|
  {
    if writes == [] then disk else ApplyAll(ApplyWrite(disk, writes[0]), writes[1..])
  }

  lemma ApplyOne(disk: Disk, write: Write)
    ensures ApplyAll(disk, [write]) == ApplyWrite(disk, write)
  {
    assert [write][1..] == [];
    assert ApplyAll(ApplyWrite(disk, write), []) == ApplyWrite(disk, write);
  }

  lemma {:induction false} ApplyAllConcat(disk: Disk, first: seq<Write>, second: seq<Write>)
    ensures ApplyAll(disk, first + second) == ApplyAll(ApplyAll(disk, first), second)
    decreases |first|
  {
    if first == [] {
      assert first + second == second;
    } else {
      assert (first + second)[1..] == first[1..] + second;
      ApplyAllConcat(ApplyWrite(disk, first[0]), first[1..], second);
    }
  }

  function BindingOf(journal: Journal): Binding
    requires journal.Activating? || journal.Active?
  {
    Binding(journal.generation, journal.requestId, journal.instanceId, journal.reportEndpoint)
  }

  predicate ValidBinding(binding: Binding) {
    && binding.generation != 0
    && binding.requestId != 0
    && binding.instanceId != 0
    && EndpointIsSafe(binding.reportEndpoint)
  }

  /** The token format: exactly 64 lower-case hexadecimal digits. */
  predicate ValidToken(token: string) {
    && |token| == 64
    && forall i | 0 <= i < |token| :: '0' <= token[i] <= '9' || 'a' <= token[i] <= 'f'
  }

  predicate IsAuthorized(disk: Disk) {
    disk.auth.Some? && disk.auth.value.status.Authorized?
  }

  datatype Error =
    | Interrupted                // the process died or the file system refused a write
    | Superseded
    | Corrupt
    | UnsafeBinding
    | CorruptToken
    | OtherServerPending
    | OtherServerCreating
    | InternalError
    | BindingUnavailable
    | IdentityMissing
    | IdentityMismatch
    | NotAuthorized
    | CredentialMissing
    | AuthMissing
}
