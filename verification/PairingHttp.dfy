/** Which server answers are trusted to say anything about a pending request. */
module PairingHttp {
  import opened Wrappers
  import opened Sorting
  import opened PairingState
  import opened PairingProtocol

  datatype Operation = CreateOperation | ActivateOperation | PollOperation

  /** A parsed error envelope; `requestId` is a well-formed `request_id` detail. */
  datatype Envelope = Envelope(code: string, retryable: bool, requestId: Option<Uuid>, received: Option<nat>,
                               supported: seq<nat>)

  /** `envelope` is the body read as an error envelope, `polled` the body read as a status document. */
  datatype Response = Response(status: nat, json: bool, envelope: Option<Envelope>, polled: Option<Polled>)

  datatype PolledStatus = IsWaiting | IsActive | IsDenied | IsExpired

  datatype Polled = Polled(status: PolledStatus, instanceId: Option<Uuid>)

  datatype HttpError = HttpError(operation: Operation, status: nat, code: Option<string>, received: Option<nat>,
                                 supported: seq<nat>, requestId: Option<Uuid>)

  const OK: nat := 200
  const BAD_REQUEST: nat := 400
  const NOT_FOUND: nat := 404
  const GONE: nat := 410
  const U16_LIMIT: nat := 0x1_0000

  const UNSUPPORTED_PROTOCOL := "unsupported_client_protocol"
  const TRANSACTION_NOT_FOUND := "pairing_transaction_not_found"
  const TRANSACTION_EXPIRED := "pairing_transaction_expired"
  const METHOD_NOT_ALLOWED := "method_not_allowed"
  const UNSUPPORTED_MEDIA := "unsupported_media_type"

  predicate FitsU16(value: nat) {
    value < U16_LIMIT
  }

  function EnsurePairingResponse(response: Response, allowed: set<nat>, operation: Operation): Result<(), HttpError> {
    if response.status in allowed then Success(())
    else
      var envelope := if response.json then response.envelope else None;
      var protocol := envelope.Some? && response.status == BAD_REQUEST
                      && envelope.value.code == UNSUPPORTED_PROTOCOL && !envelope.value.retryable;
      var received := if protocol && envelope.value.received.Some? && envelope.value.received.value < U16_LIMIT
                      then envelope.value.received else None;
      var supported := if protocol then Filter(envelope.value.supported, FitsU16) else [];
      var requestId := if envelope.Some? && !envelope.value.retryable
                          && envelope.value.code in {TRANSACTION_NOT_FOUND, TRANSACTION_EXPIRED}
                       then envelope.value.requestId else None;
      var code := if envelope.None? then None
                  else if envelope.value.code == UNSUPPORTED_PROTOCOL && received.Some? && supported != [] then
                    Some(UNSUPPORTED_PROTOCOL)
                  else if envelope.value.code == TRANSACTION_NOT_FOUND && response.status == NOT_FOUND
                          && requestId.Some? && !envelope.value.retryable then
                    Some(TRANSACTION_NOT_FOUND)
                  else if envelope.value.code == TRANSACTION_EXPIRED && response.status == GONE
                          && requestId.Some? && !envelope.value.retryable then
                    Some(TRANSACTION_EXPIRED)
                  else if envelope.value.code == METHOD_NOT_ALLOWED then Some(METHOD_NOT_ALLOWED)
                  else if envelope.value.code == UNSUPPORTED_MEDIA then Some(UNSUPPORTED_MEDIA)
                  else None;
      Failure(HttpError(operation, response.status, code, received, supported, requestId))
  }

  predicate TransactionMissing(error: HttpError) {
    && (error.operation.ActivateOperation? || error.operation.PollOperation?)
    && error.status == NOT_FOUND
    && error.code == Some(TRANSACTION_NOT_FOUND)
    && error.requestId.Some?
  }

  predicate TransactionExpired(error: HttpError) {
    && (error.operation.ActivateOperation? || error.operation.PollOperation?)
    && error.status == GONE
    && error.code == Some(TRANSACTION_EXPIRED)
    && error.requestId.Some?
  }

  predicate TransactionEndedFor(error: HttpError, expected: Uuid) {
    (TransactionMissing(error) || TransactionExpired(error)) && error.requestId == Some(expected)
  }

  /** What one poll of a pending request establishes; an error leaves the request as it is. */
  function PollVerdict(pending: Journal, response: Response): Result<Option<Verdict>, ()>
    requires pending.Pending?
  {
    match EnsurePairingResponse(response, {OK}, PollOperation)
    case Failure(error) => if TransactionEndedFor(error, pending.requestId) then Success(Some(ServerEnded)) else Failure(())
    case Success(_) =>
      if !response.json || response.polled.None? then Failure(())
      else
        var polled := response.polled.value;
        match polled.status
        case IsWaiting => if polled.instanceId.Some? then Failure(()) else Success(None)
        case IsActive => if polled.instanceId.None? then Failure(()) else Success(Some(ServerActive(polled.instanceId.value)))
        case IsDenied => if polled.instanceId.Some? then Failure(()) else Success(Some(ServerDenied))
        case IsExpired => if polled.instanceId.Some? then Failure(()) else Success(Some(ServerExpired))
  }

  /**
   A rejected poll ends a request exactly if it is a JSON, non-retryable envelope whose HTTP
   status and code agree (404 not found, 410 expired) and which names this very request.
   A proxy page, another status, another request or a retryable error never does.
   */
  lemma EndedOnlyByExactEnvelope(pending: Journal, response: Response)
    requires pending.Pending?
    ensures PollVerdict(pending, response) == Success(Some(ServerEnded)) <==>
              && response.json
              && response.envelope.Some?
              && !response.envelope.value.retryable
              && response.envelope.value.requestId == Some(pending.requestId)
              && (|| (response.status == 404 && response.envelope.value.code == "pairing_transaction_not_found")
                  || (response.status == 410 && response.envelope.value.code == "pairing_transaction_expired"))
  {
    if response.status != OK && response.json && response.envelope.Some? {
      var code := response.envelope.value.code;
      assert UNSUPPORTED_PROTOCOL[0] == 'u' && TRANSACTION_NOT_FOUND[0] == 'p' && TRANSACTION_EXPIRED[0] == 'p';
      assert METHOD_NOT_ALLOWED[0] == 'm' && UNSUPPORTED_MEDIA[0] == 'u';
      assert TRANSACTION_NOT_FOUND[20] == 'n' && TRANSACTION_EXPIRED[20] == 'e';
    }
  }

  /** The code a refusal is known by: only in an envelope whose other parts bear it out. */
  predicate KnownAs(response: Response, code: string) {
    && response.json && response.envelope.Some? && response.envelope.value.code == code
    && var e := response.envelope.value;
       if code == "unsupported_client_protocol" then
         && response.status == 400 && !e.retryable && e.received.Some? && e.received.value < 0x1_0000
         && exists i | 0 <= i < |e.supported| :: e.supported[i] < 0x1_0000
       else if code == "pairing_transaction_not_found" then response.status == 404 && !e.retryable && e.requestId.Some?
       else if code == "pairing_transaction_expired" then response.status == 410 && !e.retryable && e.requestId.Some?
       else code == "method_not_allowed" || code == "unsupported_media_type"
  }

  lemma DistinctCodes()
    ensures UNSUPPORTED_PROTOCOL != METHOD_NOT_ALLOWED && UNSUPPORTED_PROTOCOL != UNSUPPORTED_MEDIA
    ensures UNSUPPORTED_PROTOCOL != TRANSACTION_NOT_FOUND && UNSUPPORTED_PROTOCOL != TRANSACTION_EXPIRED
    ensures TRANSACTION_NOT_FOUND != TRANSACTION_EXPIRED && METHOD_NOT_ALLOWED != UNSUPPORTED_MEDIA
    ensures TRANSACTION_NOT_FOUND !in {METHOD_NOT_ALLOWED, UNSUPPORTED_MEDIA}
    ensures TRANSACTION_EXPIRED !in {METHOD_NOT_ALLOWED, UNSUPPORTED_MEDIA}
  {
    assert UNSUPPORTED_PROTOCOL[0] == 'u' && TRANSACTION_NOT_FOUND[0] == 'p' && TRANSACTION_EXPIRED[0] == 'p';
    assert METHOD_NOT_ALLOWED[0] == 'm' && UNSUPPORTED_MEDIA[0] == 'u';
    assert UNSUPPORTED_PROTOCOL[12] == 'c' && UNSUPPORTED_MEDIA[12] == 'm';
    assert TRANSACTION_NOT_FOUND[20] == 'n' && TRANSACTION_EXPIRED[20] == 'e';
  }

  lemma SupportedExactly(supported: seq<nat>) returns (at: seq<nat>)
    ensures Picks(Filter(supported, FitsU16), supported, FitsU16, at)
    ensures Filter(supported, FitsU16) != [] <==> exists i | 0 <= i < |supported| :: supported[i] < 0x1_0000
  {
    at := FilterPicks(supported, FitsU16);
    if i :| 0 <= i < |supported| && supported[i] < 0x1_0000 {
      assert FitsU16(supported[i]) && i in at;
    }
    if Filter(supported, FitsU16) != [] {
      assert FitsU16(supported[at[0]]);
    }
  }

  lemma CodeExactly(response: Response, allowed: set<nat>, operation: Operation, code: string)
    requires response.status !in allowed
    ensures EnsurePairingResponse(response, allowed, operation).error.code == Some(code) <==> KnownAs(response, code)
  {
    if response.json && response.envelope.Some? && response.envelope.value.code == code {
      DistinctCodes();
      if code == UNSUPPORTED_PROTOCOL {
        var at := SupportedExactly(response.envelope.value.supported);
      } else if code == TRANSACTION_NOT_FOUND {
      } else if code == TRANSACTION_EXPIRED {
      } else if code == METHOD_NOT_ALLOWED {
      } else if code == UNSUPPORTED_MEDIA {
      }
    }
  }

  /** What a caller learns from a refusal: its status, the code it is known by, and what such a refusal tells. */
  lemma RefusalExactly(response: Response, allowed: set<nat>, operation: Operation)
    requires response.status !in allowed
    ensures var refused := EnsurePairingResponse(response, allowed, operation);
            && refused.Failure? && refused.error.operation == operation && refused.error.status == response.status
            && (forall code :: refused.error.code == Some(code) <==> KnownAs(response, code))
            && (KnownAs(response, "unsupported_client_protocol") ==>
                  && refused.error.received == response.envelope.value.received
                  && exists at :: Picks(refused.error.supported, response.envelope.value.supported, FitsU16, at))
            && (KnownAs(response, "pairing_transaction_not_found") || KnownAs(response, "pairing_transaction_expired") ==>
                  refused.error.requestId == response.envelope.value.requestId)
  {
    var refused := EnsurePairingResponse(response, allowed, operation);
    forall code ensures refused.error.code == Some(code) <==> KnownAs(response, code) {
      CodeExactly(response, allowed, operation, code);
    }
    if response.json && response.envelope.Some? {
      var at := SupportedExactly(response.envelope.value.supported);
    }
  }

  predicate Says(response: Response, status: PolledStatus, instanceId: Option<Uuid>) {
    response.status == 200 && response.json && response.polled == Some(Polled(status, instanceId))
  }

  /** Every other verdict is what a well-formed status document says: an instance exactly with Active. */
  lemma VerdictExactly(pending: Journal, response: Response)
    requires pending.Pending?
    ensures forall instanceId ::
              PollVerdict(pending, response) == Success(Some(ServerActive(instanceId))) <==>
                Says(response, IsActive, Some(instanceId))
    ensures PollVerdict(pending, response) == Success(Some(ServerDenied)) <==> Says(response, IsDenied, None)
    ensures PollVerdict(pending, response) == Success(Some(ServerExpired)) <==> Says(response, IsExpired, None)
    ensures PollVerdict(pending, response) == Success(None) <==> Says(response, IsWaiting, None)
  {
    if response.status == OK && response.json && response.polled.Some? {
      assert response.polled == Some(Polled(response.polled.value.status, response.polled.value.instanceId));
    }
  }
}
