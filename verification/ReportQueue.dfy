/**
 The durable report queue: records keep the exact bytes they were enqueued with, leave it only by
 acknowledgement or quarantine, and are acknowledged only after the server named them.
 */
module ReportQueue {
  import opened Wrappers
  import opened Sorting
  import opened ReportModel
  import opened ReportContract
  import opened ReportNormal
  import opened ReportFit
  import opened ReportFixedPoint
  import opened ClientReports

  const HOST_REPORT_CONTRACT := "xsos.client-report.current"

  datatype Record = Record(id: nat, contract: string, payload: seq<Symbol>)

  datatype PendingReport = PendingReport(recordId: nat, report: Report, body: seq<Symbol>)

  /** The report contract as the queue uses it: encoding for one clock and time policy, and reading back. */
  datatype Wire = Wire(encode: (Report, Time, bool) -> Result<(Report, seq<Symbol>), EncodeError>,
                       parse: seq<Symbol> -> Option<Report>, schemaOf: seq<Symbol> -> Option<nat>)

  function WireOf(codec: Codec): Wire {
    Wire((report, now, clampFuture) => Encode(codec, report, now, clampFuture), codec.parse, codec.schemaOf)
  }

  /** Without the clamp the clock plays no part. */
  ghost predicate ClockFree(wire: Wire) {
    forall report, now, later :: wire.encode(report, now, false) == wire.encode(report, later, false)
  }

  ghost predicate BytesFit(wire: Wire) {
    forall report, now, clampFuture ::
      wire.encode(report, now, clampFuture).Success? ==>
        |wire.encode(report, now, clampFuture).value.1| <= CLIENT_REPORT_MAX_BODY_BYTES
  }

  // ----- Reading -----

  /** The report of a record of this contract and schema that is a fixed point of bounding. */
  function Deliverable(wire: Wire, record: Record): Option<Report> {
    if record.contract != HOST_REPORT_CONTRACT then None
    else if wire.schemaOf(record.payload).Some? && wire.schemaOf(record.payload).value != CLIENT_REPORT_SCHEMA_VERSION
    then None
    else
      match wire.parse(record.payload)
      case None => None
      case Some(report) =>
        var canonical := wire.encode(report, 0, false);
        if canonical.Success? && canonical.value.0 == report then Some(report) else None
  }

  /** A record can be read back exactly if it is of this contract, of no other schema, and already canonical. */
  lemma DeliverableExactly(wire: Wire, record: Record, report: Report)
    ensures Deliverable(wire, record) == Some(report) <==>
              && record.contract == "xsos.client-report.current"
              && wire.schemaOf(record.payload) in {None, Some(CLIENT_REPORT_SCHEMA_VERSION)}
              && wire.parse(record.payload) == Some(report)
              && wire.encode(report, 0, false).Success? && wire.encode(report, 0, false).value.0 == report
  {
  }

  /** The number of undeliverable records before the first deliverable one. */
  function Unreadable(wire: Wire, records: seq<Record>): (n: nat)
    ensures n <= |records|
    ensures forall i | 0 <= i < n :: Deliverable(wire, records[i]).None?
    ensures n < |records| ==> Deliverable(wire, records[n]).Some?
  {
    if records == [] || Deliverable(wire, records[0]).Some? then 0 else 1 + Unreadable(wire, records[1..])
  }

  datatype Queue = Queue(pending: seq<Record>, quarantined: seq<Record>, acknowledged: seq<Record>, nextId: nat)

  function AfterRead(wire: Wire, q: Queue): Queue {
    var n := Unreadable(wire, q.pending);
    q.(pending := q.pending[n..], quarantined := q.quarantined + q.pending[..n])
  }

  function Head(wire: Wire, q: Queue): Option<PendingReport> {
    if q.pending == [] || Deliverable(wire, q.pending[0]).None? then None
    else Some(PendingReport(q.pending[0].id, Deliverable(wire, q.pending[0]).value, q.pending[0].payload))
  }

  function AfterEnqueue(wire: Wire, q: Queue, report: Report, now: Time, room: bool): Queue {
    var encoded := wire.encode(report, now, true);
    if encoded.Failure? || !room then q
    else q.(pending := q.pending + [Record(q.nextId, HOST_REPORT_CONTRACT, encoded.value.1)], nextId := q.nextId + 1)
  }

  // ----- Sending -----

  datatype Envelope = Envelope(code: string, retryable: bool)

  datatype Ack = Ack(hostId: string, reportId: string)

  /** What came back: its status, whether it was declared JSON, and what its body parses to. */
  datatype Reply = NoResponse | Response(status: nat, json: bool, ack: Option<Ack>, envelope: Option<Envelope>)

  datatype SendError = WrongIdentity | Permanent | Unauthorized | UnsupportedProtocol | Transient | FutureTimestamp

  predicate IsSuccess(status: nat) {
    200 <= status < 300
  }

  /** A rejection counts only in the server's own envelope. */
  function ClassifyResponse(status: nat, json: bool, envelope: Option<Envelope>): Result<(), SendError> {
    if IsSuccess(status) then Success(())
    else
      var e := if json then envelope else None;
      if e.None? then Failure(SendError.Transient)
      else if status == 400 then
        if e.value.code == "unsupported_client_protocol" && !e.value.retryable then Failure(UnsupportedProtocol)
        else if e.value.code == "bad_request" && !e.value.retryable then Failure(Permanent)
        else if e.value.code == "report_future_timestamp" && e.value.retryable then Failure(FutureTimestamp)
        else Failure(SendError.Transient)
      else if status == 409 then
        if e.value.code == "conflict" && !e.value.retryable then Failure(Permanent) else Failure(SendError.Transient)
      else if status == 413 then
        if e.value.code == "payload_too_large" && !e.value.retryable then Failure(Permanent) else Failure(SendError.Transient)
      else if status == 401 then
        if e.value.code == "unauthorized" && !e.value.retryable then Failure(Unauthorized) else Failure(SendError.Transient)
      else if status == 403 then
        if e.value.code == "client_host_mismatch" && !e.value.retryable then Failure(Permanent) else Failure(SendError.Transient)
      else Failure(SendError.Transient)
  }

  function ValidateAck(reply: Reply, report: Report): Result<(), SendError>
    requires reply.Response?
  {
    if reply.status != 202 then
      if IsSuccess(reply.status) then Failure(SendError.Transient)
      else ClassifyResponse(reply.status, reply.json, reply.envelope)
    else if !reply.json then Failure(SendError.Transient)
    else if reply.ack.None? then Failure(SendError.Transient)
    else if reply.ack.value != Ack(report.host.id, report.reportId) then Failure(SendError.Transient)
    else Success(())
  }

  /** The bytes for one attempt: the queued ones, once they are checked against the report read from them. */
  function PrepareBody(wire: Wire, report: Report, queued: Option<seq<Symbol>>, now: Time)
    : Result<(Report, seq<Symbol>), SendError>
  {
    if queued.Some? then
      if |queued.value| > CLIENT_REPORT_MAX_BODY_BYTES then Failure(Permanent)
      else if wire.parse(queued.value) != Some(report) then Failure(Permanent)
      else
        var canonical := wire.encode(report, now, false);
        if canonical.Failure? || canonical.value.0 != report then Failure(Permanent)
        else Success((report, queued.value))
    else
      var encoded := wire.encode(report, now, true);
      if encoded.Failure? then Failure(Permanent) else Success(encoded.value)
  }

  function Send(wire: Wire, identity: string, report: Report, queued: Option<seq<Symbol>>, now: Time, reply: Reply)
    : Result<(), SendError>
  {
    var prepared := PrepareBody(wire, report, queued, now);
    if prepared.Failure? then Failure(prepared.error)
    else if prepared.value.0.host.id != identity then Failure(WrongIdentity)
    else if reply.NoResponse? then Failure(SendError.Transient)
    else ValidateAck(reply, prepared.value.0)
  }

  /** The server accepted this very record for this very host. */
  predicate AcceptedBy(wire: Wire, record: Record, identity: string, reply: Reply) {
    && Deliverable(wire, record).Some?
    && var report := Deliverable(wire, record).value;
       && report.host.id == identity && reply.Response?
       && reply == Response(202, true, Some(Ack(identity, report.reportId)), reply.envelope)
  }

  /** A queued body goes out unchanged or is given up for good; a fresh report goes out as it is encoded. */
  lemma PreparedExactly(wire: Wire, report: Report, body: seq<Symbol>, now: Time)
    ensures PrepareBody(wire, report, Some(body), now) ==
              if && |body| <= CLIENT_REPORT_MAX_BODY_BYTES && wire.parse(body) == Some(report)
                 && wire.encode(report, now, false).Success? && wire.encode(report, now, false).value.0 == report
              then Success((report, body)) else Failure(Permanent)
    ensures PrepareBody(wire, report, None, now) ==
              match wire.encode(report, now, true)
              case Success(encoded) => Success(encoded)
              case Failure(_) => Failure(Permanent)
  {
  }

  /** Whatever the clock does, a readable record is sent with exactly its bytes, and succeeds only if accepted. */
  lemma SentVerbatim(wire: Wire, record: Record, identity: string, now: Time, reply: Reply)
    requires ClockFree(wire)
    requires Deliverable(wire, record).Some? && |record.payload| <= CLIENT_REPORT_MAX_BODY_BYTES
    ensures var report := Deliverable(wire, record).value;
            && PrepareBody(wire, report, Some(record.payload), now) == Success((report, record.payload))
            && (reply.Response? ==>
                  (Send(wire, identity, report, Some(record.payload), now, reply).Success?
                   <==> AcceptedBy(wire, record, identity, reply)))
            && (reply.NoResponse? ==> Send(wire, identity, report, Some(record.payload), now, reply).Failure?)
  {
    var report := Deliverable(wire, record).value;
    assert wire.encode(report, now, false) == wire.encode(report, 0, false);
    if reply.Response? && reply.status == 202 && reply.json && reply.ack == Some(Ack(identity, report.reportId)) {
      assert reply == Response(202, true, Some(Ack(identity, report.reportId)), reply.envelope);
    }
  }

  /** A record is given up for good only on the server's own non-retryable verdict about that record. */
  lemma GivenUpExactly(status: nat, json: bool, envelope: Option<Envelope>)
    ensures ClassifyResponse(status, json, envelope) == Failure(Permanent) <==>
              && json && envelope.Some? && !envelope.value.retryable
              && (status, envelope.value.code) in
                   {(400, "bad_request"), (409, "conflict"), (413, "payload_too_large"), (403, "client_host_mismatch")}
    ensures ClassifyResponse(status, json, envelope) == Failure(Unauthorized) <==>
              json && status == 401 && envelope == Some(Envelope("unauthorized", false))
    ensures ClassifyResponse(status, json, envelope) == Failure(UnsupportedProtocol) <==>
              json && status == 400 && envelope == Some(Envelope("unsupported_client_protocol", false))
    ensures ClassifyResponse(status, json, envelope) == Failure(FutureTimestamp) <==>
              json && status == 400 && envelope == Some(Envelope("report_future_timestamp", true))
    ensures ClassifyResponse(status, json, envelope).Success? <==> 200 <= status < 300
    ensures ClassifyResponse(status, json, envelope) != Failure(WrongIdentity)
  {
    if json && envelope.Some? {
      assert envelope == Some(Envelope(envelope.value.code, envelope.value.retryable));
    }
  }

  /** Why a readable record is not delivered: another host's report, no accepted reply, or the server's verdict. */
  lemma UndeliveredExactly(wire: Wire, record: Record, identity: string, now: Time, reply: Reply)
    requires ClockFree(wire)
    requires Deliverable(wire, record).Some? && |record.payload| <= CLIENT_REPORT_MAX_BODY_BYTES
    ensures var report := Deliverable(wire, record).value;
            var sent := Send(wire, identity, report, Some(record.payload), now, reply);
            && (sent == Failure(WrongIdentity) <==> report.host.id != identity)
            && (report.host.id == identity && reply.Response? && !(200 <= reply.status < 300) ==>
                  sent == ClassifyResponse(reply.status, reply.json, reply.envelope))
            && (report.host.id == identity && (reply.NoResponse? || 200 <= reply.status < 300) ==>
                  sent.Success? || sent == Failure(SendError.Transient))
  {
    var report := Deliverable(wire, record).value;
    assert wire.encode(report, now, false) == wire.encode(report, 0, false);
    if reply.Response? {
      GivenUpExactly(reply.status, reply.json, reply.envelope);
    }
  }

  // ----- Runs -----

  datatype Event =
    | Enqueue(report: Report, now: Time, room: bool)
    | ReadOldest
    | Deliver(identity: string, now: Time, reply: Reply)

  function AfterDelivery(wire: Wire, q: Queue, identity: string, now: Time, reply: Reply): Queue {
    var r := AfterRead(wire, q);
    var head := Head(wire, r);
    if head.None? then r
    else if Send(wire, identity, head.value.report, Some(head.value.body), now, reply).Failure? then r
    else r.(pending := r.pending[1..], acknowledged := r.acknowledged + [r.pending[0]])
  }

  function Step(wire: Wire, q: Queue, e: Event): Queue {
    match e
    case Enqueue(report, now, room) => AfterEnqueue(wire, q, report, now, room)
    case ReadOldest => AfterRead(wire, q)
    case Deliver(identity, now, reply) => AfterDelivery(wire, q, identity, now, reply)
  }

  function Run(wire: Wire, q: Queue, events: seq<Event>): Queue {
    if events == [] then q else Step(wire, Run(wire, q, events[..|events| - 1]), events[|events| - 1])
  }

  /** The event stores a report: it can be encoded and there is room for its bytes. */
  predicate Stores(wire: Wire, e: Event) {
    e.Enqueue? && e.room && wire.encode(e.report, e.now, true).Success?
  }

  /** The record an event stores, if any, with exactly the encoded bytes. */
  function StoredBy(wire: Wire, id: nat, e: Event): seq<Record> {
    if Stores(wire, e) then [Record(id, HOST_REPORT_CONTRACT, wire.encode(e.report, e.now, true).value.1)] else []
  }

  /** One record per event that stores a report, in order, numbered from `id`. */
  function Stored(wire: Wire, id: nat, events: seq<Event>): seq<Record> {
    if events == [] then []
    else
      var rest := Stored(wire, id, events[..|events| - 1]);
      rest + StoredBy(wire, id + |rest|, events[|events| - 1])
  }

  function Holdings(q: Queue): multiset<Record> {
    multiset(q.pending) + multiset(q.quarantined) + multiset(q.acknowledged)
  }

  predicate SizesOk(q: Queue) {
    forall r | r in q.pending :: |r.payload| <= CLIENT_REPORT_MAX_BODY_BYTES
  }

  lemma ReadMoves(wire: Wire, q: Queue)
    ensures Holdings(AfterRead(wire, q)) == Holdings(q)
    ensures SizesOk(q) ==> SizesOk(AfterRead(wire, q))
    ensures AfterRead(wire, q).acknowledged == q.acknowledged
  {
    var n := Unreadable(wire, q.pending);
    assert q.pending == q.pending[..n] + q.pending[n..];
  }

  lemma EnqueueAdds(wire: Wire, q: Queue, e: Event)
    requires e.Enqueue?
    ensures var s, stored := Step(wire, q, e), StoredBy(wire, q.nextId, e);
            && s.pending == q.pending + stored && s.nextId == q.nextId + |stored|
            && s.quarantined == q.quarantined && s.acknowledged == q.acknowledged
            && (BytesFit(wire) ==> forall r | r in stored :: |r.payload| <= CLIENT_REPORT_MAX_BODY_BYTES)
  {
    assert q.pending + [] == q.pending;
  }

  lemma DeliveryHolds(wire: Wire, q: Queue, identity: string, now: Time, reply: Reply)
    ensures var s := AfterDelivery(wire, q, identity, now, reply);
            Holdings(s) == Holdings(q) && s.nextId == q.nextId && (SizesOk(q) ==> SizesOk(s))
  {
    var r, s := AfterRead(wire, q), AfterDelivery(wire, q, identity, now, reply);
    ReadMoves(wire, q);
    if s != r {
      assert r.pending == [r.pending[0]] + r.pending[1..];
    }
  }

  lemma DeliveryMoves(wire: Wire, q: Queue, identity: string, now: Time, reply: Reply)
    requires ClockFree(wire) && SizesOk(q)
    ensures var s := AfterDelivery(wire, q, identity, now, reply);
            && s.quarantined == AfterRead(wire, q).quarantined
            && (s.acknowledged == q.acknowledged
                || (exists r :: s.acknowledged == q.acknowledged + [r] && AcceptedBy(wire, r, identity, reply)))
  {
    var r := AfterRead(wire, q);
    ReadMoves(wire, q);
    var s := AfterDelivery(wire, q, identity, now, reply);
    if s != r {
      SentVerbatim(wire, r.pending[0], identity, now, reply);
      assert s.acknowledged == q.acknowledged + [r.pending[0]];
      assert AcceptedBy(wire, r.pending[0], identity, reply);
    }
  }

  lemma StepConserves(wire: Wire, q: Queue, e: Event)
    ensures var s, stored := Step(wire, q, e), StoredBy(wire, q.nextId, e);
            Holdings(s) == Holdings(q) + multiset(stored) && s.nextId == q.nextId + |stored|
    ensures BytesFit(wire) && SizesOk(q) ==> SizesOk(Step(wire, q, e))
  {
    match e
    case Enqueue(_, _, _) => EnqueueAdds(wire, q, e);
    case ReadOldest => ReadMoves(wire, q);
    case Deliver(identity, now, reply) => DeliveryHolds(wire, q, identity, now, reply);
  }

  /** What a run stores, numbered as the queue numbers it. */
  function Numbered(wire: Wire, q: Queue, events: seq<Event>): seq<Record> {
    if events == [] then []
    else
      var rest := events[..|events| - 1];
      Numbered(wire, q, rest) + StoredBy(wire, Run(wire, q, rest).nextId, events[|events| - 1])
  }

  lemma StepNumbers(wire: Wire, q: Queue, e: Event)
    ensures Step(wire, q, e).nextId == q.nextId + if Stores(wire, e) then 1 else 0
  {
  }

  lemma {:induction false} RunNumbers(wire: Wire, q: Queue, events: seq<Event>)
    ensures Run(wire, q, events).nextId == q.nextId + |Stored(wire, q.nextId, events)|
  {
    if events != [] {
      RunNumbers(wire, q, events[..|events| - 1]);
      StepNumbers(wire, Run(wire, q, events[..|events| - 1]), events[|events| - 1]);
    }
  }

  lemma {:induction false} NumberedInOrder(wire: Wire, q: Queue, events: seq<Event>)
    ensures Numbered(wire, q, events) == Stored(wire, q.nextId, events)
  {
    if events != [] {
      NumberedInOrder(wire, q, events[..|events| - 1]);
      RunNumbers(wire, q, events[..|events| - 1]);
    }
  }

  lemma {:induction false} RunHolds(wire: Wire, q: Queue, events: seq<Event>)
    ensures Holdings(Run(wire, q, events)) == Holdings(q) + multiset(Numbered(wire, q, events))
  {
    if events != [] {
      RunHolds(wire, q, events[..|events| - 1]);
      StepConserves(wire, Run(wire, q, events[..|events| - 1]), events[|events| - 1]);
    }
  }

  /**
   Over every run: what is pending, quarantined or acknowledged is what was there at first and one record for each
   event that stored a report, with the bytes of that report, each exactly once.
   */
  lemma RunConserves(wire: Wire, q: Queue, events: seq<Event>)
    ensures Holdings(Run(wire, q, events)) == Holdings(q) + multiset(Stored(wire, q.nextId, events))
    ensures Run(wire, q, events).nextId == q.nextId + |Stored(wire, q.nextId, events)|
  {
    RunHolds(wire, q, events);
    RunNumbers(wire, q, events);
    NumberedInOrder(wire, q, events);
  }

  lemma {:induction false} RunSizes(wire: Wire, q: Queue, events: seq<Event>)
    requires BytesFit(wire) && SizesOk(q)
    ensures SizesOk(Run(wire, q, events))
  {
    if events != [] {
      RunSizes(wire, q, events[..|events| - 1]);
      StepConserves(wire, Run(wire, q, events[..|events| - 1]), events[|events| - 1]);
    }
  }

  /** One step acknowledges nothing, or one record that the server accepted. */
  lemma StepAcknowledges(wire: Wire, q: Queue, e: Event)
    requires ClockFree(wire) && SizesOk(q)
    ensures var s := Step(wire, q, e);
            || s.acknowledged == q.acknowledged
            || (e.Deliver? && exists r :: s.acknowledged == q.acknowledged + [r] && AcceptedBy(wire, r, e.identity, e.reply))
  {
    match e
    case Enqueue(_, _, _) => EnqueueAdds(wire, q, e);
    case ReadOldest => ReadMoves(wire, q);
    case Deliver(identity, now, reply) => DeliveryMoves(wire, q, identity, now, reply);
  }

  ghost predicate AcceptedDuring(wire: Wire, record: Record, events: seq<Event>) {
    exists k | 0 <= k < |events| :: events[k].Deliver? && AcceptedBy(wire, record, events[k].identity, events[k].reply)
  }

  lemma AcceptedEarlier(wire: Wire, record: Record, events: seq<Event>)
    requires events != [] && AcceptedDuring(wire, record, events[..|events| - 1])
    ensures AcceptedDuring(wire, record, events)
  {
    var rest := events[..|events| - 1];
    var k :| 0 <= k < |rest| && rest[k].Deliver? && AcceptedBy(wire, record, rest[k].identity, rest[k].reply);
    assert events[k] == rest[k];
  }

  /** Over every run: a record is acknowledged only by a delivery the server accepted for that record and host. */
  lemma {:induction false} RunAcknowledgesAccepted(wire: Wire, q: Queue, events: seq<Event>)
    requires ClockFree(wire) && BytesFit(wire) && SizesOk(q)
    ensures q.acknowledged <= Run(wire, q, events).acknowledged
    ensures forall i | |q.acknowledged| <= i < |Run(wire, q, events).acknowledged| ::
              AcceptedDuring(wire, Run(wire, q, events).acknowledged[i], events)
  {
    if events != [] {
      var rest, e := events[..|events| - 1], events[|events| - 1];
      var before, after := Run(wire, q, rest), Run(wire, q, events);
      RunAcknowledgesAccepted(wire, q, rest);
      RunSizes(wire, q, rest);
      StepAcknowledges(wire, before, e);
      forall i | |q.acknowledged| <= i < |after.acknowledged| ensures AcceptedDuring(wire, after.acknowledged[i], events) {
        if i < |before.acknowledged| {
          AcceptedEarlier(wire, before.acknowledged[i], events);
        } else {
          assert AcceptedBy(wire, after.acknowledged[i], e.identity, e.reply) && events[|events| - 1] == e;
        }
      }
    }
  }

  // ----- What is enqueued stays deliverable -----

  lemma WireOfIsSound(codec: Codec)
    ensures ClockFree(WireOf(codec)) && BytesFit(WireOf(codec))
  {
    forall report: Report, now, later
      ensures Encode(codec, report, now, false) == Encode(codec, report, later, false)
    {
      ClockIsIrrelevant(codec, report, now, later);
    }
    forall report, now, clampFuture | Encode(codec, report, now, clampFuture).Success?
      ensures |Encode(codec, report, now, clampFuture).value.1| <= CLIENT_REPORT_MAX_BODY_BYTES
    {
    }
  }

  lemma ClockIsIrrelevant(codec: Codec, report: Report, now: Time, later: Time)
    ensures Encode(codec, report, now, false) == Encode(codec, report, later, false)
  {
    assert Normalized(report, now, false) == Normalized(report, later, false);
  }

  lemma EncodedReport(codec: Codec, report: Report, now: Time, clampFuture: bool)
    ensures Encode(codec, report, now, clampFuture).Success? <==>
              report.schemaVersion == CLIENT_REPORT_SCHEMA_VERSION && Fits(codec, Bounded(codec, report, now, clampFuture).0)
    ensures Encode(codec, report, now, clampFuture).Success? ==>
              var b := Bounded(codec, report, now, clampFuture).0;
              Encode(codec, report, now, clampFuture).value == (b, codec.report(b))
  {
  }

  /** The report a record of this contract is read back as, in terms of bounding. */
  lemma DeliverableReport(codec: Codec, id: nat, b: Report)
    requires Lawful(codec) && b.schemaVersion == CLIENT_REPORT_SCHEMA_VERSION && Fits(codec, b)
    ensures Deliverable(WireOf(codec), Record(id, HOST_REPORT_CONTRACT, codec.report(b))) ==
              if Bounded(codec, b, 0, false).0 == b then Some(b) else None
  {
    EncodedReport(codec, b, 0, false);
    var record := Record(id, HOST_REPORT_CONTRACT, codec.report(b));
    assert codec.parse(record.payload) == Some(b) && codec.schemaOf(record.payload) == Some(b.schemaVersion);
  }

  /**
   An enqueued record is readable forever, if and only if its marker was not added beside an entry with
   its key; the raw report alone can rule that out before it is enqueued.
   */
  lemma EnqueuedIsDeliverable(codec: Codec, id: nat, report: Report, now: Time)
    requires Lawful(codec) && Encode(codec, report, now, true).Success?
    ensures var (bounded, bytes) := Encode(codec, report, now, true).value;
            Deliverable(WireOf(codec), Record(id, HOST_REPORT_CONTRACT, bytes)) ==
              if MarkerDuplicated(report, |bounded.capabilities|) then None else Some(bounded)
    ensures var (bounded, bytes) := Encode(codec, report, now, true).value;
            !MarkerDuplicated(report, Retained(codec, report)) ==>
              Deliverable(WireOf(codec), Record(id, HOST_REPORT_CONTRACT, bytes)) == Some(bounded)
  {
    var b := Bounded(codec, report, now, true).0;
    EncodedReport(codec, report, now, true);
    BoundedCut(codec, report, now, true);
    LaterIsSettled(codec, report, now, true, 0, false);
    FixedPoint(codec, report, now, true, 0, false);
    DuplicatedWhenRetained(codec, report, now, true);
    DeliverableReport(codec, id, b);
  }

  /** Whatever this contract encodes for these reports is read back. */
  ghost predicate ReadsBack(wire: Wire, events: seq<Event>) {
    forall k, id | 0 <= k < |events| && events[k].Enqueue? && wire.encode(events[k].report, events[k].now, true).Success? ::
      Deliverable(wire, Record(id, HOST_REPORT_CONTRACT, wire.encode(events[k].report, events[k].now, true).value.1)).Some?
  }

  predicate NothingHiddenIn(events: seq<Event>) {
    forall k | 0 <= k < |events| && events[k].Enqueue? :: NoHiddenMarker(events[k].report)
  }

  lemma UnhiddenReadsBack(codec: Codec, events: seq<Event>)
    requires Lawful(codec) && NothingHiddenIn(events)
    ensures ReadsBack(WireOf(codec), events)
  {
    forall k, id: nat | 0 <= k < |events| && events[k].Enqueue?
                        && Encode(codec, events[k].report, events[k].now, true).Success?
      ensures Deliverable(WireOf(codec), Record(id, HOST_REPORT_CONTRACT,
                                                Encode(codec, events[k].report, events[k].now, true).value.1)).Some?
    {
      var report := events[k].report;
      EnqueuedIsDeliverable(codec, id, report, events[k].now);
      var bounded := Encode(codec, report, events[k].now, true).value.0;
      NothingHidden(report.capabilities, Map(report.capabilities, NormCapability), |bounded.capabilities|);
    }
  }

  predicate AllReadable(wire: Wire, records: seq<Record>) {
    forall i | 0 <= i < |records| :: Deliverable(wire, records[i]).Some?
  }

  lemma {:induction false} QuarantinesNothing(wire: Wire, q: Queue, events: seq<Event>)
    requires ReadsBack(wire, events) && AllReadable(wire, q.pending)
    ensures Run(wire, q, events).quarantined == q.quarantined
    ensures AllReadable(wire, Run(wire, q, events).pending)
  {
    if events != [] {
      var rest, e := events[..|events| - 1], events[|events| - 1];
      assert forall k | 0 <= k < |rest| :: rest[k] == events[k];
      QuarantinesNothing(wire, q, rest);
      var before := Run(wire, q, rest);
      if e.Enqueue? {
        assert events[|events| - 1].Enqueue?;
      } else {
        assert Unreadable(wire, before.pending) == 0;
        assert AfterRead(wire, before) == before;
      }
    }
  }

  /** Over every run that starts with readable records and enqueues no hidden marker, nothing is ever quarantined. */
  lemma RunQuarantinesNothing(codec: Codec, q: Queue, events: seq<Event>)
    requires Lawful(codec) && NothingHiddenIn(events) && AllReadable(WireOf(codec), q.pending)
    ensures Run(WireOf(codec), q, events).quarantined == q.quarantined
  {
    UnhiddenReadsBack(codec, events);
    QuarantinesNothing(WireOf(codec), q, events);
  }

  // ----- The queue and the drain loop -----

  /** The report of a record, if it is one that can be delivered. */
  method ReadRecord(wire: Wire, record: Record) returns (report: Option<Report>)
    ensures report == Deliverable(wire, record)
  {
    if record.contract != HOST_REPORT_CONTRACT {
      return None;
    }
    var schema := wire.schemaOf(record.payload);
    if schema.Some? && schema.value != CLIENT_REPORT_SCHEMA_VERSION {
      return None;
    }
    var parsed := wire.parse(record.payload);
    if parsed.Some? {
      var canonical := wire.encode(parsed.value, 0, false);
      if canonical.Success? && canonical.value.0 == parsed.value {
        return parsed;
      }
    }
    return None;
  }

  datatype Drained = Emptied | Unconfirmed(error: SendError) | TimedOut

  class Spool {
    var pending: seq<Record>
    var quarantined: seq<Record>
    var acknowledged: seq<Record>
    var nextId: nat

    function Value(): Queue
      reads this
    {
      Queue(pending, quarantined, acknowledged, nextId)
    }

    /** Durable before it is reported as accepted; a full store refuses without a trace. */
    method Enqueue(wire: Wire, report: Report, now: Time, room: bool) returns (accepted: bool)
      modifies this
      ensures Value() == AfterEnqueue(wire, old(Value()), report, now, room)
      ensures accepted <==> wire.encode(report, now, true).Success? && room
      ensures accepted ==>
                && pending == old(pending) + [Record(old(nextId), HOST_REPORT_CONTRACT, wire.encode(report, now, true).value.1)]
                && quarantined == old(quarantined) && acknowledged == old(acknowledged) && nextId == old(nextId) + 1
      ensures !accepted ==> Value() == old(Value())
    {
      var encoded := wire.encode(report, now, true);
      if encoded.Failure? || !room {
        return false;
      }
      pending := pending + [Record(nextId, HOST_REPORT_CONTRACT, encoded.value.1)];
      nextId := nextId + 1;
      accepted := true;
    }

    method QuarantineFirst()
      requires pending != []
      modifies this`pending, this`quarantined
      ensures pending == old(pending)[1..] && quarantined == old(quarantined) + [old(pending)[0]]
    {
      quarantined := quarantined + [pending[0]];
      pending := pending[1..];
    }

    /** The first deliverable record in store order; everything undeliverable before it is isolated. */
    method Oldest(wire: Wire) returns (found: Option<PendingReport>)
      modifies this
      ensures Value() == AfterRead(wire, old(Value()))
      ensures found == Head(wire, Value())
      ensures found.None? <==> pending == []
      ensures found.Some? ==>
                && Deliverable(wire, pending[0]).Some?
                && found.value == PendingReport(pending[0].id, Deliverable(wire, pending[0]).value, pending[0].payload)
      ensures exists n | 0 <= n <= |old(pending)| ::
                && pending == old(pending)[n..] && quarantined == old(quarantined) + old(pending)[..n]
                && forall i | 0 <= i < n :: Deliverable(wire, old(pending)[i]).None?
      ensures acknowledged == old(acknowledged) && nextId == old(nextId)
    {
      ghost var start := Value();
      while pending != []
        invariant AfterRead(wire, Value()) == AfterRead(wire, old(Value()))
        decreases |pending|
      {
        var report := ReadRecord(wire, pending[0]);
        if report.Some? {
          ReadTwice(wire, Value());
          ReadSplits(wire, start);
          return Some(PendingReport(pending[0].id, report.value, pending[0].payload));
        }
        QuarantinedFirst(wire, Value());
        QuarantineFirst();
      }
      NothingToRead(wire, Value());
      ReadSplits(wire, start);
      return None;
    }

    method AcknowledgeFirst()
      requires pending != []
      modifies this`pending, this`acknowledged
      ensures pending == old(pending)[1..] && acknowledged == old(acknowledged) + [old(pending)[0]]
    {
      acknowledged := acknowledged + [pending[0]];
      pending := pending[1..];
    }

    /** Deliver the queue in order; `clock[i]` and `replies[i]` belong to the i-th attempt. */
    method Drain(wire: Wire, identity: string, clock: seq<Time>, replies: seq<Reply>)
      returns (outcome: Drained, attempts: nat)
      requires |clock| == |replies|
      modifies this
      ensures attempts <= |replies|
      ensures Value() == AfterRead(wire, Run(wire, old(Value()), Deliveries(identity, clock[..attempts], replies[..attempts])))
      ensures outcome.Emptied? <==> pending == []
      ensures outcome.TimedOut? ==> attempts == |replies|
      ensures !outcome.Unconfirmed? ==> |acknowledged| == |old(acknowledged)| + attempts
      ensures outcome.Unconfirmed? ==> attempts > 0 && |acknowledged| + 1 == |old(acknowledged)| + attempts
      ensures outcome.Unconfirmed? ==>
                && Head(wire, Value()).Some?
                && var report := Head(wire, Value()).value;
                   Send(wire, identity, report.report, Some(report.body), clock[attempts - 1], replies[attempts - 1])
                   == Failure(outcome.error)
    {
      attempts := 0;
      ghost var start := Value();
      ghost var delivered := start;
      assert Deliveries(identity, clock[..0], replies[..0]) == [];
      var found := Oldest(wire);
      while found.Some?
        invariant attempts <= |replies|
        invariant delivered == Run(wire, start, Deliveries(identity, clock[..attempts], replies[..attempts]))
        invariant Value() == AfterRead(wire, delivered)
        invariant found == Head(wire, Value()) && (found.None? <==> pending == [])
        invariant |acknowledged| == |start.acknowledged| + attempts
        decreases |pending|
      {
        if attempts == |replies| {
          return TimedOut, attempts;
        }
        var sent := Send(wire, identity, found.value.report, Some(found.value.body), clock[attempts], replies[attempts]);
        DeliveriesStep(wire, start, identity, clock, replies, attempts);
        delivered := AfterDelivery(wire, delivered, identity, clock[attempts], replies[attempts]);
        attempts := attempts + 1;
        if sent.Failure? {
          assert Value() == delivered;
          ReadTwice(wire, delivered);
          return Unconfirmed(sent.error), attempts;
        }
        AcknowledgeFirst();
        assert Value() == delivered;
        found := Oldest(wire);
      }
      outcome := Emptied;
    }
  }

  function Deliveries(identity: string, clock: seq<Time>, replies: seq<Reply>): seq<Event>
    requires |clock| == |replies|
  {
    seq(|replies|, i requires 0 <= i < |replies| => Deliver(identity, clock[i], replies[i]))
  }

  /** Reading isolates unreadable records in front, and nothing else. */
  lemma ReadSplits(wire: Wire, q: Queue)
    ensures var r := AfterRead(wire, q);
            && (exists n | 0 <= n <= |q.pending| ::
                  && r.pending == q.pending[n..] && r.quarantined == q.quarantined + q.pending[..n]
                  && forall i | 0 <= i < n :: Deliverable(wire, q.pending[i]).None?)
            && r.acknowledged == q.acknowledged && r.nextId == q.nextId
  {
    var n, r := Unreadable(wire, q.pending), AfterRead(wire, q);
    assert && 0 <= n <= |q.pending| && r.pending == q.pending[n..] && r.quarantined == q.quarantined + q.pending[..n]
           && forall i | 0 <= i < n :: Deliverable(wire, q.pending[i]).None?;
  }

  /** A reading step leaves nothing unreadable in front. */
  lemma ReadStep(wire: Wire, q: Queue)
    ensures var r := Step(wire, q, ReadOldest);
            && (r.pending == [] || Deliverable(wire, r.pending[0]).Some?)
            && (exists n | 0 <= n <= |q.pending| ::
                  && r.pending == q.pending[n..] && r.quarantined == q.quarantined + q.pending[..n]
                  && forall i | 0 <= i < n :: Deliverable(wire, q.pending[i]).None?)
            && r.acknowledged == q.acknowledged && r.nextId == q.nextId
  {
    ReadSplits(wire, q);
  }

  lemma NothingToRead(wire: Wire, q: Queue)
    requires q.pending == []
    ensures AfterRead(wire, q) == q
  {
    assert q.pending[0..] == q.pending && q.quarantined + q.pending[..0] == q.quarantined;
  }

  /** Isolating an unreadable first record is what reading does first. */
  lemma QuarantinedFirst(wire: Wire, q: Queue)
    requires q.pending != [] && Deliverable(wire, q.pending[0]).None?
    ensures AfterRead(wire, q.(pending := q.pending[1..], quarantined := q.quarantined + [q.pending[0]])) == AfterRead(wire, q)
  {
    var n := Unreadable(wire, q.pending[1..]);
    assert Unreadable(wire, q.pending) == 1 + n;
    assert q.pending[1..][n..] == q.pending[1 + n..];
    assert q.quarantined + [q.pending[0]] + q.pending[1..][..n] == q.quarantined + q.pending[..1 + n];
  }

  /** A queue that starts with a deliverable record is left alone by reading. */
  lemma ReadTwice(wire: Wire, q: Queue)
    requires Head(wire, q).Some?
    ensures AfterRead(wire, q) == q
  {
    assert q.pending[0..] == q.pending && q.quarantined + q.pending[..0] == q.quarantined;
  }

  lemma DeliveriesStep(wire: Wire, q: Queue, identity: string, clock: seq<Time>, replies: seq<Reply>, n: nat)
    requires n < |clock| == |replies|
    ensures Run(wire, q, Deliveries(identity, clock[..n + 1], replies[..n + 1])) ==
              AfterDelivery(wire, Run(wire, q, Deliveries(identity, clock[..n], replies[..n])), identity, clock[n], replies[n])
  {
    var all := Deliveries(identity, clock[..n + 1], replies[..n + 1]);
    assert all[..n] == Deliveries(identity, clock[..n], replies[..n]);
  }
}
