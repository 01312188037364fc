/**
 * One outbox entry: the stored row, the entity whose methods move it along, and
 * the functions on rows that those methods are proved against.
 */
module OutboxEntries {
  import opened Wrappers
  import opened Events

  const BATCH_SIZE: nat := 50
  const MAX_ATTEMPTS: nat := 5

  datatype Status = Pending | Processed | Failed

  /** A row of outbox_entries, column by column. */
  datatype Row = Row(
    id: string,
    eventId: string,
    eventType: string,
    eventVersion: int,
    tenantId: string,
    correlationId: string,
    actorId: Option<string>,
    causationId: Option<string>,
    traceId: Option<string>,
    sourceService: string,
    sourceVersion: Option<string>,
    payload: Json,
    status: Status,
    attempts: nat,
    lastError: Option<string>,
    occurredAt: string,
    createdAt: int,
    processedAt: Option<int>)

  /** How one call to the event backbone can end. */
  datatype Ingest =
    | Accepted                          // stored and acknowledged
    | AcceptedUnacknowledged(error: string)  // stored, but the caller saw an error (a time-out)
    | Rejected(error: string)           // not stored
  {
    predicate Stored() {
      !Rejected?
    }
  }

  /** The row that publishing `e` creates. */
  function NewRow(e: Event, id: string, now: int): Row {
    Row(id, e.eventId, e.eventType, e.eventVersion, e.tenantId, e.correlationId,
        e.actorId, e.causationId, e.traceId, e.sourceService, e.sourceVersion, e.payload,
        Pending, 0, None, e.occurredAt, now, None)
  }

  function MarkedProcessed(r: Row, now: int): Row {
    r.(status := Processed, processedAt := Some(now))
  }

  function AttemptFailed(r: Row, error: string, maxAttempts: nat): Row {
    var n := r.attempts + 1;
    r.(attempts := n, lastError := Some(error), status := if n >= maxAttempts then Failed else r.status)
  }

  /** What one ingest call does to the entry in hand, before anything is saved. */
  function Attempted(r: Row, outcome: Ingest, now: int): Row {
    match outcome
    case Accepted => MarkedProcessed(r, now)
    case AcceptedUnacknowledged(error) => AttemptFailed(r, error, MAX_ATTEMPTS)
    case Rejected(error) => AttemptFailed(r, error, MAX_ATTEMPTS)
  }

  /** The two rows hold the same event under the same key and creation time. */
  predicate SameEvent(r: Row, r': Row) {
    r' == r.(status := r'.status, attempts := r'.attempts, lastError := r'.lastError, processedAt := r'.processedAt)
  }

  /** The rows that the processor can produce, told from status and attempts. */
  predicate Legal(r: Row) {
    match r.status
    case Pending => r.attempts < MAX_ATTEMPTS
    case Processed => r.attempts < MAX_ATTEMPTS
    case Failed => r.attempts == MAX_ATTEMPTS
  }

  /** An attempt on a legal pending row leaves it legal, and pending only with one more attempt on record. */
  lemma AttemptKeepsLegal(r: Row, outcome: Ingest, now: int)
    requires Legal(r) && r.status == Pending
    ensures
      var r' := Attempted(r, outcome, now);
      && Legal(r') && SameEvent(r, r')
      && (r'.status == Processed <==> outcome == Accepted)
      && (r'.status == Processed ==> r'.attempts == r.attempts)
      && (r'.status != Processed ==> r'.attempts == r.attempts + 1)
      && (r'.status == Failed <==> outcome != Accepted && r.attempts == MAX_ATTEMPTS - 1)
  {
  }

  class OutboxEntryEntity {
    const id: string
    const eventId: string
    const eventType: string
    const eventVersion: int
    const tenantId: string
    const correlationId: string
    const actorId: Option<string>
    const causationId: Option<string>
    const traceId: Option<string>
    const sourceService: string
    const sourceVersion: Option<string>
    const payload: Json
    const occurredAt: string
    const createdAt: int
    var status: Status
    var attempts: nat
    var lastError: Option<string>
    var processedAt: Option<int>

    constructor Create(e: Event, id: string, now: int)
      ensures ToOrm() == NewRow(e, id, now)
      ensures this.id == id && createdAt == now && occurredAt == e.occurredAt
      ensures eventId == e.eventId && eventType == e.eventType && eventVersion == e.eventVersion
      ensures tenantId == e.tenantId && correlationId == e.correlationId && actorId == e.actorId
      ensures causationId == e.causationId && traceId == e.traceId
      ensures sourceService == e.sourceService && sourceVersion == e.sourceVersion && payload == e.payload
      ensures status == Pending && attempts == 0 && lastError == None && processedAt == None
    {
      this.id := id;
      eventId, eventType, eventVersion := e.eventId, e.eventType, e.eventVersion;
      tenantId, correlationId := e.tenantId, e.correlationId;
      actorId, causationId, traceId := e.actorId, e.causationId, e.traceId;
      sourceService, sourceVersion := e.sourceService, e.sourceVersion;
      payload, occurredAt, createdAt := e.payload, e.occurredAt, now;
      status, attempts, lastError, processedAt := Pending, 0, None, None;
    }

    /** Loading the row and writing it back unchanged is the identity on rows. */
    constructor Reconstitute(r: Row)
      ensures ToOrm() == r
    {
      id := r.id;
      eventId, eventType, eventVersion := r.eventId, r.eventType, r.eventVersion;
      tenantId, correlationId := r.tenantId, r.correlationId;
      actorId, causationId, traceId := r.actorId, r.causationId, r.traceId;
      sourceService, sourceVersion := r.sourceService, r.sourceVersion;
      payload, occurredAt, createdAt := r.payload, r.occurredAt, r.createdAt;
      status, attempts, lastError, processedAt := r.status, r.attempts, r.lastError, r.processedAt;
    }

    function ToOrm(): Row
      reads this
    {
      Row(id, eventId, eventType, eventVersion, tenantId, correlationId,
          actorId, causationId, traceId, sourceService, sourceVersion, payload,
          status, attempts, lastError, occurredAt, createdAt, processedAt)
    }

    method MarkProcessed(now: int)
      modifies this
      ensures ToOrm() == MarkedProcessed(old(ToOrm()), now)
      ensures status == Processed && processedAt == Some(now)
      ensures attempts == old(attempts) && lastError == old(lastError)
    {
      status := Processed;
      processedAt := Some(now);
    }

    method RecordAttemptFailure(error: string, maxAttempts: nat)
      modifies this
      ensures ToOrm() == AttemptFailed(old(ToOrm()), error, maxAttempts)
      ensures attempts == old(attempts) + 1 && lastError == Some(error) && processedAt == old(processedAt)
      ensures status == if old(attempts) + 1 >= maxAttempts then Failed else old(status)
    {
      attempts := attempts + 1;
      lastError := Some(error);
      if attempts >= maxAttempts {
        status := Failed;
      }
    }
  }
}
