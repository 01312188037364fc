/**
 * The last hop of an event: the request that the processor composes from an
 * outbox row, and what the backbone can recover from it.
 */
module IngestRequest {
  import opened Wrappers
  import opened Events
  import opened Decimal
  import opened OutboxEntries

  datatype IngestCommand = IngestCommand(
    streamId: string,
    eventType: string,
    source: string,
    payload: Json,
    metadata: Option<map<string, string>>,
    correlationId: string,
    actorId: Option<string>,
    causationId: Option<string>,
    traceId: Option<string>,
    sourceVersion: Option<string>,
    eventVersion: Option<int>)

  datatype Request = Request(
    headers: map<string, string>,
    streamId: string,
    eventType: string,
    source: string,
    payload: Json,
    metadata: map<string, string>)

  function StreamId(tenantId: string, eventType: string): string {
    "platform." + tenantId + "." + eventType
  }

  /** The command that the processor builds for one entry. */
  function CommandOf(r: Row): IngestCommand {
    IngestCommand(
      StreamId(r.tenantId, r.eventType), r.eventType, r.sourceService, r.payload,
      Some(map["event_id" := r.eventId, "tenant_id" := r.tenantId]),
      r.correlationId, r.actorId, r.causationId, r.traceId, r.sourceVersion, Some(r.eventVersion))
  }

  /** `if (value) dict[key] = value` */
  function With(dict: map<string, string>, key: string, value: Option<string>): map<string, string> {
    match NonEmpty(value)
    case None => dict
    case Some(v) => dict[key := v]
  }

  function HeadersOf(c: IngestCommand, token: string): map<string, string> {
    With(With(
      map["Content-Type" := "application/json", "Authorization" := "Bearer " + token, "X-Correlation-ID" := c.correlationId],
      "X-Causation-ID", c.causationId), "X-Trace-ID", c.traceId)
  }

  /** The caller's metadata, overridden by the two fields that are always sent. */
  function BaseMetadata(c: IngestCommand): map<string, string> {
    c.metadata.GetOr(map[]) + map["event_version" := ToDecimal(c.eventVersion.GetOr(1)), "source_service" := c.source]
  }

  function MetadataOf(c: IngestCommand): map<string, string> {
    With(With(With(With(BaseMetadata(c),
      "actor_id", c.actorId), "causation_id", c.causationId), "trace_id", c.traceId), "source_version", c.sourceVersion)
  }

  method BuildRequest(c: IngestCommand, token: string) returns (r: Request)
    ensures r == Request(HeadersOf(c, token), c.streamId, c.eventType, c.source, c.payload, MetadataOf(c))
    ensures forall k :: (if k in r.headers then Some(r.headers[k]) else None) ==
              (if k == "Content-Type" then Some("application/json")
               else if k == "Authorization" then Some("Bearer " + token)
               else if k == "X-Correlation-ID" then Some(c.correlationId)
               else if k == "X-Causation-ID" && c.causationId.GetOr("") != "" then c.causationId
               else if k == "X-Trace-ID" && c.traceId.GetOr("") != "" then c.traceId
               else None)
    ensures forall k :: (if k in r.metadata then Some(r.metadata[k]) else None) ==
              (if k == "event_version" then Some(ToDecimal(c.eventVersion.GetOr(1)))
               else if k == "source_service" then Some(c.source)
               else if k == "actor_id" && c.actorId.GetOr("") != "" then c.actorId
               else if k == "causation_id" && c.causationId.GetOr("") != "" then c.causationId
               else if k == "trace_id" && c.traceId.GetOr("") != "" then c.traceId
               else if k == "source_version" && c.sourceVersion.GetOr("") != "" then c.sourceVersion
               else if c.metadata.Some? && k in c.metadata.value then Some(c.metadata.value[k])
               else None)
  {
    Headers(c, token);
    Metadata(c);
    hide BaseMetadata, ToDecimal;
    var headers := map["Content-Type" := "application/json", "Authorization" := "Bearer " + token, "X-Correlation-ID" := c.correlationId];
    if c.causationId.GetOr("") != "" {
      headers := headers["X-Causation-ID" := c.causationId.value];
    }
    if c.traceId.GetOr("") != "" {
      headers := headers["X-Trace-ID" := c.traceId.value];
    }
    var metadata := BaseMetadata(c);
    if c.actorId.GetOr("") != "" {
      metadata := metadata["actor_id" := c.actorId.value];
    }
    if c.causationId.GetOr("") != "" {
      metadata := metadata["causation_id" := c.causationId.value];
    }
    if c.traceId.GetOr("") != "" {
      metadata := metadata["trace_id" := c.traceId.value];
    }
    if c.sourceVersion.GetOr("") != "" {
      metadata := metadata["source_version" := c.sourceVersion.value];
    }
    return Request(headers, c.streamId, c.eventType, c.source, c.payload, metadata);
  }

  // ---------------------------------------------------------------------
  // What survives the way from the event to the request
  // ---------------------------------------------------------------------

  function Lookup(dict: map<string, string>, key: string): Option<string> {
    if key in dict then Some(dict[key]) else None
  }

  /** The event as a receiver of the request can put it together; None when a required field is missing. */
  function Recovered(r: Request): Option<Event> {
    match (Lookup(r.metadata, "event_id"), Lookup(r.metadata, "tenant_id"), Lookup(r.headers, "X-Correlation-ID"),
           ParseInt(Lookup(r.metadata, "event_version").GetOr("")))
    case (Some(eventId), Some(tenantId), Some(correlationId), Some(eventVersion)) =>
      Some(Event(
        eventId, r.eventType, eventVersion, tenantId, correlationId,
        Lookup(r.metadata, "actor_id"), Lookup(r.metadata, "causation_id"), Lookup(r.metadata, "trace_id"),
        r.source, Lookup(r.metadata, "source_version"), "", r.payload, None))
    case _ => None
  }

  /** The event without what is not sent: its time and its replay data; empty optional fields count as absent. */
  function Sent(e: Event): Event {
    e.(actorId := NonEmpty(e.actorId), causationId := NonEmpty(e.causationId), traceId := NonEmpty(e.traceId),
       sourceVersion := NonEmpty(e.sourceVersion), occurredAt := "", replay := None)
  }

  lemma WithFacts(dict: map<string, string>, key: string, value: Option<string>)
    requires Lookup(dict, key) == None
    ensures Lookup(With(dict, key, value), key) == NonEmpty(value)
    ensures forall k :: k != key ==> Lookup(With(dict, key, value), k) == Lookup(dict, k)
  {
  }

  /** The headers, key by key. */
  lemma Headers(c: IngestCommand, token: string)
    ensures forall k :: Lookup(HeadersOf(c, token), k) ==
              (if k == "Content-Type" then Some("application/json")
               else if k == "Authorization" then Some("Bearer " + token)
               else if k == "X-Correlation-ID" then Some(c.correlationId)
               else if k == "X-Causation-ID" && c.causationId.GetOr("") != "" then c.causationId
               else if k == "X-Trace-ID" && c.traceId.GetOr("") != "" then c.traceId
               else None)
  {
    hide With;
    var h := map["Content-Type" := "application/json", "Authorization" := "Bearer " + token, "X-Correlation-ID" := c.correlationId];
    WithAt(h, "X-Causation-ID", c.causationId);
    WithAt(With(h, "X-Causation-ID", c.causationId), "X-Trace-ID", c.traceId);
  }

  /** The metadata, key by key: the event's own fields win over the caller's metadata wherever they are given. */
  lemma Metadata(c: IngestCommand)
    ensures forall k :: Lookup(MetadataOf(c), k) ==
              (if k == "event_version" then Some(ToDecimal(c.eventVersion.GetOr(1)))
               else if k == "source_service" then Some(c.source)
               else if k == "actor_id" && c.actorId.GetOr("") != "" then c.actorId
               else if k == "causation_id" && c.causationId.GetOr("") != "" then c.causationId
               else if k == "trace_id" && c.traceId.GetOr("") != "" then c.traceId
               else if k == "source_version" && c.sourceVersion.GetOr("") != "" then c.sourceVersion
               else if c.metadata.Some? && k in c.metadata.value then Some(c.metadata.value[k])
               else None)
  {
    hide With, ToDecimal;
    var m0 := BaseMetadata(c);
    var m1 := With(m0, "actor_id", c.actorId);
    var m2 := With(m1, "causation_id", c.causationId);
    var m3 := With(m2, "trace_id", c.traceId);
    WithAt(m0, "actor_id", c.actorId);
    WithAt(m1, "causation_id", c.causationId);
    WithAt(m2, "trace_id", c.traceId);
    WithAt(m3, "source_version", c.sourceVersion);
  }

  lemma WithAt(dict: map<string, string>, key: string, value: Option<string>)
    ensures forall k :: Lookup(With(dict, key, value), k) == if k == key && value.GetOr("") != "" then value else Lookup(dict, k)
  {
  }

  lemma HeadersCarry(c: IngestCommand, token: string)
    ensures Lookup(HeadersOf(c, token), "X-Correlation-ID") == Some(c.correlationId)
    ensures Lookup(HeadersOf(c, token), "X-Causation-ID") == NonEmpty(c.causationId)
    ensures Lookup(HeadersOf(c, token), "X-Trace-ID") == NonEmpty(c.traceId)
  {
    var h := map["Content-Type" := "application/json", "Authorization" := "Bearer " + token, "X-Correlation-ID" := c.correlationId];
    WithFacts(h, "X-Causation-ID", c.causationId);
    WithFacts(With(h, "X-Causation-ID", c.causationId), "X-Trace-ID", c.traceId);
  }

  /** Fields that the caller's metadata must not name, or they would pass for the event's own. */
  predicate NoClash(metadata: map<string, string>) {
    "actor_id" !in metadata && "causation_id" !in metadata && "trace_id" !in metadata && "source_version" !in metadata
  }

  lemma MetadataCarry(c: IngestCommand)
    requires c.metadata.Some? && NoClash(c.metadata.value)
    ensures
      var m := MetadataOf(c);
      && Lookup(m, "event_version") == Some(ToDecimal(c.eventVersion.GetOr(1)))
      && Lookup(m, "actor_id") == NonEmpty(c.actorId)
      && Lookup(m, "causation_id") == NonEmpty(c.causationId)
      && Lookup(m, "trace_id") == NonEmpty(c.traceId)
      && Lookup(m, "source_version") == NonEmpty(c.sourceVersion)
      && Lookup(m, "event_id") == Lookup(c.metadata.value, "event_id")
      && Lookup(m, "tenant_id") == Lookup(c.metadata.value, "tenant_id")
  {
    hide With, Lookup, BaseMetadata, NonEmpty, ToDecimal;
    var m0 := BaseMetadata(c);
    var m1 := With(m0, "actor_id", c.actorId);
    var m2 := With(m1, "causation_id", c.causationId);
    var m3 := With(m2, "trace_id", c.traceId);
    BaseFacts(c);
    WithFacts(m0, "actor_id", c.actorId);
    WithFacts(m1, "causation_id", c.causationId);
    WithFacts(m2, "trace_id", c.traceId);
    WithFacts(m3, "source_version", c.sourceVersion);
  }

  lemma BaseFacts(c: IngestCommand)
    requires c.metadata.Some? && NoClash(c.metadata.value)
    ensures
      var m := BaseMetadata(c);
      && Lookup(m, "event_version") == Some(ToDecimal(c.eventVersion.GetOr(1)))
      && Lookup(m, "actor_id") == None && Lookup(m, "causation_id") == None
      && Lookup(m, "trace_id") == None && Lookup(m, "source_version") == None
      && Lookup(m, "event_id") == Lookup(c.metadata.value, "event_id")
      && Lookup(m, "tenant_id") == Lookup(c.metadata.value, "tenant_id")
  {
    hide ToDecimal;
  }

  /** The envelope survives: whatever happened to the row's status, the request tells the published event. */
  lemma RequestTellsEvent(e: Event, id: string, created: int, r: Row, token: string)
    requires SameEvent(NewRow(e, id, created), r)
    ensures
      var c := CommandOf(r);
      Recovered(Request(HeadersOf(c, token), c.streamId, c.eventType, c.source, c.payload, MetadataOf(c))) == Some(Sent(e))
  {
    var c := CommandOf(r);
    HeadersCarry(c, token);
    MetadataCarry(c);
    ParseIntOfDecimal(r.eventVersion);
  }

  /** Event, entry, row, entry, request: the four hops in one. */
  method Forwarded(e: Event, id: string, created: int, token: string) returns (r: Request)
    ensures Recovered(r) == Some(Sent(e))
    ensures r.streamId == "platform." + e.tenantId + "." + e.eventType
    ensures r.eventType == e.eventType && r.source == e.sourceService && r.payload == e.payload
    ensures "Authorization" in r.headers && r.headers["Authorization"] == "Bearer " + token
    ensures "X-Correlation-ID" in r.headers && r.headers["X-Correlation-ID"] == e.correlationId
    ensures forall k :: (if k in r.metadata then Some(r.metadata[k]) else None) ==
              (if k == "event_id" then Some(e.eventId)
               else if k == "tenant_id" then Some(e.tenantId)
               else if k == "source_service" then Some(e.sourceService)
               else if k == "event_version" then Some(ToDecimal(e.eventVersion))
               else if k == "actor_id" && e.actorId.GetOr("") != "" then e.actorId
               else if k == "causation_id" && e.causationId.GetOr("") != "" then e.causationId
               else if k == "trace_id" && e.traceId.GetOr("") != "" then e.traceId
               else if k == "source_version" && e.sourceVersion.GetOr("") != "" then e.sourceVersion
               else None)
  {
    hide HeadersOf, MetadataOf, Recovered, Sent, ToDecimal;
    var entry := new OutboxEntryEntity.Create(e, id, created);
    var row := entry.ToOrm();
    var loaded := new OutboxEntryEntity.Reconstitute(row);
    r := BuildRequest(CommandOf(loaded.ToOrm()), token);
    RequestTellsEvent(e, id, created, row, token);
  }

  // ---------------------------------------------------------------------
  // Stream names
  // ---------------------------------------------------------------------

  predicate DotFree(s: string) {
    '.' !in s
  }

  /** Tenants whose ids have no dot share no stream, and neither do event types of one tenant. */
  lemma StreamIdInjective(t1: string, e1: string, t2: string, e2: string)
    requires DotFree(t1) && DotFree(t2)
    ensures StreamId(t1, e1) == StreamId(t2, e2) <==> t1 == t2 && e1 == e2
  {
    SameStreamIff(t1, e1, t2, e2);
    if StreamId(t1, e1) == StreamId(t2, e2) {
      FirstDot(t1, e1, t2, e2);
    }
  }

  lemma FirstDot(t1: string, e1: string, t2: string, e2: string)
    requires DotFree(t1) && DotFree(t2) && t1 + "." + e1 == t2 + "." + e2
    ensures t1 == t2 && e1 == e2
  {
    var s := t1 + "." + e1;
    assert s[|t1|] == '.' && s[|t2|] == '.';
    assert forall i :: 0 <= i < |t1| ==> s[i] == t1[i] && t1[i] in t1;
    assert forall i :: 0 <= i < |t2| ==> s[i] == t2[i] && t2[i] in t2;
    assert |t1| == |t2|;
    assert t1 == s[..|t1|] && t2 == s[..|t2|];
    assert e1 == s[|t1| + 1..] && e2 == s[|t2| + 1..];
  }

  lemma StreamIdTail(t: string, e: string)
    ensures StreamId(t, e) == "platform." + (t + "." + e)
  {
  }

  lemma SameStreamIff(t1: string, e1: string, t2: string, e2: string)
    ensures StreamId(t1, e1) == StreamId(t2, e2) <==> t1 + "." + e1 == t2 + "." + e2
  {
    StreamIdTail(t1, e1);
    StreamIdTail(t2, e2);
    var a, b := t1 + "." + e1, t2 + "." + e2;
    assert ("platform." + a)[9..] == a && ("platform." + b)[9..] == b;
  }

  lemma SharedStreamMeansPrefix(t1: string, e1: string, t2: string, e2: string)
    requires t1 + "." + e1 == t2 + "." + e2 && |t1| <= |t2|
    ensures t1 == t2 || t1 + "." <= t2
  {
    var s := t1 + "." + e1;
    assert t1 == s[..|t1|] && t2 == s[..|t2|];
    if |t1| < |t2| {
      assert t1 + "." == s[..|t1| + 1];
      assert s[..|t2|][..|t1| + 1] == s[..|t1| + 1];
    }
  }

  lemma PrefixSharesStream(t1: string, t2: string) returns (e1: string, e2: string)
    requires t1 + "." <= t2
    ensures StreamId(t1, e1) == StreamId(t2, e2)
  {
    e1, e2 := t2[|t1| + 1..] + ".", "";
    assert t1 + "." + e1 == t2 + "." + e2;
    SameStreamIff(t1, e1, t2, e2);
  }

  /** Two tenants share a stream for some event types exactly when one id continues the other after a dot. */
  lemma TenantsShareStreamIff(t1: string, t2: string)
    ensures (exists e1, e2 :: StreamId(t1, e1) == StreamId(t2, e2)) <==> t1 == t2 || t1 + "." <= t2 || t2 + "." <= t1
  {
    if e1, e2 :| StreamId(t1, e1) == StreamId(t2, e2) {
      SameStreamIff(t1, e1, t2, e2);
      if |t1| <= |t2| {
        SharedStreamMeansPrefix(t1, e1, t2, e2);
      } else {
        SharedStreamMeansPrefix(t2, e2, t1, e1);
      }
    }
    if t1 == t2 {
      assert StreamId(t1, "") == StreamId(t2, "");
    }
    if t1 + "." <= t2 {
      var e1, e2 := PrefixSharesStream(t1, t2);
    }
    if t2 + "." <= t1 {
      var e2, e1 := PrefixSharesStream(t2, t1);
    }
  }
}
