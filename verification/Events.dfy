/** The canonical envelope that every platform event carries. */
module Events {
  import opened Wrappers

  /** A JSON value; numbers are integers here. */
  datatype Json =
    | Null
    | Bool(b: bool)
    | Num(n: int)
    | Str(s: string)
    | Arr(items: seq<Json>)
    | Obj(fields: map<string, Json>)

  /** Set only on events that a replay created. */
  datatype Replay = Replay(
    isReplay: bool,
    replayId: Option<string>,
    replayedAt: Option<string>,
    replayReason: Option<string>,
    replaySourceEventId: Option<string>)

  datatype Event = Event(
    eventId: string,
    eventType: string,
    eventVersion: int,
    tenantId: string,
    correlationId: string,
    actorId: Option<string>,
    causationId: Option<string>,
    traceId: Option<string>,
    sourceService: string,
    sourceVersion: Option<string>,
    occurredAt: string,
    payload: Json,
    replay: Option<Replay>)

  /** `value || undefined`: the empty string counts as absent. */
  function NonEmpty(value: Option<string>): (r: Option<string>)
    ensures r.Some? ==> r == value && r.value != ""
    ensures r.None? <==> value.GetOr("") == ""
  {
    if value == Some("") then None else value
  }
}
