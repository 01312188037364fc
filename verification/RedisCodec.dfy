/**
 * The field lists that the Redis bus writes to a stream entry, and the decoder
 * that reads them back. publish and publishBatch write different lists.
 */
module RedisCodec {
  import opened Wrappers
  import opened Events
  import opened Decimal

  /** JSON.stringify and JSON.parse, which may throw. */
  datatype JsonText = JsonText(stringify: Json -> string, parse: string -> Option<Json>) {
    ghost predicate RoundTrips() {
      forall j :: parse(stringify(j)) == Some(j)
    }
  }

  /** Key and value by turns, as publish passes them to XADD. */
  function SingleFields(text: JsonText, e: Event): seq<string> {
    ["eventId", e.eventId] +
    ["eventType", e.eventType] +
    ["tenantId", e.tenantId] +
    ["correlationId", e.correlationId] +
    ["actorId", e.actorId.GetOr("")] +
    ["occurredAt", e.occurredAt] +
    ["eventVersion", ToDecimal(e.eventVersion)] +
    ["sourceService", e.sourceService] +
    ["payload", text.stringify(e.payload)]
  }

  function BatchFields(text: JsonText, e: Event): seq<string> {
    ["eventId", e.eventId] +
    ["eventType", e.eventType] +
    ["tenantId", e.tenantId] +
    ["correlationId", e.correlationId] +
    ["occurredAt", e.occurredAt] +
    ["payload", text.stringify(e.payload)]
  }

  /** What the decoder returns: text fields may be missing, the version may be NaN. */
  datatype Decoded = Decoded(
    eventId: Option<string>,
    eventType: Option<string>,
    tenantId: Option<string>,
    correlationId: Option<string>,
    actorId: Option<string>,
    occurredAt: Option<string>,
    eventVersion: Option<int>,
    sourceService: string,
    payload: Json)

  /** A JavaScript object with string or undefined values. */
  type Object = map<string, Option<string>>

  function Get(obj: Object, key: string): Option<string> {
    if key in obj then obj[key] else None
  }

  /** The object after the pairs that start before position n, later pairs winning. */
  function ObjectUpTo(fields: seq<string>, n: nat): Object
    requires n % 2 == 0 && n <= |fields| + 1
  {
    if n == 0 then map[]
    else ObjectUpTo(fields, n - 2)[fields[n - 2] := if n - 1 < |fields| then Some(fields[n - 1]) else None]
  }

  function ObjectOf(fields: seq<string>): Object {
    ObjectUpTo(fields, (|fields| + 1) / 2 * 2)
  }

  function Assembled(text: JsonText, obj: Object): Result<Decoded, string> {
    match text.parse(Get(obj, "payload").GetOr("{}"))
    case None => Failure("SyntaxError")
    case Some(payload) =>
      Success(Decoded(
        Get(obj, "eventId"), Get(obj, "eventType"), Get(obj, "tenantId"), Get(obj, "correlationId"),
        NonEmpty(Get(obj, "actorId")), Get(obj, "occurredAt"),
        ParseInt(Get(obj, "eventVersion").GetOr("1")), Get(obj, "sourceService").GetOr(""), payload))
  }

  function Decode(text: JsonText, fields: seq<string>): Result<Decoded, string> {
    Assembled(text, ObjectOf(fields))
  }

  method DeserializeEvent(text: JsonText, fields: seq<string>) returns (r: Result<Decoded, string>)
    ensures r == Decode(text, fields)
  {
    var obj: Object := map[];
    var i := 0;
    while i < |fields|
      invariant i % 2 == 0 && i <= |fields| + 1
      invariant obj == ObjectUpTo(fields, i)
    {
      obj := obj[fields[i] := if i + 1 < |fields| then Some(fields[i + 1]) else None];
      i := i + 2;
    }
    assert obj == ObjectOf(fields);
    r := Assembled(text, obj);
  }

  // ---------------------------------------------------------------------
  // Round trips
  // ---------------------------------------------------------------------

  /** The event without what no field list carries. */
  function Stripped(e: Event): Event {
    e.(actorId := NonEmpty(e.actorId), causationId := None, traceId := None, sourceVersion := None, replay := None)
  }

  /** The event without what a batch drops in addition. */
  function StrippedByBatch(e: Event): Event {
    Stripped(e).(actorId := None, eventVersion := 1, sourceService := "")
  }

  function AsDecoded(e: Event): Decoded {
    Decoded(Some(e.eventId), Some(e.eventType), Some(e.tenantId), Some(e.correlationId), e.actorId,
            Some(e.occurredAt), Some(e.eventVersion), e.sourceService, e.payload)
  }

  lemma {:induction false} ObjectUpToPrefix(a: seq<string>, b: seq<string>, n: nat)
    requires n % 2 == 0 && n <= |a|
    ensures ObjectUpTo(a + b, n) == ObjectUpTo(a, n)
  {
    if n > 0 {
      ObjectUpToPrefix(a, b, n - 2);
    }
  }

  lemma ObjectAppend(a: seq<string>, key: string, value: string)
    requires |a| % 2 == 0
    ensures ObjectOf(a + [key, value]) == ObjectOf(a)[key := Some(value)]
  {
    ObjectUpToPrefix(a, [key, value], |a|);
  }

  lemma NoPairs()
    ensures ObjectOf([]) == map[]
  {
  }

  /** The object that the decoder builds, written down key by key. */
  lemma SingleObject(text: JsonText, e: Event)
    ensures
      ObjectOf(SingleFields(text, e)) ==
      map["eventId" := Some(e.eventId)]["eventType" := Some(e.eventType)]["tenantId" := Some(e.tenantId)]
         ["correlationId" := Some(e.correlationId)]["actorId" := Some(e.actorId.GetOr(""))]["occurredAt" := Some(e.occurredAt)]
         ["eventVersion" := Some(ToDecimal(e.eventVersion))]["sourceService" := Some(e.sourceService)]
         ["payload" := Some(text.stringify(e.payload))]
  {
    hide ObjectOf, ToDecimal;
    var f1 := ["eventId", e.eventId];
    var f2 := f1 + ["eventType", e.eventType];
    var f3 := f2 + ["tenantId", e.tenantId];
    var f4 := f3 + ["correlationId", e.correlationId];
    var f5 := f4 + ["actorId", e.actorId.GetOr("")];
    var f6 := f5 + ["occurredAt", e.occurredAt];
    var f7 := f6 + ["eventVersion", ToDecimal(e.eventVersion)];
    var f8 := f7 + ["sourceService", e.sourceService];
    NoPairs();
    ObjectAppend([], "eventId", e.eventId);
    assert [] + f1 == f1;
    ObjectAppend(f1, "eventType", e.eventType);
    ObjectAppend(f2, "tenantId", e.tenantId);
    ObjectAppend(f3, "correlationId", e.correlationId);
    ObjectAppend(f4, "actorId", e.actorId.GetOr(""));
    ObjectAppend(f5, "occurredAt", e.occurredAt);
    ObjectAppend(f6, "eventVersion", ToDecimal(e.eventVersion));
    ObjectAppend(f7, "sourceService", e.sourceService);
    ObjectAppend(f8, "payload", text.stringify(e.payload));
  }

  lemma BatchObject(text: JsonText, e: Event)
    ensures
      ObjectOf(BatchFields(text, e)) ==
      map["eventId" := Some(e.eventId)]["eventType" := Some(e.eventType)]["tenantId" := Some(e.tenantId)]
         ["correlationId" := Some(e.correlationId)]["occurredAt" := Some(e.occurredAt)]
         ["payload" := Some(text.stringify(e.payload))]
  {
    hide ObjectOf, ToDecimal;
    var f1 := ["eventId", e.eventId];
    var f2 := f1 + ["eventType", e.eventType];
    var f3 := f2 + ["tenantId", e.tenantId];
    var f4 := f3 + ["correlationId", e.correlationId];
    var f5 := f4 + ["occurredAt", e.occurredAt];
    NoPairs();
    ObjectAppend([], "eventId", e.eventId);
    assert [] + f1 == f1;
    ObjectAppend(f1, "eventType", e.eventType);
    ObjectAppend(f2, "tenantId", e.tenantId);
    ObjectAppend(f3, "correlationId", e.correlationId);
    ObjectAppend(f4, "occurredAt", e.occurredAt);
    ObjectAppend(f5, "payload", text.stringify(e.payload));
  }

  /** A published event is read back as it was, but for the fields that publish does not write. */
  lemma SingleRoundTrip(text: JsonText, e: Event)
    requires text.RoundTrips()
    ensures Decode(text, SingleFields(text, e)) == Success(AsDecoded(Stripped(e)))
  {
    hide SingleFields, ObjectOf, ParseInt, ToDecimal;
    SingleObject(text, e);
    ParseIntOfDecimal(e.eventVersion);
    var obj := ObjectOf(SingleFields(text, e));
    assert Get(obj, "payload") == Some(text.stringify(e.payload));
    assert Get(obj, "eventVersion") == Some(ToDecimal(e.eventVersion)) && Get(obj, "sourceService") == Some(e.sourceService);
    assert Get(obj, "actorId") == Some(e.actorId.GetOr("")) && Get(obj, "occurredAt") == Some(e.occurredAt);
    assert text.parse(text.stringify(e.payload)) == Some(e.payload);
  }

  lemma OneIsParsed()
    ensures ParseInt("1") == Some(1)
  {
    ParseIntOfDecimal(1);
    assert ToDecimal(1) == "1";
  }

  /** An event of a batch also comes back with version 1, no source and no actor. */
  lemma BatchRoundTrip(text: JsonText, e: Event)
    requires text.RoundTrips()
    ensures Decode(text, BatchFields(text, e)) == Success(AsDecoded(StrippedByBatch(e)))
  {
    hide BatchFields, ObjectOf, ParseInt;
    BatchObject(text, e);
    OneIsParsed();
    assert text.parse(text.stringify(e.payload)) == Some(e.payload);
  }

  /** Sending on what was received loses nothing more, and an event survives a batch whole exactly when the batch's defaults are its own. */
  lemma ForwardingReceived(text: JsonText, e: Event)
    requires text.RoundTrips()
    ensures Decode(text, SingleFields(text, Stripped(e))) == Decode(text, SingleFields(text, e))
    ensures Decode(text, BatchFields(text, StrippedByBatch(e))) == Decode(text, BatchFields(text, e))
    ensures Decode(text, SingleFields(text, StrippedByBatch(e))) == Decode(text, BatchFields(text, e))
    ensures Decode(text, BatchFields(text, e)) == Decode(text, SingleFields(text, e)) <==>
            e.eventVersion == 1 && e.sourceService == "" && e.actorId.GetOr("") == ""
  {
    SingleRoundTrip(text, e);
    SingleRoundTrip(text, Stripped(e));
    SingleRoundTrip(text, StrippedByBatch(e));
    BatchRoundTrip(text, e);
    BatchRoundTrip(text, StrippedByBatch(e));
  }

  // ---------------------------------------------------------------------
  // Lists that nobody promised
  // ---------------------------------------------------------------------

  /** A key has the value of the last pair that gives it, and none when that pair is cut short. */
  lemma {:induction false} LastPairWins(fields: seq<string>, n: nat, key: string) returns (at: Option<nat>)
    requires n % 2 == 0 && n <= |fields| + 1
    ensures match at
            case None => key !in ObjectUpTo(fields, n) && forall i :: 0 <= i < n && i < |fields| && i % 2 == 0 ==> fields[i] != key
            case Some(k) =>
              && k < n && k < |fields| && k % 2 == 0 && fields[k] == key && key in ObjectUpTo(fields, n)
              && ObjectUpTo(fields, n)[key] == (if k + 1 < |fields| then Some(fields[k + 1]) else None)
              && forall i :: k < i < n && i < |fields| && i % 2 == 0 ==> fields[i] != key
  {
    at := None;
    if n > 0 {
      if fields[n - 2] == key {
        at := Some(n - 2);
      } else {
        at := LastPairWins(fields, n - 2, key);
      }
    }
  }

  /** What the decoder makes of keys that no pair gives. */
  lemma MissingKeys(text: JsonText, fields: seq<string>)
    ensures
      var given := (key: string) => exists i :: 0 <= i < |fields| && i % 2 == 0 && fields[i] == key;
      var r := Decode(text, fields);
      && (!given("payload") ==> if r.Success? then text.parse("{}") == Some(r.value.payload) else text.parse("{}") == None)
      && (r.Success? ==>
          && (!given("eventVersion") ==> r.value.eventVersion == Some(1))
          && (!given("sourceService") ==> r.value.sourceService == "")
          && (!given("actorId") ==> r.value.actorId == None)
          && (!given("eventId") ==> r.value.eventId == None) && (!given("eventType") ==> r.value.eventType == None)
          && (!given("tenantId") ==> r.value.tenantId == None) && (!given("occurredAt") ==> r.value.occurredAt == None)
          && (!given("correlationId") ==> r.value.correlationId == None))
  {
    hide ObjectUpTo, ParseInt;
    OneIsParsed();
    var n := (|fields| + 1) / 2 * 2;
    forall key: string | !exists i :: 0 <= i < |fields| && i % 2 == 0 && fields[i] == key
      ensures Get(ObjectOf(fields), key) == None
    {
      var at := LastPairWins(fields, n, key);
    }
  }

  // ---------------------------------------------------------------------
  // The order of the pairs
  // ---------------------------------------------------------------------

  datatype Pair = Pair(key: string, value: string)

  function Flatten(ps: seq<Pair>): (r: seq<string>)
    ensures |r| == 2 * |ps|
  {
    if ps == [] then [] else Flatten(ps[..|ps| - 1]) + [ps[|ps| - 1].key, ps[|ps| - 1].value]
  }

  predicate DistinctKeys(ps: seq<Pair>) {
    forall i, j :: 0 <= i < j < |ps| ==> ps[i].key != ps[j].key
  }

  lemma {:induction false} ObjectOfPairs(ps: seq<Pair>)
    requires DistinctKeys(ps)
    ensures forall k, v :: k in ObjectOf(Flatten(ps)) && ObjectOf(Flatten(ps))[k] == v <==> v.Some? && Pair(k, v.value) in ps
  {
    if ps != [] {
      var front, last := ps[..|ps| - 1], ps[|ps| - 1];
      ObjectOfPairs(front);
      ObjectAppend(Flatten(front), last.key, last.value);
      assert ps == front + [last];
      assert forall v :: Pair(last.key, v) !in front;
    }
  }

  /** The decoder does not depend on the order of pairs with distinct keys. */
  lemma PairOrderIsIrrelevant(text: JsonText, ps: seq<Pair>, qs: seq<Pair>)
    requires DistinctKeys(ps) && DistinctKeys(qs)
    requires forall p :: p in ps <==> p in qs
    ensures Decode(text, Flatten(ps)) == Decode(text, Flatten(qs))
  {
    ObjectOfPairs(ps);
    ObjectOfPairs(qs);
    var m, n := ObjectOf(Flatten(ps)), ObjectOf(Flatten(qs));
    forall k ensures k in m <==> k in n {
      if k in m {
        assert Pair(k, m[k].value) in qs;
        assert n[k] == Some(m[k].value);
      }
      if k in n {
        assert Pair(k, n[k].value) in ps;
        assert m[k] == Some(n[k].value);
      }
    }
    forall k | k in m ensures m[k] == n[k] {
      assert Pair(k, m[k].value) in qs;
    }
    assert m == n;
  }
}
