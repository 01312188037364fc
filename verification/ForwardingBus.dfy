/**
 * The forwarding event bus: the inner bus takes the event first, then the event
 * is written to the outbox on a best-effort basis.
 */
module ForwardingBus {
  import opened Wrappers
  import opened Events
  import opened OutboxEntries
  import opened OutboxTable

  /** One attempt to record an event: the fresh row key, the clock, and whether the statement completes. */
  datatype Write = Write(event: Event, id: string, now: int, databaseUp: bool) {
    function ToRow(): Row {
      NewRow(event, id, now)
    }
  }

  function AfterWrite(rows: seq<Row>, w: Write, unique: bool): seq<Row> {
    if w.databaseUp && MayInsert(rows, w.ToRow(), unique) then Insert(rows, w.ToRow()) else rows
  }

  function AfterWrites(rows: seq<Row>, ws: seq<Write>, unique: bool): seq<Row>
    decreases ws
  {
    if ws == [] then rows else AfterWrites(AfterWrite(rows, ws[0], unique), ws[1..], unique)
  }

  lemma {:induction false} WritesCompose(rows: seq<Row>, a: seq<Write>, b: seq<Write>, unique: bool)
    ensures AfterWrites(rows, a + b, unique) == AfterWrites(AfterWrites(rows, a, unique), b, unique)
    decreases a
  {
    if a == [] {
      assert a + b == b;
    } else {
      assert (a + b)[1..] == a[1..] + b;
      WritesCompose(AfterWrite(rows, a[0], unique), a[1..], b, unique);
    }
  }

  class ForwardingEventBus {
    const outboxRepo: OutboxEntryRepository

    constructor (outboxRepo: OutboxEntryRepository)
      ensures this.outboxRepo == outboxRepo
    {
      this.outboxRepo := outboxRepo;
    }

    /** `innerAccepts` says whether the inner bus returns normally; its error reaches the caller. */
    method Publish(w: Write, innerAccepts: bool) returns (r: Result<(), string>)
      modifies outboxRepo`rows
      ensures r.Success? <==> innerAccepts
      ensures outboxRepo.rows == if innerAccepts then AfterWrite(old(outboxRepo.rows), w, outboxRepo.uniqueEvents) else old(outboxRepo.rows)
    {
      if !innerAccepts {
        return Failure("inner bus error");
      }
      WriteToOutbox(w);
      return Success(());
    }

    method PublishBatch(ws: seq<Write>, innerAccepts: bool) returns (r: Result<(), string>)
      modifies outboxRepo`rows
      ensures r.Success? <==> innerAccepts
      ensures outboxRepo.rows == if innerAccepts then AfterWrites(old(outboxRepo.rows), ws, outboxRepo.uniqueEvents) else old(outboxRepo.rows)
    {
      if !innerAccepts {
        return Failure("inner bus error");
      }
      for i := 0 to |ws|
        invariant outboxRepo.rows == AfterWrites(old(outboxRepo.rows), ws[..i], outboxRepo.uniqueEvents)
      {
        WriteToOutbox(ws[i]);
        WritesCompose(old(outboxRepo.rows), ws[..i], [ws[i]], outboxRepo.uniqueEvents);
        assert ws[..i + 1] == ws[..i] + [ws[i]];
      }
      assert ws[..|ws|] == ws;
      return Success(());
    }

    /** A failed append is logged and swallowed. */
    method WriteToOutbox(w: Write)
      modifies outboxRepo`rows
      ensures outboxRepo.rows == AfterWrite(old(outboxRepo.rows), w, outboxRepo.uniqueEvents)
    {
      var entry := new OutboxEntryEntity.Create(w.event, w.id, w.now);
      var _ := outboxRepo.Append(entry, w.databaseUp);
    }
  }

  // ---------------------------------------------------------------------
  // What a history of calls leaves in the outbox
  // ---------------------------------------------------------------------

  datatype Call = Publish(w: Write, innerAccepts: bool) | PublishBatch(ws: seq<Write>, innerAccepts: bool)

  /** The writes that one call attempts: none when the inner bus rejects it. */
  function AttemptsOf(c: Call): seq<Write> {
    if !c.innerAccepts then [] else if c.Publish? then [c.w] else c.ws
  }

  function Attempts(calls: seq<Call>): seq<Write> {
    if calls == [] then [] else AttemptsOf(calls[0]) + Attempts(calls[1..])
  }

  function AfterCall(rows: seq<Row>, c: Call, unique: bool): seq<Row> {
    if !c.innerAccepts then rows
    else if c.Publish? then AfterWrite(rows, c.w, unique)
    else AfterWrites(rows, c.ws, unique)
  }

  function AfterCalls(rows: seq<Row>, calls: seq<Call>, unique: bool): seq<Row>
    decreases calls
  {
    if calls == [] then rows else AfterCalls(AfterCall(rows, calls[0], unique), calls[1..], unique)
  }

  /** A history leaves what its attempted writes leave one by one: batching makes no difference. */
  lemma {:induction false} CallsAreWrites(rows: seq<Row>, calls: seq<Call>, unique: bool)
    ensures AfterCalls(rows, calls, unique) == AfterWrites(rows, Attempts(calls), unique)
    decreases calls
  {
    if calls != [] {
      WritesCompose(rows, AttemptsOf(calls[0]), Attempts(calls[1..]), unique);
      assert calls[0].Publish? ==> [calls[0].w][1..] == [];
      CallsAreWrites(AfterCall(rows, calls[0], unique), calls[1..], unique);
    }
  }

  /** The rows that hold a given event. */
  function WithEvent(rows: seq<Row>, eventId: string): seq<Row> {
    if rows == [] then []
    else (if rows[0].eventId == eventId then [rows[0]] else []) + WithEvent(rows[1..], eventId)
  }

  /** The writes of a given event that reach the database. */
  function Reaching(ws: seq<Write>, eventId: string): seq<Write> {
    if ws == [] then []
    else (if ws[0].databaseUp && ws[0].event.eventId == eventId then [ws[0]] else []) + Reaching(ws[1..], eventId)
  }

  /** generateId gives every attempt a key that is nowhere else. */
  predicate FreshKeys(rows: seq<Row>, ws: seq<Write>) {
    && (forall i, j :: 0 <= i < j < |ws| ==> ws[i].id != ws[j].id)
    && (forall i :: 0 <= i < |ws| ==> !HasId(rows, ws[i].id))
  }

  lemma {:induction false} WithEventSplit(a: seq<Row>, b: seq<Row>, eventId: string)
    ensures WithEvent(a + b, eventId) == WithEvent(a, eventId) + WithEvent(b, eventId)
  {
    if a == [] {
      assert a + b == b;
    } else {
      assert a + b == [a[0]] + (a[1..] + b);
      WithEventSplit(a[1..], b, eventId);
    }
  }

  lemma {:induction false} HasEventIff(rows: seq<Row>, eventId: string)
    ensures HasEvent(rows, eventId) <==> WithEvent(rows, eventId) != []
  {
    if rows != [] {
      HasEventIff(rows[1..], eventId);
      if HasEvent(rows, eventId) {
        var i :| 0 <= i < |rows| && rows[i].eventId == eventId;
        assert i > 0 ==> rows[1..][i - 1].eventId == eventId;
      }
      if HasEvent(rows[1..], eventId) {
        var i :| 0 <= i < |rows[1..]| && rows[1..][i].eventId == eventId;
        assert rows[i + 1].eventId == eventId;
      }
      assert rows[0].eventId == eventId ==> HasEvent(rows, eventId);
    }
  }

  lemma WithEventAfterInsert(rows: seq<Row>, r: Row, eventId: string)
    ensures r.eventId != eventId ==> WithEvent(Insert(rows, r), eventId) == WithEvent(rows, eventId)
    ensures r.eventId == eventId ==> |WithEvent(Insert(rows, r), eventId)| == |WithEvent(rows, eventId)| + 1
    ensures r.eventId == eventId && WithEvent(rows, eventId) == [] ==> WithEvent(Insert(rows, r), eventId) == [r]
  {
    hide Slot;
    var k := Slot(rows, r.createdAt);
    var before, after := rows[..k], rows[k..];
    WithEventSplit(before + [r], after, eventId);
    WithEventSplit(before, [r], eventId);
    WithEventSplit(before, after, eventId);
    assert before + after == rows;
    assert [r][1..] == [];
  }

  lemma KeysAfterInsert(rows: seq<Row>, r: Row, id: string)
    requires !HasId(rows, id) && r.id != id
    ensures !HasId(Insert(rows, r), id)
  {
  }

  lemma FreshAfterWrite(rows: seq<Row>, ws: seq<Write>, unique: bool)
    requires ws != [] && FreshKeys(rows, ws)
    ensures FreshKeys(AfterWrite(rows, ws[0], unique), ws[1..])
  {
    forall i | 0 <= i < |ws[1..]| ensures !HasId(AfterWrite(rows, ws[0], unique), ws[1..][i].id) {
      assert ws[1..][i] == ws[i + 1];
      KeysAfterInsert(rows, ws[0].ToRow(), ws[i + 1].id);
    }
  }

  /**
   * With the unique constraint, an event has one row, that of its first write to
   * reach the database, and no other write of any event matters.
   */
  lemma {:induction false} FirstWriteWins(rows: seq<Row>, ws: seq<Write>, eventId: string)
    requires FreshKeys(rows, ws)
    ensures WithEvent(AfterWrites(rows, ws, true), eventId) ==
            if WithEvent(rows, eventId) != [] then WithEvent(rows, eventId)
            else if Reaching(ws, eventId) == [] then []
            else [Reaching(ws, eventId)[0].ToRow()]
    decreases ws
  {
    if ws != [] {
      var w, rows' := ws[0], AfterWrite(rows, ws[0], true);
      FreshAfterWrite(rows, ws, true);
      HasEventIff(rows, w.event.eventId);
      WithEventAfterInsert(rows, w.ToRow(), eventId);
      FirstWriteWins(rows', ws[1..], eventId);
    }
  }

  /** Without it, every write that reaches the database adds a row for its event. */
  lemma {:induction false} EveryWriteCounts(rows: seq<Row>, ws: seq<Write>, eventId: string)
    requires FreshKeys(rows, ws)
    ensures |WithEvent(AfterWrites(rows, ws, false), eventId)| == |WithEvent(rows, eventId)| + |Reaching(ws, eventId)|
    decreases ws
  {
    if ws != [] {
      FreshAfterWrite(rows, ws, false);
      WithEventAfterInsert(rows, ws[0].ToRow(), eventId);
      EveryWriteCounts(AfterWrite(rows, ws[0], false), ws[1..], eventId);
    }
  }

  /** The outbox after any history of publish and publishBatch calls, told event by event. */
  lemma OutboxAfterHistory(calls: seq<Call>, eventId: string)
    requires FreshKeys([], Attempts(calls))
    ensures
      var reaching := Reaching(Attempts(calls), eventId);
      && WithEvent(AfterCalls([], calls, true), eventId) == (if reaching == [] then [] else [reaching[0].ToRow()])
      && |WithEvent(AfterCalls([], calls, false), eventId)| == |reaching|
  {
    CallsAreWrites([], calls, true);
    CallsAreWrites([], calls, false);
    FirstWriteWins([], Attempts(calls), eventId);
    EveryWriteCounts([], Attempts(calls), eventId);
  }

  lemma {:induction false} ReachingIff(ws: seq<Write>, eventId: string)
    ensures Reaching(ws, eventId) != [] <==> exists w :: w in ws && w.databaseUp && w.event.eventId == eventId
  {
    if ws != [] {
      ReachingIff(ws[1..], eventId);
    }
  }

  lemma {:induction false} AttemptedIff(calls: seq<Call>, w: Write)
    ensures w in Attempts(calls) <==>
            exists c :: c in calls && c.innerAccepts && (c.Publish? ==> c.w == w) && (c.PublishBatch? ==> w in c.ws)
  {
    if calls != [] {
      AttemptedIff(calls[1..], w);
    }
  }

  /** An event is in the outbox exactly when a call that the inner bus accepted published it while the database was up. */
  lemma RecordedIff(calls: seq<Call>, eventId: string, unique: bool)
    requires FreshKeys([], Attempts(calls))
    ensures (exists i :: 0 <= i < |AfterCalls([], calls, unique)| && AfterCalls([], calls, unique)[i].eventId == eventId) <==>
            exists c, w: Write :: c in calls && c.innerAccepts && w.databaseUp && w.event.eventId == eventId &&
                           (if c.Publish? then c.w == w else w in c.ws)
  {
    hide FreshKeys, AfterCalls, Attempts, Reaching, WithEvent;
    OutboxAfterHistory(calls, eventId);
    HasEventIff(AfterCalls([], calls, unique), eventId);
    ReachingIff(Attempts(calls), eventId);
    forall w ensures w in Attempts(calls) <==>
                     exists c :: c in calls && c.innerAccepts && (c.Publish? ==> c.w == w) && (c.PublishBatch? ==> w in c.ws) {
      AttemptedIff(calls, w);
    }
  }

  ghost predicate OneRowPerEvent(rows: seq<Row>) {
    forall e :: |WithEvent(rows, e)| <= 1
  }

  ghost predicate NoRepeats(ws: seq<Write>) {
    forall e :: |Reaching(ws, e)| <= 1
  }

  /** A history leaves at most one row per event exactly when the constraint is there or no event reaches the table twice. */
  lemma OneRowPerEventIff(calls: seq<Call>, unique: bool)
    requires FreshKeys([], Attempts(calls))
    ensures OneRowPerEvent(AfterCalls([], calls, unique)) <==> unique || NoRepeats(Attempts(calls))
  {
    var rows, ws := AfterCalls([], calls, unique), Attempts(calls);
    forall e
      ensures if unique then |WithEvent(rows, e)| <= 1 else |WithEvent(rows, e)| == |Reaching(ws, e)|
    {
      OutboxAfterHistory(calls, e);
    }
    if !unique && OneRowPerEvent(rows) {
      forall e ensures |Reaching(ws, e)| <= 1 {
        assert |WithEvent(rows, e)| <= 1;
      }
    }
  }
}
