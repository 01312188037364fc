/**
 * The protocol when no batch starts before the previous one has ended: exact
 * accounting, final outcomes, and why neither survives overlapping batches.
 */
module OutboxSoleWorker {
  import opened Wrappers
  import opened Events
  import opened OutboxEntries
  import opened OutboxTable
  import opened OutboxProcessor
  import opened OutboxProtocol

  /** A run of the protocol in which every poll finds no other batch under way. */
  predicate SoleRun(s: State, acts: seq<Action>)
    decreases acts
  {
    acts == [] || (SoleEnabled(s, acts[0]) && SoleRun(Apply(s, acts[0]), acts[1..]))
  }

  predicate SoleEnabled(s: State, a: Action) {
    Enabled(s, a) && (a.Poll? ==> s.batches == map[])
  }

  lemma {:induction false} SoleRunIsEnabled(s: State, acts: seq<Action>)
    requires SoleRun(s, acts)
    ensures AllEnabled(s, acts)
    decreases acts
  {
    if acts != [] {
      SoleRunIsEnabled(Apply(s, acts[0]), acts[1..]);
    }
  }

  /** Acknowledgements and errors, accounted for to the last one. */
  predicate Exact(r: Row, t: Tally) {
    && t.acked == (if r.status == Processed then 1 else 0) + t.lostAcked
    && t.errors == r.attempts + t.lostErrors
  }

  /** `q` is the stored row from which the unsaved copy `r` was made. */
  predicate BeforeAttempt(q: Row, r: Row) {
    q.status == Pending && r.attempts == q.attempts + if r.status == Processed then 0 else 1
  }

  predicate Accounted(q: Row, ready: Option<Row>, tally: map<string, Tally>) {
    if ready.Some? && ready.value.id == q.id
    then BeforeAttempt(q, ready.value) && Exact(ready.value, TallyOf(tally, q.id))
    else Exact(q, TallyOf(tally, q.id))
  }

  predicate AllAccounted(rows: seq<Row>, ready: Option<Row>, tally: map<string, Tally>) {
    forall i :: 0 <= i < |rows| ==> Accounted(rows[i], ready, tally)
  }

  /** The copies still to forward are the rows as they stand in the table. */
  predicate UpToDate(rows: seq<Row>, b: Batch) {
    && UniqueIds(b.todo)
    && (forall i :: 0 <= i < |b.todo| ==> b.todo[i] in rows)
    && (b.ready.Some? ==> forall i :: 0 <= i < |b.todo| ==> b.todo[i].id != b.ready.value.id)
  }

  predicate Idle(s: State) {
    s.batches == map[] && AllAccounted(s.rows, None, s.tally)
  }

  predicate Busy(s: State, w: nat) {
    w in s.batches && s.batches == map[w := s.batches[w]] &&
    UpToDate(s.rows, s.batches[w]) && AllAccounted(s.rows, s.batches[w].ready, s.tally)
  }

  predicate Tallied(rows: seq<Row>, tally: map<string, Tally>) {
    forall id :: id in tally ==> HasId(rows, id)
  }

  ghost predicate SoleInv(s: State) {
    && Inv(s)
    && Tallied(s.rows, s.tally)
    && (Idle(s) || exists w :: w in s.batches && Busy(s, w))
  }

  // Each step, told on the table and the counters alone.

  lemma RowsOfInsert(rows: seq<Row>, r: Row)
    ensures forall q :: q in rows ==> q in Insert(rows, r)
    ensures forall i :: 0 <= i < |Insert(rows, r)| ==> Insert(rows, r)[i] == r || Insert(rows, r)[i] in rows
  {
    hide Slot;
    var k := Slot(rows, r.createdAt);
    forall q | q in rows ensures q in Insert(rows, r) {
      var i :| 0 <= i < |rows| && rows[i] == q;
      assert Insert(rows, r)[if i < k then i else i + 1] == q;
    }
  }

  lemma AccountAppend(rows: seq<Row>, r: Row, ready: Option<Row>, tally: map<string, Tally>)
    requires AllAccounted(rows, ready, tally) && Tallied(rows, tally)
    requires !HasId(rows, r.id) && r.status == Pending && r.attempts == 0
    requires ready.Some? ==> ready.value.id != r.id
    ensures AllAccounted(Insert(rows, r), ready, tally) && Tallied(Insert(rows, r), tally)
    ensures forall q :: q in rows ==> q in Insert(rows, r)
  {
    hide Insert, HasId, BeforeAttempt;
    var rows' := Insert(rows, r);
    RowsOfInsert(rows, r);
    assert r.id !in tally;
    forall i | 0 <= i < |rows'| ensures Accounted(rows'[i], ready, tally) {
      if rows'[i] != r {
        var j :| 0 <= j < |rows| && rows[j] == rows'[i];
      }
    }
    forall id | id in tally ensures HasId(rows', id) {
      KeysStay(rows, rows', id);
    }
  }

  lemma KeysStay(rows: seq<Row>, rows': seq<Row>, id: string)
    requires HasId(rows, id) && forall q :: q in rows ==> q in rows'
    ensures HasId(rows', id)
  {
    var i :| 0 <= i < |rows| && rows[i].id == id;
    assert rows[i] in rows';
  }

  lemma AccountForward(rows: seq<Row>, q: Row, outcome: Ingest, now: int, tally: map<string, Tally>)
    requires UniqueIds(rows) && q in rows && q.status == Pending && Legal(q)
    requires AllAccounted(rows, None, tally) && Tallied(rows, tally)
    ensures
      var tally' := Counted(tally, q.id, outcome);
      AllAccounted(rows, Some(Attempted(q, outcome, now)), tally') && Tallied(rows, tally')
  {
    var tally' := Counted(tally, q.id, outcome);
    var j :| 0 <= j < |rows| && rows[j] == q;
    forall i | 0 <= i < |rows| ensures Accounted(rows[i], Some(Attempted(q, outcome, now)), tally') {
      assert Accounted(rows[i], None, tally);
      assert rows[i].id == q.id ==> i == j;
    }
  }

  lemma AccountSave(rows: seq<Row>, r: Row, tally: map<string, Tally>)
    requires SortedByCreation(rows) && UniqueIds(rows) && Known(rows, r)
    requires AllAccounted(rows, Some(r), tally) && Tallied(rows, tally)
    ensures AllAccounted(SaveRow(rows, r), None, tally) && Tallied(SaveRow(rows, r), tally)
    ensures forall q :: q in rows && (q.id != r.id || q.status != Pending) ==> q in SaveRow(rows, r)
  {
    var rows' := SaveRow(rows, r);
    SaveKeepsEvents(rows, r);
    forall i | 0 <= i < |rows'| ensures Accounted(rows'[i], None, tally) {
      assert Accounted(rows[i], Some(r), tally);
    }
    forall id | id in tally ensures HasId(rows', id) {
      var i :| 0 <= i < |rows| && rows[i].id == id;
      assert rows'[i].id == id;
    }
    forall q | q in rows && (q.id != r.id || q.status != Pending) ensures q in rows' {
      var i :| 0 <= i < |rows| && rows[i] == q;
      assert Accounted(rows[i], Some(r), tally);
      assert rows'[i] == q;
    }
  }

  lemma AccountLost(rows: seq<Row>, r: Row, tally: map<string, Tally>)
    requires AllAccounted(rows, Some(r), tally) && Tallied(rows, tally) && HasId(rows, r.id)
    ensures AllAccounted(rows, None, CountedLost(tally, r)) && Tallied(rows, CountedLost(tally, r))
  {
    forall i | 0 <= i < |rows| ensures Accounted(rows[i], None, CountedLost(tally, r)) {
      assert Accounted(rows[i], Some(r), tally);
    }
  }

  lemma UpToDateAcross(rows: seq<Row>, rows': seq<Row>, b: Batch)
    requires UpToDate(rows, b)
    requires forall q :: q in rows && (b.ready.None? || q.id != b.ready.value.id) ==> q in rows'
    ensures UpToDate(rows', b) && UpToDate(rows', Batch(b.todo, None))
  {
  }

  lemma UpToDateRest(rows: seq<Row>, todo: seq<Row>, r: Row)
    requires UpToDate(rows, Batch(todo, None)) && todo != [] && r.id == todo[0].id
    ensures UpToDate(rows, Batch(todo[1..], Some(r)))
  {
  }

  /** What the invariant says of the one batch under way. */
  lemma TheBatch(s: State, w: nat)
    requires SoleInv(s) && w in s.batches
    ensures Busy(s, w) && BatchOk(s, s.batches[w])
    ensures
      var b := s.batches[w];
      b.ready.Some? ==> Known(s.rows, b.ready.value) && HasId(s.rows, b.ready.value.id)
  {
    var v :| v in s.batches && Busy(s, v);
    var b := s.batches[w];
    if b.ready.Some? {
      assert CopyOk(s, b.ready.value);
      var i :| 0 <= i < |s.rows| && SameEvent(s.rows[i], b.ready.value);
      assert s.rows[i].id == b.ready.value.id;
    }
  }

  /** The invariant after the one batch `w` has moved on to `b`. */
  lemma Moved(s: State, s': State, w: nat, b: Batch)
    requires w in s.batches && s.batches == map[w := s.batches[w]] && s'.batches == Put(s.batches, w, b)
    requires Inv(s') && Tallied(s'.rows, s'.tally)
    requires UpToDate(s'.rows, b) && AllAccounted(s'.rows, b.ready, s'.tally)
    ensures SoleInv(s')
  {
    if b.todo == [] && b.ready.None? {
      assert s'.batches == map[];
      assert Idle(s');
    } else {
      assert s'.batches == map[w := b];
      assert Busy(s', w);
    }
  }

  lemma SoleAppend(s: State, event: Event, id: string, now: int)
    requires SoleInv(s) && Enabled(s, Append(event, id, now))
    ensures SoleInv(Apply(s, Append(event, id, now)))
    ensures forall q :: q in s.rows ==> q in Apply(s, Append(event, id, now)).rows
  {
    var s', r := Apply(s, Append(event, id, now)), NewRow(event, id, now);
    StepKeepsInv(s, Append(event, id, now));
    if Idle(s) {
      AccountAppend(s.rows, r, None, s.tally);
    } else {
      var w :| w in s.batches && Busy(s, w);
      var b := s.batches[w];
      TheBatch(s, w);
      AccountAppend(s.rows, r, b.ready, s.tally);
      UpToDateAcross(s.rows, s'.rows, b);
      assert Busy(s', w);
    }
  }

  lemma SolePoll(s: State, w: nat, fetched: seq<Row>)
    requires SoleInv(s) && SoleEnabled(s, Poll(w, fetched))
    ensures SoleInv(Apply(s, Poll(w, fetched)))
  {
    StepKeepsInv(s, Poll(w, fetched));
    assert Idle(s);
    if fetched != [] {
      assert Apply(s, Poll(w, fetched)).batches[w] == Batch(fetched, None);
      assert Busy(Apply(s, Poll(w, fetched)), w);
    }
  }

  lemma SoleForward(s: State, w: nat, outcome: Ingest, now: int)
    requires SoleInv(s) && Enabled(s, Forward(w, outcome, now))
    ensures SoleInv(Apply(s, Forward(w, outcome, now)))
  {
    StepKeepsInv(s, Forward(w, outcome, now));
    var s', b := Apply(s, Forward(w, outcome, now)), s.batches[w];
    TheBatch(s, w);
    assert CopyOk(s, b.todo[0]);
    AccountForward(s.rows, b.todo[0], outcome, now, s.tally);
    UpToDateRest(s.rows, b.todo, Attempted(b.todo[0], outcome, now));
    Moved(s, s', w, Batch(b.todo[1..], Some(Attempted(b.todo[0], outcome, now))));
  }

  lemma SoleSave(s: State, w: nat, ok: bool)
    requires SoleInv(s) && Enabled(s, Save(w, ok))
    ensures SoleInv(Apply(s, Save(w, ok)))
    ensures forall q :: q in s.rows && q.status != Pending ==> q in Apply(s, Save(w, ok)).rows
  {
    StepKeepsInv(s, Save(w, ok));
    var s', b := Apply(s, Save(w, ok)), s.batches[w];
    TheBatch(s, w);
    if ok {
      AccountSave(s.rows, b.ready.value, s.tally);
    } else {
      AccountLost(s.rows, b.ready.value, s.tally);
    }
    UpToDateAcross(s.rows, s'.rows, b);
    Moved(s, s', w, Batch(b.todo, None));
  }

  lemma SoleCrash(s: State, w: nat)
    requires SoleInv(s) && Enabled(s, Crash(w))
    ensures SoleInv(Apply(s, Crash(w)))
  {
    StepKeepsInv(s, Crash(w));
    TheBatch(s, w);
    if s.batches[w].ready.Some? {
      AccountLost(s.rows, s.batches[w].ready.value, s.tally);
    }
    assert Idle(Apply(s, Crash(w)));
  }

  lemma SoleStep(s: State, a: Action)
    requires SoleInv(s) && SoleEnabled(s, a)
    ensures SoleInv(Apply(s, a))
    ensures forall r :: r in s.rows && r.status != Pending ==> r in Apply(s, a).rows
  {
    match a
    case Append(event, id, now) => SoleAppend(s, event, id, now);
    case Poll(w, fetched) => SolePoll(s, w, fetched);
    case Forward(w, outcome, now) => SoleForward(s, w, outcome, now);
    case Save(w, ok) => SoleSave(s, w, ok);
    case Crash(w) => SoleCrash(s, w);
  }

  lemma {:induction false} SoleRunKeeps(s: State, acts: seq<Action>)
    requires SoleInv(s) && SoleRun(s, acts)
    ensures AllEnabled(s, acts) && SoleInv(Run(s, acts))
    ensures forall r :: r in s.rows && r.status != Pending ==> r in Run(s, acts).rows
    decreases acts
  {
    SoleRunIsEnabled(s, acts);
    if acts != [] {
      SoleStep(s, acts[0]);
      SoleRunKeeps(Apply(s, acts[0]), acts[1..]);
    }
  }

  /**
   * Conservation: of every row that no batch holds unsaved, acknowledgements and
   * errors are exactly what the row says plus the outcomes that were lost.
   */
  lemma Conservation(acts: seq<Action>)
    requires SoleRun(INITIAL, acts)
    ensures AllEnabled(INITIAL, acts)
    ensures
      var s := Run(INITIAL, acts);
      && |s.batches| <= 1
      && (forall r :: r in s.rows && (forall w :: w in s.batches ==> s.batches[w].ready.None? || s.batches[w].ready.value.id != r.id) ==>
            var t := TallyOf(s.tally, r.id);
            && t.acked == (if r.status == Processed then 1 else 0) + t.lostAcked
            && t.errors == r.attempts + t.lostErrors)
  {
    SoleRunKeeps(INITIAL, acts);
    var s := Run(INITIAL, acts);
    if !Idle(s) {
      var w :| w in s.batches && Busy(s, w);
      assert s.batches.Keys == {w};
    }
    forall r | r in s.rows && (forall w :: w in s.batches ==> s.batches[w].ready.None? || s.batches[w].ready.value.id != r.id)
      ensures Exact(r, TallyOf(s.tally, r.id))
    {
      var i :| 0 <= i < |s.rows| && s.rows[i] == r;
      if Idle(s) {
        assert Accounted(s.rows[i], None, s.tally);
      } else {
        var w :| w in s.batches && Busy(s, w);
        assert Accounted(s.rows[i], s.batches[w].ready, s.tally);
      }
    }
  }

  /** With nothing lost, an event is acknowledged at most once and offered to the backbone at most five times. */
  lemma AtMostOnceAcknowledged(acts: seq<Action>)
    requires SoleRun(INITIAL, acts)
    ensures AllEnabled(INITIAL, acts)
    ensures
      var s := Run(INITIAL, acts);
      forall r :: r in s.rows && TallyOf(s.tally, r.id).lostAcked == 0 && TallyOf(s.tally, r.id).lostErrors == 0 ==>
        var t := TallyOf(s.tally, r.id);
        t.acked <= 1 && t.acked + t.errors <= 5
  {
    SoleRunKeeps(INITIAL, acts);
    var s := Run(INITIAL, acts);
    forall r | r in s.rows && TallyOf(s.tally, r.id).lostAcked == 0 && TallyOf(s.tally, r.id).lostErrors == 0
      ensures TallyOf(s.tally, r.id).acked <= 1 && TallyOf(s.tally, r.id).acked + TallyOf(s.tally, r.id).errors <= 5
    {
      var i :| 0 <= i < |s.rows| && s.rows[i] == r;
      assert Backed(r, TallyOf(s.tally, r.id));
      if Idle(s) {
        assert Accounted(r, None, s.tally);
      } else {
        var w :| w in s.batches && Busy(s, w);
        assert Accounted(r, s.batches[w].ready, s.tally);
        assert BatchOk(s, s.batches[w]);
      }
    }
  }

  /** An outcome, once stored, is final: from any point of the run on, the row never changes again. */
  lemma OutcomeIsFinal(before: seq<Action>, after: seq<Action>)
    requires SoleRun(INITIAL, before)
    requires AllEnabled(INITIAL, before) && SoleRun(Run(INITIAL, before), after)
    ensures AllEnabled(Run(INITIAL, before), after)
    ensures
      forall r :: r in Run(INITIAL, before).rows && r.status != Pending ==> r in Run(Run(INITIAL, before), after).rows
  {
    SoleRunKeeps(INITIAL, before);
    SoleRunKeeps(Run(INITIAL, before), after);
  }

  // ---------------------------------------------------------------------
  // Overlapping batches
  // ---------------------------------------------------------------------

  predicate ProcessedAt(rows: seq<Row>, id: string) {
    exists i :: 0 <= i < |rows| && rows[i].id == id && rows[i].status == Processed
  }

  predicate StaysProcessed(rows: seq<Row>, rows': seq<Row>) {
    forall i :: 0 <= i < |rows| && rows[i].status == Processed ==> ProcessedAt(rows', rows[i].id)
  }

  /** The step writes back a copy that is not processed over a row that already is. */
  predicate StaleSave(s: State, a: Action) {
    a.Save? && a.ok && a.w in s.batches && s.batches[a.w].ready.Some? &&
    s.batches[a.w].ready.value.status != Processed && ProcessedAt(s.rows, s.batches[a.w].ready.value.id)
  }

  lemma SaveStaysProcessedIff(rows: seq<Row>, r: Row)
    requires SortedByCreation(rows) && UniqueIds(rows) && Known(rows, r)
    ensures StaysProcessed(rows, SaveRow(rows, r)) <==> r.status == Processed || !ProcessedAt(rows, r.id)
  {
    SaveKeepsEvents(rows, r);
    var rows' := SaveRow(rows, r);
    if r.status != Processed && ProcessedAt(rows, r.id) {
      var i :| 0 <= i < |rows| && rows[i].id == r.id && rows[i].status == Processed;
      assert forall j :: 0 <= j < |rows| && rows'[j].id == r.id ==> j == i;
      assert !ProcessedAt(rows', rows[i].id);
    } else {
      forall i | 0 <= i < |rows| && rows[i].status == Processed ensures ProcessedAt(rows', rows[i].id) {
        assert rows'[i].id == rows[i].id && rows'[i].status == Processed;
      }
    }
  }

  lemma SameRowsStay(rows: seq<Row>, rows': seq<Row>)
    requires forall r :: r in rows ==> r in rows'
    ensures StaysProcessed(rows, rows')
  {
    forall i | 0 <= i < |rows| && rows[i].status == Processed ensures ProcessedAt(rows', rows[i].id) {
      assert rows[i] in rows';
      var j :| 0 <= j < |rows'| && rows'[j] == rows[i];
    }
  }

  /** A step keeps every processed row processed exactly when it is not a stale save. */
  lemma ProcessedStaysIff(s: State, a: Action)
    requires Inv(s) && Enabled(s, a)
    ensures StaysProcessed(s.rows, Apply(s, a).rows) <==> !StaleSave(s, a)
  {
    hide SaveRow, Insert, StaysProcessed, ProcessedAt, SortedByCreation, UniqueIds, Backed;
    if a.Save? && a.ok {
      assert BatchOk(s, s.batches[a.w]) && CopyOk(s, s.batches[a.w].ready.value);
      SaveStaysProcessedIff(s.rows, s.batches[a.w].ready.value);
    } else {
      if a.Append? {
        RowsOfInsert(s.rows, NewRow(a.event, a.id, a.now));
      }
      SameRowsStay(s.rows, Apply(s, a).rows);
    }
  }

  lemma Prepend(s: State, a: Action, rest: seq<Action>)
    requires Enabled(s, a) && AllEnabled(Apply(s, a), rest)
    ensures AllEnabled(s, [a] + rest) && Run(s, [a] + rest) == Run(Apply(s, a), rest)
  {
    assert ([a] + rest)[1..] == rest;
  }

  /**
   * Two overlapping batches: the first forwards the event and marks its row, the
   * second fails to and writes its stale copy back. The row is pending again
   * although the backbone has acknowledged the event and no save was lost.
   */
  lemma OverlapUndoesOutcome(e: Event, id: string) returns (before: seq<Action>, after: seq<Action>)
    ensures AllEnabled(INITIAL, before) && AllEnabled(Run(INITIAL, before), after)
    ensures
      var r := NewRow(e, id, 0);
      var mid, end := Run(INITIAL, before), Run(Run(INITIAL, before), after);
      && mid.rows == [MarkedProcessed(r, 1)]
      && end.rows == [AttemptFailed(r, "timed out", MAX_ATTEMPTS)] && end.rows[0].status == Pending
      && TallyOf(end.tally, id) == Tally(1, 1, 1, 0, 0)
  {
    var r := NewRow(e, id, 0);
    var processed, failed := MarkedProcessed(r, 1), AttemptFailed(r, "timed out", MAX_ATTEMPTS);
    var a0, a1, a2 := Append(e, id, 0), Poll(0, [r]), Poll(1, [r]);
    var a3, a4 := Forward(0, Accepted, 1), Save(0, true);
    var a5, a6 := Forward(1, Rejected("timed out"), 2), Save(1, true);
    var s0 := INITIAL;
    assert Enabled(s0, a0);
    var s1 := Apply(s0, a0);
    assert s1.rows == [r];
    assert r in s1.rows;
    var s2 := Apply(s1, a1);
    var s3 := Apply(s2, a2);
    var s4 := Apply(s3, a3);
    var s5 := Apply(s4, a4);
    assert HasId([r], id) by { assert [r][0].id == id; }
    assert s5.rows == [processed];
    var s6 := Apply(s5, a5);
    var s7 := Apply(s6, a6);
    assert HasId([processed], id) by { assert [processed][0].id == id; }
    assert s7.rows == [failed];
    Prepend(s4, a4, []);
    Prepend(s3, a3, [a4]);
    Prepend(s2, a2, [a3] + [a4]);
    Prepend(s1, a1, [a2] + ([a3] + [a4]));
    Prepend(s0, a0, [a1] + ([a2] + ([a3] + [a4])));
    assert [a4] + [] == [a4];
    before := [a0] + ([a1] + ([a2] + ([a3] + [a4])));
    Prepend(s6, a6, []);
    Prepend(s5, a5, [a6]);
    assert [a6] + [] == [a6];
    after := [a5] + [a6];
  }

  // ---------------------------------------------------------------------
  // The service's method is a run of the machine
  // ---------------------------------------------------------------------

  function EntryActions(w: nat, i: nat, n: nat, world: World): seq<Action>
    decreases n - i
  {
    if i >= n then []
    else [Forward(w, world(i).ingest, world(i).now)] + ([Save(w, world(i).saved)] + EntryActions(w, i + 1, n, world))
  }

  lemma {:induction false} EntriesRun(s: State, w: nat, rows0: seq<Row>, i: nat, n: nat, world: World)
    requires UniqueIds(rows0) && i <= n <= |PendingRows(rows0)|
    requires s.rows == Polled(rows0, i, world, 0)
    requires i < n ==> w in s.batches && s.batches[w] == Batch(PendingRows(rows0)[i..n], None)
    requires i == n ==> w !in s.batches
    ensures AllEnabled(s, EntryActions(w, i, n, world))
    ensures Run(s, EntryActions(w, i, n, world)).rows == Polled(rows0, n, world, 0)
    ensures w !in Run(s, EntryActions(w, i, n, world)).batches
    decreases n - i
  {
    if i < n {
      var p := PendingRows(rows0)[i..n];
      var forward, save := Forward(w, world(i).ingest, world(i).now), Save(w, world(i).saved);
      var s1 := Apply(s, forward);
      var r := Attempted(p[0], world(i).ingest, world(i).now);
      assert s1.batches[w] == Batch(p[1..], Some(r));
      var s2 := Apply(s1, save);
      PolledStep(rows0, i, world, 0);
      assert p[1..] == PendingRows(rows0)[i + 1..n];
      EntriesRun(s2, w, rows0, i + 1, n, world);
      Prepend(s1, save, EntryActions(w, i + 1, n, world));
      Prepend(s, forward, [save] + EntryActions(w, i + 1, n, world));
    }
  }

  /** What ProcessBatch does to the table is what the machine does when one batch runs undisturbed. */
  lemma BatchIsARun(s: State, w: nat, world: World)
    requires Inv(s) && w !in s.batches
    ensures
      var fetched := OldestPending(s.rows, BATCH_SIZE);
      var acts := [Poll(w, fetched)] + EntryActions(w, 0, |fetched|, world);
      && AllEnabled(s, acts)
      && Run(s, acts).rows == Polled(s.rows, BATCH_SIZE, world, 0)
      && w !in Run(s, acts).batches
  {
    var fetched, pending := OldestPending(s.rows, BATCH_SIZE), PendingRows(s.rows);
    OldestPendingIsPossible(s.rows, BATCH_SIZE);
    var poll := Poll(w, fetched);
    assert fetched == pending[0..|fetched|];
    assert Polled(s.rows, 0, world, 0) == s.rows;
    EntriesRun(Apply(s, poll), w, s.rows, 0, |fetched|, world);
    Prepend(s, poll, EntryActions(w, 0, |fetched|, world));
    if |pending| <= BATCH_SIZE {
      LimitBeyondPending(s.rows, BATCH_SIZE, world, 0);
    }
  }
}
