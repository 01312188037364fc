/**
 * The forwarding protocol as a step machine.
 *
 * The timer starts a batch without waiting for the previous one, so any number
 * of batches may be under way. Each holds private copies of the rows it fetched
 * and writes whole rows back, so a write may be stale. Ingest and save may fail
 * at any time and a batch may be cut off.
 */
module OutboxProtocol {
  import opened Wrappers
  import opened Events
  import opened OutboxEntries
  import opened OutboxTable

  /** A batch under way: copies still to forward, and the copy that is forwarded but not yet saved. */
  datatype Batch = Batch(todo: seq<Row>, ready: Option<Row>)

  /** What really happened to the event of one row, whatever the table says. */
  datatype Tally = Tally(
    stored: nat,      // ingest calls after which the backbone held the event
    acked: nat,       // ingest calls that returned normally
    errors: nat,      // ingest calls that threw
    lostAcked: nat,   // outcomes "acknowledged" that were never written back
    lostErrors: nat)  // outcomes "error" that were never written back

  datatype State = State(rows: seq<Row>, batches: map<nat, Batch>, tally: map<string, Tally>)

  datatype Action =
    | Append(event: Event, id: string, now: int)
    | Poll(w: nat, fetched: seq<Row>)
    | Forward(w: nat, outcome: Ingest, now: int)
    | Save(w: nat, ok: bool)
    | Crash(w: nat)

  const INITIAL := State([], map[], map[])

  function TallyOf(tally: map<string, Tally>, id: string): Tally {
    if id in tally then tally[id] else Tally(0, 0, 0, 0, 0)
  }

  function Counted(tally: map<string, Tally>, id: string, outcome: Ingest): map<string, Tally> {
    var t := TallyOf(tally, id);
    tally[id := t.(
      stored := t.stored + if outcome.Stored() then 1 else 0,
      acked := t.acked + if outcome.Accepted? then 1 else 0,
      errors := t.errors + if outcome.Accepted? then 0 else 1)]
  }

  function CountedLost(tally: map<string, Tally>, r: Row): map<string, Tally> {
    var t := TallyOf(tally, r.id);
    tally[r.id := if r.status == Processed
                  then t.(lostAcked := t.lostAcked + 1)
                  else t.(lostErrors := t.lostErrors + 1)]
  }

  function Put(batches: map<nat, Batch>, w: nat, b: Batch): map<nat, Batch> {
    if b.todo == [] && b.ready.None? then batches - {w} else batches[w := b]
  }

  predicate Enabled(s: State, a: Action) {
    match a
    case Append(_, id, _) => !HasId(s.rows, id)
    case Poll(w, fetched) => w !in s.batches && PossibleFetch(s.rows, BATCH_SIZE, fetched)
    case Forward(w, _, _) => w in s.batches && s.batches[w].ready.None? && s.batches[w].todo != []
    case Save(w, _) => w in s.batches && s.batches[w].ready.Some?
    case Crash(w) => w in s.batches
  }

  function Apply(s: State, a: Action): State
    requires Enabled(s, a)
  {
    match a
    case Append(event, id, now) => s.(rows := Insert(s.rows, NewRow(event, id, now)))
    case Poll(w, fetched) => s.(batches := Put(s.batches, w, Batch(fetched, None)))
    case Forward(w, outcome, now) =>
      var b := s.batches[w];
      var r := Attempted(b.todo[0], outcome, now);
      s.(batches := Put(s.batches, w, Batch(b.todo[1..], Some(r))), tally := Counted(s.tally, r.id, outcome))
    case Save(w, ok) =>
      var b := s.batches[w];
      s.(rows := if ok then SaveRow(s.rows, b.ready.value) else s.rows,
         batches := Put(s.batches, w, Batch(b.todo, None)),
         tally := if ok then s.tally else CountedLost(s.tally, b.ready.value))
    case Crash(w) =>
      var b := s.batches[w];
      s.(batches := s.batches - {w},
         tally := if b.ready.Some? then CountedLost(s.tally, b.ready.value) else s.tally)
  }

  predicate AllEnabled(s: State, acts: seq<Action>)
    decreases acts
  {
    acts == [] || (Enabled(s, acts[0]) && AllEnabled(Apply(s, acts[0]), acts[1..]))
  }

  function Run(s: State, acts: seq<Action>): State
    requires AllEnabled(s, acts)
    decreases acts
  {
    if acts == [] then s else Run(Apply(s, acts[0]), acts[1..])
  }

  // ---------------------------------------------------------------------
  // What holds in every interleaving
  // ---------------------------------------------------------------------

  predicate AtMost(t: Tally, t': Tally) {
    t.stored <= t'.stored && t.acked <= t'.acked && t.errors <= t'.errors
  }

  /** What the row claims really happened. */
  predicate Backed(r: Row, t: Tally) {
    && Legal(r)
    && r.attempts <= t.errors
    && t.acked <= t.stored
    && (r.status == Processed ==> t.acked >= 1)
  }

  predicate Known(rows: seq<Row>, r: Row) {
    exists i :: 0 <= i < |rows| && SameEvent(rows[i], r)
  }

  predicate CopyOk(s: State, r: Row) {
    Backed(r, TallyOf(s.tally, r.id)) && Known(s.rows, r)
  }

  predicate BatchOk(s: State, b: Batch) {
    && (forall i :: 0 <= i < |b.todo| ==> b.todo[i].status == Pending && CopyOk(s, b.todo[i]))
    && (b.ready.Some? ==> CopyOk(s, b.ready.value))
  }

  predicate RowsOk(s: State) {
    forall i :: 0 <= i < |s.rows| ==> Backed(s.rows[i], TallyOf(s.tally, s.rows[i].id))
  }

  ghost predicate AckedWasStored(tally: map<string, Tally>) {
    forall id :: TallyOf(tally, id).acked <= TallyOf(tally, id).stored
  }

  ghost predicate Counting(tally: map<string, Tally>, tally': map<string, Tally>) {
    forall id :: AtMost(TallyOf(tally, id), TallyOf(tally', id))
  }

  lemma CountingFacts(tally: map<string, Tally>, r: Row, outcome: Ingest)
    requires AckedWasStored(tally)
    ensures AckedWasStored(Counted(tally, r.id, outcome)) && Counting(tally, Counted(tally, r.id, outcome))
    ensures AckedWasStored(CountedLost(tally, r)) && Counting(tally, CountedLost(tally, r))
  {
    forall id
      ensures TallyOf(Counted(tally, r.id, outcome), id).acked <= TallyOf(Counted(tally, r.id, outcome), id).stored
      ensures TallyOf(CountedLost(tally, r), id).acked <= TallyOf(CountedLost(tally, r), id).stored
    {
      assert TallyOf(tally, id).acked <= TallyOf(tally, id).stored;
    }
  }

  ghost predicate Inv(s: State) {
    && SortedByCreation(s.rows) && UniqueIds(s.rows)
    && RowsOk(s)
    && (forall w :: w in s.batches ==> BatchOk(s, s.batches[w]))
    && AckedWasStored(s.tally)
  }

  /** Later states know at least as much: counters grow and every event stays in the table. */
  ghost predicate Grown(s: State, s': State) {
    && Counting(s.tally, s'.tally)
    && (forall i :: 0 <= i < |s.rows| ==> Known(s'.rows, s.rows[i]))
  }

  lemma KnownAcross(s: State, s': State, r: Row)
    requires Grown(s, s') && Known(s.rows, r)
    ensures Known(s'.rows, r)
  {
    var i :| 0 <= i < |s.rows| && SameEvent(s.rows[i], r);
    var j :| 0 <= j < |s'.rows| && SameEvent(s'.rows[j], s.rows[i]);
    assert SameEvent(s'.rows[j], r);
  }

  lemma BatchAcross(s: State, s': State, b: Batch)
    requires Grown(s, s') && BatchOk(s, b)
    requires AckedWasStored(s'.tally)
    ensures BatchOk(s', b)
  {
    forall i | 0 <= i < |b.todo| ensures CopyOk(s', b.todo[i]) {
      KnownAcross(s, s', b.todo[i]);
      assert AtMost(TallyOf(s.tally, b.todo[i].id), TallyOf(s'.tally, b.todo[i].id));
    }
    if b.ready.Some? {
      KnownAcross(s, s', b.ready.value);
      assert AtMost(TallyOf(s.tally, b.ready.value.id), TallyOf(s'.tally, b.ready.value.id));
    }
  }

  /** Overwriting a row of the table leaves every event where it was. */
  lemma SaveKeepsEvents(rows: seq<Row>, r: Row)
    requires SortedByCreation(rows) && UniqueIds(rows) && Known(rows, r)
    ensures
      var rows' := SaveRow(rows, r);
      && |rows'| == |rows|
      && (forall i :: 0 <= i < |rows| ==> SameEvent(rows[i], rows'[i]) && rows'[i] == if rows[i].id == r.id then r else rows[i])
      && SortedByCreation(rows') && UniqueIds(rows')
  {
    var j :| 0 <= j < |rows| && SameEvent(rows[j], r);
    assert rows[j].id == r.id;
    forall i | 0 <= i < |rows| ensures SameEvent(rows[i], SaveRow(rows, r)[i]) {
      assert rows[i].id == r.id ==> i == j;
    }
  }

  lemma InsertKeepsEvents(s: State, s': State, r: Row)
    requires RowsOk(s) && Backed(r, TallyOf(s.tally, r.id))
    requires s'.rows == Insert(s.rows, r) && s'.tally == s.tally
    ensures RowsOk(s') && Grown(s, s')
  {
    var k := Slot(s.rows, r.createdAt);
    forall i | 0 <= i < |s'.rows| ensures Backed(s'.rows[i], TallyOf(s'.tally, s'.rows[i].id)) {
      assert s'.rows[i] == if i < k then s.rows[i] else if i == k then r else s.rows[i - 1];
    }
    forall i | 0 <= i < |s.rows| ensures Known(s'.rows, s.rows[i]) {
      assert SameEvent(s'.rows[if i < k then i else i + 1], s.rows[i]);
    }
  }

  lemma SameRowsOk(s: State, s': State)
    requires RowsOk(s) && AckedWasStored(s'.tally) && Counting(s.tally, s'.tally)
    requires s'.rows == s.rows
    ensures RowsOk(s') && Grown(s, s')
  {
    forall i | 0 <= i < |s.rows|
      ensures Known(s'.rows, s.rows[i]) && Backed(s'.rows[i], TallyOf(s'.tally, s'.rows[i].id))
    {
      assert SameEvent(s'.rows[i], s.rows[i]);
      assert AtMost(TallyOf(s.tally, s'.rows[i].id), TallyOf(s'.tally, s'.rows[i].id));
    }
  }

  lemma AppendKeepsInv(s: State, event: Event, id: string, now: int)
    requires Inv(s) && Enabled(s, Append(event, id, now))
    ensures Inv(Apply(s, Append(event, id, now))) && Grown(s, Apply(s, Append(event, id, now)))
  {
    var s', r := Apply(s, Append(event, id, now)), NewRow(event, id, now);
    assert TallyOf(s.tally, id).acked <= TallyOf(s.tally, id).stored;
    InsertKeepsOrder(s.rows, r);
    InsertKeepsUnique(s.rows, r);
    InsertKeepsEvents(s, s', r);
    forall w | w in s'.batches ensures BatchOk(s', s'.batches[w]) {
      BatchAcross(s, s', s.batches[w]);
    }
  }

  lemma FetchedOk(s: State, fetched: seq<Row>)
    requires RowsOk(s) && PossibleFetch(s.rows, BATCH_SIZE, fetched)
    ensures BatchOk(s, Batch(fetched, None))
  {
    forall i | 0 <= i < |fetched| ensures fetched[i].status == Pending && CopyOk(s, fetched[i]) {
      assert fetched[i] in fetched;
      var j :| 0 <= j < |s.rows| && s.rows[j] == fetched[i];
      assert SameEvent(s.rows[j], fetched[i]);
    }
  }

  lemma PollKeepsInv(s: State, w: nat, fetched: seq<Row>)
    requires Inv(s) && Enabled(s, Poll(w, fetched))
    ensures Inv(Apply(s, Poll(w, fetched))) && Grown(s, Apply(s, Poll(w, fetched)))
  {
    var s' := Apply(s, Poll(w, fetched));
    SameRowsOk(s, s');
    FetchedOk(s, fetched);
    forall v | v in s'.batches ensures BatchOk(s', s'.batches[v]) {
      BatchAcross(s, s', if v == w then Batch(fetched, None) else s.batches[v]);
    }
  }

  lemma ForwardEffects(s: State, w: nat, outcome: Ingest, now: int)
    requires Enabled(s, Forward(w, outcome, now))
    ensures var s', b := Apply(s, Forward(w, outcome, now)), s.batches[w];
            var r := Attempted(b.todo[0], outcome, now);
            && s'.rows == s.rows && s'.tally == Counted(s.tally, r.id, outcome)
            && (forall v :: v in s'.batches ==> v in s.batches)
            && forall v :: v in s'.batches ==> s'.batches[v] == if v == w then Batch(b.todo[1..], Some(r)) else s.batches[v]
  {
  }

  /** After an attempt the copy claims no more than has happened by then. */
  lemma AttemptedIsOk(s: State, s': State, copy: Row, outcome: Ingest, now: int)
    requires CopyOk(s, copy) && copy.status == Pending && s'.rows == s.rows
    requires s'.tally == Counted(s.tally, Attempted(copy, outcome, now).id, outcome) && AckedWasStored(s'.tally)
    ensures CopyOk(s', Attempted(copy, outcome, now))
  {
    AttemptKeepsLegal(copy, outcome, now);
    var i :| 0 <= i < |s.rows| && SameEvent(s.rows[i], copy);
    assert SameEvent(s'.rows[i], Attempted(copy, outcome, now));
  }

  lemma ForwardKeepsInv(s: State, w: nat, outcome: Ingest, now: int)
    requires Inv(s) && Enabled(s, Forward(w, outcome, now))
    ensures Inv(Apply(s, Forward(w, outcome, now))) && Grown(s, Apply(s, Forward(w, outcome, now)))
  {
    hide Apply, Attempted, Counted, TallyOf, SortedByCreation, UniqueIds, CopyOk, AckedWasStored;
    var s', b := Apply(s, Forward(w, outcome, now)), s.batches[w];
    ForwardEffects(s, w, outcome, now);
    assert BatchOk(s, b);
    CountingFacts(s.tally, Attempted(b.todo[0], outcome, now), outcome);
    SameRowsOk(s, s');
    AttemptedIsOk(s, s', b.todo[0], outcome, now);
    forall v | v in s'.batches ensures BatchOk(s', s'.batches[v]) {
      assert BatchOk(s, s.batches[v]);
      BatchAcross(s, s', s.batches[v]);
    }
  }

  lemma SavedRowsOk(s: State, s': State, r: Row)
    requires RowsOk(s) && Backed(r, TallyOf(s.tally, r.id)) && AckedWasStored(s'.tally) && Counting(s.tally, s'.tally)
    requires |s'.rows| == |s.rows|
    requires forall i :: 0 <= i < |s.rows| ==> SameEvent(s.rows[i], s'.rows[i])
    requires forall i :: 0 <= i < |s.rows| ==> s'.rows[i] == s.rows[i] || s'.rows[i] == r
    ensures RowsOk(s') && Grown(s, s')
  {
    forall i | 0 <= i < |s.rows|
      ensures Known(s'.rows, s.rows[i]) && Backed(s'.rows[i], TallyOf(s'.tally, s'.rows[i].id))
    {
      assert SameEvent(s'.rows[i], s.rows[i]);
      assert AtMost(TallyOf(s.tally, s'.rows[i].id), TallyOf(s'.tally, s'.rows[i].id));
    }
  }

  lemma SaveEffects(s: State, w: nat, ok: bool)
    requires Enabled(s, Save(w, ok))
    ensures var s', b := Apply(s, Save(w, ok)), s.batches[w];
            && s'.rows == (if ok then SaveRow(s.rows, b.ready.value) else s.rows)
            && s'.tally == (if ok then s.tally else CountedLost(s.tally, b.ready.value))
            && forall v :: v in s'.batches ==> v in s.batches && s'.batches[v] == if v == w then Batch(b.todo, None) else s.batches[v]
  {
  }

  lemma SaveKeepsInv(s: State, w: nat, ok: bool)
    requires Inv(s) && Enabled(s, Save(w, ok))
    ensures Inv(Apply(s, Save(w, ok))) && Grown(s, Apply(s, Save(w, ok)))
    ensures |Apply(s, Save(w, ok)).rows| == |s.rows|
  {
    hide Apply, SaveRow, CountedLost, TallyOf, SortedByCreation, UniqueIds, Backed, Known;
    var s', r := Apply(s, Save(w, ok)), s.batches[w].ready.value;
    SaveEffects(s, w, ok);
    assert CopyOk(s, r);
    SaveKeepsEvents(s.rows, r);
    CountingFacts(s.tally, r, Accepted);
    SameCounts(s.tally);
    SavedRowsOk(s, s', r);
    forall v | v in s'.batches ensures BatchOk(s', s'.batches[v]) {
      assert BatchOk(s, s.batches[v]);
      BatchAcross(s, s', s.batches[v]);
    }
  }

  lemma SameCounts(tally: map<string, Tally>)
    ensures Counting(tally, tally)
  {
  }

  lemma CrashKeepsInv(s: State, w: nat)
    requires Inv(s) && Enabled(s, Crash(w))
    ensures Inv(Apply(s, Crash(w))) && Grown(s, Apply(s, Crash(w)))
  {
    var s', b := Apply(s, Crash(w)), s.batches[w];
    if b.ready.Some? {
      CountingFacts(s.tally, b.ready.value, Accepted);
    }
    SameRowsOk(s, s');
    forall v | v in s'.batches ensures BatchOk(s', s'.batches[v]) {
      BatchAcross(s, s', s.batches[v]);
    }
  }

  lemma StepKeepsInv(s: State, a: Action)
    requires Inv(s) && Enabled(s, a)
    ensures Inv(Apply(s, a)) && Grown(s, Apply(s, a))
    ensures |Apply(s, a).rows| == |s.rows| + if a.Append? then 1 else 0
  {
    match a
    case Append(event, id, now) => AppendKeepsInv(s, event, id, now);
    case Poll(w, fetched) => PollKeepsInv(s, w, fetched);
    case Forward(w, outcome, now) => ForwardKeepsInv(s, w, outcome, now);
    case Save(w, ok) => SaveKeepsInv(s, w, ok);
    case Crash(w) => CrashKeepsInv(s, w);
  }

  function Appends(acts: seq<Action>): seq<Row> {
    if acts == [] then []
    else (if acts[0].Append? then [NewRow(acts[0].event, acts[0].id, acts[0].now)] else []) + Appends(acts[1..])
  }

  lemma {:induction false} RunKeepsInv(s: State, acts: seq<Action>)
    requires Inv(s) && AllEnabled(s, acts)
    ensures Inv(Run(s, acts)) && Grown(s, Run(s, acts))
    ensures |Run(s, acts).rows| == |s.rows| + |Appends(acts)|
    ensures forall r :: r in Appends(acts) ==> Known(Run(s, acts).rows, r)
    decreases acts
  {
    if acts == [] {
      assert forall i :: 0 <= i < |s.rows| ==> SameEvent(s.rows[i], s.rows[i]);
    } else {
      var s1 := Apply(s, acts[0]);
      var s2 := Run(s1, acts[1..]);
      StepKeepsInv(s, acts[0]);
      RunKeepsInv(s1, acts[1..]);
      forall i | 0 <= i < |s.rows| ensures Known(s2.rows, s.rows[i]) {
        KnownAcross(s1, s2, s.rows[i]);
      }
      if acts[0].Append? {
        var r := NewRow(acts[0].event, acts[0].id, acts[0].now);
        var k := Slot(s.rows, acts[0].now);
        assert SameEvent(s1.rows[k], r);
        KnownAcross(s1, s2, r);
      }
    }
  }

  /**
   * Safety over every interleaving: the table never claims more than happened,
   * and holds exactly the appended events, one row each.
   */
  lemma OutboxSafety(acts: seq<Action>)
    requires AllEnabled(INITIAL, acts)
    ensures
      var s := Run(INITIAL, acts);
      && (forall r :: r in s.rows ==>
            var t := TallyOf(s.tally, r.id);
            && r.attempts <= t.errors
            && (r.status == Processed ==> t.stored >= 1)
            && (r.status == Failed ==> r.attempts == 5 && t.errors >= 5)
            && (r.status == Pending ==> r.attempts <= 4))
      && |s.rows| == |Appends(acts)| && UniqueIds(s.rows)
      && (forall r :: r in Appends(acts) ==> exists r' :: r' in s.rows && SameEvent(r', r))
  {
    RunKeepsInv(INITIAL, acts);
    var s := Run(INITIAL, acts);
    forall r | r in s.rows
      ensures Backed(r, TallyOf(s.tally, r.id))
    {
      var i :| 0 <= i < |s.rows| && s.rows[i] == r;
    }
    forall r | r in Appends(acts) ensures exists r' :: r' in s.rows && SameEvent(r', r) {
      var i :| 0 <= i < |s.rows| && SameEvent(s.rows[i], r);
      assert s.rows[i] in s.rows;
    }
  }
}
