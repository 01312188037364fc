/**
 * The protocol told by its history alone: which publication each row stands for and where it
 * stands, and what the counters of the step machine count.
 */
module OutboxHistory {
  import opened Counting
  import opened Events
  import opened OutboxEntries
  import opened OutboxTable
  import opened OutboxProtocol

  // ---------------------------------------------------------------------
  // Runs, one action at a time from the end
  // ---------------------------------------------------------------------

  lemma {:induction false} RunSplits(s: State, a: seq<Action>, b: seq<Action>)
    requires AllEnabled(s, a + b)
    ensures AllEnabled(s, a) && AllEnabled(Run(s, a), b) && Run(s, a + b) == Run(Run(s, a), b)
    decreases a
  {
    if a == [] {
      assert a + b == b;
    } else {
      assert (a + b)[0] == a[0] && (a + b)[1..] == a[1..] + b;
      RunSplits(Apply(s, a[0]), a[1..], b);
    }
  }

  lemma RunOneMore(s: State, acts: seq<Action>, a: Action)
    requires AllEnabled(s, acts + [a])
    ensures AllEnabled(s, acts) && Enabled(Run(s, acts), a)
    ensures Run(s, acts + [a]) == Apply(Run(s, acts), a)
  {
    hide Apply, Enabled;
    RunSplits(s, acts, [a]);
    assert [a][0] == a && [a][1..] == [];
  }

  /** The state before action `k`. */
  lemma RunUpTo(acts: seq<Action>, k: nat)
    requires AllEnabled(INITIAL, acts) && k < |acts|
    ensures AllEnabled(INITIAL, acts[..k]) && Enabled(Run(INITIAL, acts[..k]), acts[k])
    ensures AllEnabled(INITIAL, acts[..k + 1])
    ensures Run(INITIAL, acts[..k + 1]) == Apply(Run(INITIAL, acts[..k]), acts[k])
  {
    hide Apply, Enabled, AllEnabled, Run;
    assert acts == acts[..k + 1] + acts[k + 1..];
    RunSplits(INITIAL, acts[..k + 1], acts[k + 1..]);
    assert acts[..k + 1] == acts[..k] + [acts[k]];
    RunOneMore(INITIAL, acts[..k], acts[k]);
  }

  // ---------------------------------------------------------------------
  // Rows and publications
  // ---------------------------------------------------------------------

  /** Row `r` holds what the append `a` published, column by column. */
  predicate Records(r: Row, a: Action) {
    && a.Append?
    && r.id == a.id && r.createdAt == a.now
    && r.eventId == a.event.eventId && r.eventType == a.event.eventType && r.eventVersion == a.event.eventVersion
    && r.tenantId == a.event.tenantId && r.correlationId == a.event.correlationId && r.actorId == a.event.actorId
    && r.causationId == a.event.causationId && r.traceId == a.event.traceId
    && r.sourceService == a.event.sourceService && r.sourceVersion == a.event.sourceVersion
    && r.payload == a.event.payload && r.occurredAt == a.event.occurredAt
  }

  /** The clock does not run backwards between appends. */
  predicate TimesGrow(acts: seq<Action>) {
    forall i, j :: 0 <= i < j < |acts| && acts[i].Append? && acts[j].Append? ==> acts[i].now <= acts[j].now
  }

  /** How many appends there are among the first n actions. */
  function Published(acts: seq<Action>, n: nat): nat {
    CountBelow(n, (k: nat) => k < |acts| && acts[k].Append?)
  }

  lemma InsertLast(rows: seq<Row>, r: Row)
    requires forall i :: 0 <= i < |rows| ==> rows[i].createdAt <= r.createdAt
    ensures Insert(rows, r) == rows + [r]
  {
    var k := Slot(rows, r.createdAt);
    assert k == |rows|;
  }

  /** What the first n actions leave: one row per append, in their order. */
  predicate RowsInOrder(acts: seq<Action>, n: nat, rows: seq<Row>)
    requires n <= |acts|
  {
    && |rows| == Published(acts, n)
    && forall k :: 0 <= k < n && acts[k].Append? ==> Published(acts, k) < |rows| && Records(rows[Published(acts, k)], acts[k])
  }

  lemma {:induction false} RowIsPublication(acts: seq<Action>, n: nat, rows: seq<Row>, i: nat) returns (k: nat)
    requires n <= |acts| && RowsInOrder(acts, n, rows) && i < |rows|
    ensures k < n && acts[k].Append? && Published(acts, k) == i
  {
    k := NthAppend(acts, n, i);
  }

  lemma {:induction false} NthAppend(acts: seq<Action>, n: nat, i: nat) returns (k: nat)
    requires n <= |acts| && i < Published(acts, n)
    ensures k < n && acts[k].Append? && Published(acts, k) == i
  {
    if i == Published(acts, n - 1) {
      k := n - 1;
    } else {
      k := NthAppend(acts, n - 1, i);
    }
  }

  lemma SameEventRecords(r: Row, r': Row, a: Action)
    requires SameEvent(r, r') && Records(r, a)
    ensures Records(r', a)
  {
  }

  /** An action other than an append leaves every event in its place. */
  lemma StepKeepsPlaces(s: State, a: Action)
    requires Inv(s) && Enabled(s, a) && !a.Append?
    ensures |Apply(s, a).rows| == |s.rows|
    ensures forall i :: 0 <= i < |s.rows| ==> SameEvent(s.rows[i], Apply(s, a).rows[i])
  {
    hide SortedByCreation, UniqueIds, RowsOk, AckedWasStored, SaveRow;
    if a.Save? && a.ok {
      assert BatchOk(s, s.batches[a.w]) && CopyOk(s, s.batches[a.w].ready.value);
      SaveKeepsEvents(s.rows, s.batches[a.w].ready.value);
    }
  }

  lemma {:induction false} OrderKept(acts: seq<Action>, n: nat)
    requires AllEnabled(INITIAL, acts) && TimesGrow(acts) && n <= |acts|
    ensures AllEnabled(INITIAL, acts[..n]) && Inv(Run(INITIAL, acts[..n]))
    ensures RowsInOrder(acts, n, Run(INITIAL, acts[..n]).rows)
  {
    if n > 0 {
      OrderKept(acts, n - 1);
      RunUpTo(acts, n - 1);
      OrderStep(acts, n - 1, Run(INITIAL, acts[..n - 1]));
    } else {
      assert acts[..0] == [];
      RunKeepsInv(INITIAL, []);
    }
  }

  lemma OrderStep(acts: seq<Action>, n: nat, s: State)
    requires n < |acts| && TimesGrow(acts) && Inv(s) && Enabled(s, acts[n]) && RowsInOrder(acts, n, s.rows)
    ensures Inv(Apply(s, acts[n])) && RowsInOrder(acts, n + 1, Apply(s, acts[n]).rows)
  {
    StepKeepsInv(s, acts[n]);
    if acts[n].Append? {
      AppendAtEnd(acts, n, s);
    } else {
      hide Inv, Apply, Enabled, Records, Published, TimesGrow;
      StepKeepsPlaces(s, acts[n]);
      NoAppend(acts, n);
      var rows' := Apply(s, acts[n]).rows;
      forall k | 0 <= k < n + 1 && acts[k].Append?
        ensures Published(acts, k) < |rows'| && Records(rows'[Published(acts, k)], acts[k])
      {
        SameEventRecords(s.rows[Published(acts, k)], rows'[Published(acts, k)], acts[k]);
      }
    }
  }

  lemma NoAppend(acts: seq<Action>, n: nat)
    requires n < |acts|
    ensures Published(acts, n + 1) == Published(acts, n) + if acts[n].Append? then 1 else 0
  {
  }

  lemma AppendAtEnd(acts: seq<Action>, n: nat, s: State)
    requires n < |acts| && TimesGrow(acts) && Enabled(s, acts[n]) && RowsInOrder(acts, n, s.rows) && acts[n].Append?
    ensures RowsInOrder(acts, n + 1, Apply(s, acts[n]).rows)
  {
    hide Published;
    var r := NewRow(acts[n].event, acts[n].id, acts[n].now);
    forall i | 0 <= i < |s.rows| ensures s.rows[i].createdAt <= r.createdAt {
      var k := RowIsPublication(acts, n, s.rows, i);
      assert Records(s.rows[i], acts[k]);
    }
    InsertLast(s.rows, r);
    NoAppend(acts, n);
  }

  /**
   * Whatever batches do in between, the row at place p holds what was published as number p,
   * column by column, created when it was published; and there is no other row.
   */
  lemma PublicationOrder(acts: seq<Action>, k: nat)
    requires AllEnabled(INITIAL, acts) && TimesGrow(acts) && k < |acts| && acts[k].Append?
    ensures var rows, p := Run(INITIAL, acts).rows, |set j: nat | j < k && acts[j].Append?|;
            |rows| == |set j: nat | j < |acts| && acts[j].Append?| && p < |rows| &&
            var r, e := rows[p], acts[k].event;
            && r.createdAt == acts[k].now && r.occurredAt == e.occurredAt
            && r.id == acts[k].id && r.eventId == e.eventId && r.eventType == e.eventType && r.eventVersion == e.eventVersion
            && r.tenantId == e.tenantId && r.correlationId == e.correlationId && r.actorId == e.actorId
            && r.causationId == e.causationId && r.traceId == e.traceId
            && r.sourceService == e.sourceService && r.sourceVersion == e.sourceVersion && r.payload == e.payload
  {
    hide Run, AllEnabled, Published;
    OrderKept(acts, |acts|);
    assert acts[..|acts|] == acts;
    SizeOfPublished(acts, k);
    SizeOfPublished(acts, |acts|);
  }

  lemma SizeOfPublished(acts: seq<Action>, n: nat)
    requires n <= |acts|
    ensures Published(acts, n) == |set j: nat | j < n && acts[j].Append?|
  {
    var p := (k: nat) => k < |acts| && acts[k].Append?;
    CountIsSize(n, p);
    CountSame(n, p, (k: nat) => k < |acts| && acts[k].Append?);
    assert forall j: nat :: j < n ==> p(j) == acts[j].Append?;
    assert (set j: nat | j < n && acts[j].Append?) == (set j: nat | j < n && p(j));
  }

  /**
   * A poll that fetches a publication also fetches every one that was published at an earlier
   * time and is still pending, and puts it ahead.
   */
  lemma EarlierFetchedFirst(acts: seq<Action>, k: nat, l: nat, fetched: seq<Row>)
    requires AllEnabled(INITIAL, acts) && TimesGrow(acts)
    requires k < |acts| && l < |acts| && acts[k].Append? && acts[l].Append? && acts[k].now < acts[l].now
    requires PossibleFetch(Run(INITIAL, acts).rows, BATCH_SIZE, fetched)
    requires exists r :: r in fetched && r.id == acts[l].id
    requires forall r :: r in Run(INITIAL, acts).rows && r.id == acts[k].id ==> r.status == Pending
    ensures exists a, b :: 0 <= a < b < |fetched| && fetched[a].id == acts[k].id && fetched[b].id == acts[l].id
  {
    var rows, p, q := Run(INITIAL, acts).rows, |set j: nat | j < k && acts[j].Append?|, |set j: nat | j < l && acts[j].Append?|;
    PublicationOrder(acts, k);
    PublicationOrder(acts, l);
    RunKeepsInv(INITIAL, acts);
    hide Run, AllEnabled, TimesGrow, RowsOk;
    FetchedAhead(rows, p, q, fetched);
  }

  lemma FetchedAhead(rows: seq<Row>, p: nat, q: nat, fetched: seq<Row>)
    requires UniqueIds(rows) && p < |rows| && q < |rows| && rows[p].createdAt < rows[q].createdAt
    requires PossibleFetch(rows, BATCH_SIZE, fetched) && rows[p].status == Pending
    requires exists r :: r in fetched && r.id == rows[q].id
    ensures exists a, b :: 0 <= a < b < |fetched| && fetched[a].id == rows[p].id && fetched[b].id == rows[q].id
  {
    var r :| r in fetched && r.id == rows[q].id;
    var n :| 0 <= n < |rows| && rows[n] == r;
    assert n == q;
    assert rows[p] in rows && rows[p] in fetched;
    var a :| 0 <= a < |fetched| && fetched[a] == rows[p];
    var b :| 0 <= b < |fetched| && fetched[b] == rows[q];
    assert a < b;
  }

  // ---------------------------------------------------------------------
  // What is counted
  // ---------------------------------------------------------------------

  /** Action `k` offers the row with that key to the backbone. */
  predicate Offers(acts: seq<Action>, id: string, k: nat) {
    && k < |acts| && acts[k].Forward? && AllEnabled(INITIAL, acts[..k])
    && var s := Run(INITIAL, acts[..k]);
    && Enabled(s, acts[k]) && s.batches[acts[k].w].todo[0].id == id
  }

  /** Action `k` loses the outcome, a success or not, of an attempt at that row: its save fails, or its batch is cut off. */
  predicate Loses(acts: seq<Action>, id: string, success: bool, k: nat) {
    && k < |acts| && AllEnabled(INITIAL, acts[..k])
    && var s := Run(INITIAL, acts[..k]);
    && Enabled(s, acts[k])
    && (acts[k].Crash? || (acts[k].Save? && !acts[k].ok))
    && s.batches[acts[k].w].ready.Some?
    && s.batches[acts[k].w].ready.value.id == id
    && (s.batches[acts[k].w].ready.value.status == Processed <==> success)
  }

  function StoredIn(acts: seq<Action>, id: string): nat -> bool {
    (k: nat) => Offers(acts, id, k) && !acts[k].outcome.Rejected?
  }

  function AckedIn(acts: seq<Action>, id: string): nat -> bool {
    (k: nat) => Offers(acts, id, k) && acts[k].outcome.Accepted?
  }

  function FailedIn(acts: seq<Action>, id: string): nat -> bool {
    (k: nat) => Offers(acts, id, k) && !acts[k].outcome.Accepted?
  }

  function LostIn(acts: seq<Action>, id: string, success: bool): nat -> bool {
    (k: nat) => Loses(acts, id, success, k)
  }

  function CountedUpTo(acts: seq<Action>, id: string, n: nat): Tally {
    Tally(CountBelow(n, StoredIn(acts, id)), CountBelow(n, AckedIn(acts, id)), CountBelow(n, FailedIn(acts, id)),
          CountBelow(n, LostIn(acts, id, true)), CountBelow(n, LostIn(acts, id, false)))
  }

  lemma {:induction false} TallyCounts(acts: seq<Action>, id: string, n: nat)
    requires AllEnabled(INITIAL, acts) && n <= |acts|
    ensures AllEnabled(INITIAL, acts[..n])
    ensures TallyOf(Run(INITIAL, acts[..n]).tally, id) == CountedUpTo(acts, id, n)
  {
    if n > 0 {
      TallyCounts(acts, id, n - 1);
      RunUpTo(acts, n - 1);
      TallyStep(acts, id, n - 1);
    } else {
      assert acts[..0] == [];
    }
  }

  lemma TallyStep(acts: seq<Action>, id: string, n: nat)
    requires n < |acts| && AllEnabled(INITIAL, acts[..n]) && Enabled(Run(INITIAL, acts[..n]), acts[n])
    requires TallyOf(Run(INITIAL, acts[..n]).tally, id) == CountedUpTo(acts, id, n)
    requires AttemptedRowsHaveKeys(Run(INITIAL, acts[..n]), acts[n])
    ensures TallyOf(Apply(Run(INITIAL, acts[..n]), acts[n]).tally, id) == CountedUpTo(acts, id, n + 1)
  {
    hide Run, AllEnabled, SaveRow, Insert, PossibleFetch;
  }

  /** An attempt does not change the key of the row. */
  predicate AttemptedRowsHaveKeys(s: State, a: Action) {
    a.Forward? && Enabled(s, a) ==> Attempted(s.batches[a.w].todo[0], a.outcome, a.now).id == s.batches[a.w].todo[0].id
  }

  /** The counters are sizes of sets of actions of the run. */
  lemma TallyIsHistory(acts: seq<Action>, id: string)
    requires AllEnabled(INITIAL, acts)
    ensures var t := TallyOf(Run(INITIAL, acts).tally, id);
            && t.stored == (|set k: nat | k < |acts| && Offers(acts, id, k) && !acts[k].outcome.Rejected?|)
            && t.acked == (|set k: nat | k < |acts| && Offers(acts, id, k) && acts[k].outcome.Accepted?|)
            && t.errors == (|set k: nat | k < |acts| && Offers(acts, id, k) && !acts[k].outcome.Accepted?|)
            && t.lostAcked == (|set k: nat | k < |acts| && Loses(acts, id, true, k)|)
            && t.lostErrors == (|set k: nat | k < |acts| && Loses(acts, id, false, k)|)
  {
    TallyCounts(acts, id, |acts|);
    assert acts[..|acts|] == acts;
    hide Run, AllEnabled, Offers, Loses, CountBelow;
    CountIsSize(|acts|, StoredIn(acts, id));
    CountIsSize(|acts|, AckedIn(acts, id));
    CountIsSize(|acts|, FailedIn(acts, id));
    CountIsSize(|acts|, LostIn(acts, id, true));
    CountIsSize(|acts|, LostIn(acts, id, false));
    SameSets(acts, id, true);
    SameSets(acts, id, false);
  }

  lemma SameSets(acts: seq<Action>, id: string, success: bool)
    ensures (set k: nat | k < |acts| && StoredIn(acts, id)(k)) ==
            set k: nat | k < |acts| && Offers(acts, id, k) && !acts[k].outcome.Rejected?
    ensures (set k: nat | k < |acts| && AckedIn(acts, id)(k)) ==
            set k: nat | k < |acts| && Offers(acts, id, k) && acts[k].outcome.Accepted?
    ensures (set k: nat | k < |acts| && FailedIn(acts, id)(k)) ==
            set k: nat | k < |acts| && Offers(acts, id, k) && !acts[k].outcome.Accepted?
    ensures (set k: nat | k < |acts| && LostIn(acts, id, success)(k)) ==
            set k: nat | k < |acts| && Loses(acts, id, success, k)
  {
  }

  /**
   * Safety over every interleaving, told by the run alone: a processed row was offered and
   * acknowledged; a row has no more attempts than failed offers; a failed one has five of five.
   */
  lemma HistorySafety(acts: seq<Action>, r: Row)
    requires AllEnabled(INITIAL, acts) && r in Run(INITIAL, acts).rows
    ensures r.status == Processed ==> exists k: nat :: k < |acts| && Offers(acts, r.id, k) && acts[k].outcome == Accepted
    ensures r.attempts <= |set k: nat | k < |acts| && Offers(acts, r.id, k) && acts[k].outcome != Accepted|
    ensures r.status == Failed ==> r.attempts == 5
    ensures r.status == Pending ==> r.attempts <= 4
  {
    RunKeepsInv(INITIAL, acts);
    TallyIsHistory(acts, r.id);
    hide Run, AllEnabled, Offers, Loses;
    var rows, t := Run(INITIAL, acts).rows, TallyOf(Run(INITIAL, acts).tally, r.id);
    var i :| 0 <= i < |rows| && rows[i] == r;
    assert Backed(r, t);
    assert (set k: nat | k < |acts| && Offers(acts, r.id, k) && !acts[k].outcome.Accepted?) ==
           set k: nat | k < |acts| && Offers(acts, r.id, k) && acts[k].outcome != Accepted;
    if r.status == Processed {
      var offers := set k: nat | k < |acts| && Offers(acts, r.id, k) && acts[k].outcome.Accepted?;
      assert offers != {};
      var k :| k in offers;
    }
  }

  // ---------------------------------------------------------------------
  // The environment is free
  // ---------------------------------------------------------------------

  /**
   * From every state an event can be published under a new key at any time, any idle batch can
   * poll, every batch with something in hand can meet any answer of the backbone or fail to save,
   * and every batch can be cut off.
   */
  lemma EnvironmentIsFree(s: State, w: nat, event: Event, id: string, outcome: Ingest, ok: bool, now: int)
    requires Inv(s)
    ensures (forall r :: r in s.rows ==> r.id != id) ==> Enabled(s, Append(event, id, now))
    ensures w !in s.batches ==> exists fetched :: Enabled(s, Poll(w, fetched))
    ensures w in s.batches ==>
              && Enabled(s, Crash(w))
              && (s.batches[w].ready.Some? ==> Enabled(s, Save(w, ok)))
              && (s.batches[w].ready.None? && s.batches[w].todo != [] ==> Enabled(s, Forward(w, outcome, now)))
  {
    OldestPendingIsPossible(s.rows, BATCH_SIZE);
    assert w !in s.batches ==> Enabled(s, Poll(w, OldestPending(s.rows, BATCH_SIZE)));
    if HasId(s.rows, id) {
      var i :| 0 <= i < |s.rows| && s.rows[i].id == id;
      assert s.rows[i] in s.rows;
    }
  }
}
