/**
 * How fast the outbox drains when batches do not overlap and every save succeeds:
 * no row starves, whatever the backbone answers and however many newer rows arrive.
 */
module OutboxDrain {
  import opened OutboxEntries
  import opened OutboxTable
  import opened OutboxProcessor

  /** One poll, then the rows that arrive before the next one. */
  datatype Round = Round(world: World, arrivals: seq<Row>)

  function InsertAll(rows: seq<Row>, arrivals: seq<Row>): seq<Row>
    decreases arrivals
  {
    if arrivals == [] then rows else InsertAll(Insert(rows, arrivals[0]), arrivals[1..])
  }

  function AfterRound(rows: seq<Row>, round: Round): seq<Row> {
    InsertAll(Polled(rows, BATCH_SIZE, round.world, 0), round.arrivals)
  }

  function AfterRounds(rows: seq<Row>, rounds: seq<Round>): seq<Row>
    decreases rounds
  {
    if rounds == [] then rows else AfterRounds(AfterRound(rows, rounds[0]), rounds[1..])
  }

  ghost predicate AlwaysSaves(world: World) {
    forall k: nat :: world(k).saved
  }

  /** New rows: under new keys, pending, never tried, created no earlier than any row of the table. */
  predicate Arriving(rows: seq<Row>, arrivals: seq<Row>) {
    && SortedByCreation(rows + arrivals) && UniqueIds(rows + arrivals)
    && (forall i :: 0 <= i < |arrivals| ==> arrivals[i].status == Pending && arrivals[i].attempts == 0)
  }

  /** Every save succeeds, and arrivals are newest. */
  ghost predicate Calm(rows: seq<Row>, rounds: seq<Round>)
    decreases rounds
  {
    rounds == [] ||
    (&& AlwaysSaves(rounds[0].world)
     && Arriving(rows, rounds[0].arrivals)
     && Calm(AfterRound(rows, rounds[0]), rounds[1..]))
  }

  predicate NoId(q: seq<Row>, id: string) {
    forall i :: 0 <= i < |q| ==> q[i].id != id
  }

  lemma {:induction false} ArrivalsAppend(rows: seq<Row>, arrivals: seq<Row>)
    requires SortedByCreation(rows + arrivals)
    ensures InsertAll(rows, arrivals) == rows + arrivals
    decreases arrivals
  {
    if arrivals == [] {
      assert rows + arrivals == rows;
    } else {
      var all := rows + arrivals;
      assert forall i :: 0 <= i < |rows| ==> all[i] == rows[i] && all[|rows|] == arrivals[0];
      assert Insert(rows, arrivals[0]) == rows + [arrivals[0]];
      assert rows + [arrivals[0]] + arrivals[1..] == all;
      ArrivalsAppend(rows + [arrivals[0]], arrivals[1..]);
    }
  }

  // ---------------------------------------------------------------------
  // The queue of pending rows
  // ---------------------------------------------------------------------

  /** The pending rows after a poll: those in the window are tried, and leave when that settles them. */
  function Drained(q: seq<Row>, limit: nat, world: World, k: nat): seq<Row> {
    if q == [] || limit == 0 then q
    else
      var r := Settled(q[0], world(k));
      (if r.status == Pending then [r] else []) + Drained(q[1..], limit - 1, world, k + 1)
  }

  lemma {:induction false} PendingAppend(a: seq<Row>, b: seq<Row>)
    ensures PendingRows(a + b) == PendingRows(a) + PendingRows(b)
  {
    if a == [] {
      assert a + b == b;
    } else {
      assert (a + b)[1..] == a[1..] + b;
      PendingAppend(a[1..], b);
    }
  }

  lemma {:induction false} PendingAfterPoll(rows: seq<Row>, limit: nat, world: World, k: nat)
    ensures PendingRows(Polled(rows, limit, world, k)) == Drained(PendingRows(rows), limit, world, k)
  {
    if rows != [] && limit != 0 {
      if rows[0].status == Pending {
        PendingAfterPoll(rows[1..], limit - 1, world, k + 1);
        PendingAppend([Settled(rows[0], world(k))], Polled(rows[1..], limit - 1, world, k + 1));
        assert PendingRows(rows)[1..] == PendingRows(rows[1..]);
      } else {
        PendingAfterPoll(rows[1..], limit, world, k);
        PendingAppend([rows[0]], Polled(rows[1..], limit, world, k));
      }
    }
  }

  function QueueAfter(q: seq<Row>, round: Round): seq<Row> {
    Drained(q, BATCH_SIZE, round.world, 0) + round.arrivals
  }

  function QueueAfterAll(q: seq<Row>, rounds: seq<Round>): seq<Row>
    decreases rounds
  {
    if rounds == [] then q else QueueAfterAll(QueueAfter(q, rounds[0]), rounds[1..])
  }

  lemma {:induction false} AllPending(q: seq<Row>)
    requires forall i :: 0 <= i < |q| ==> q[i].status == Pending
    ensures PendingRows(q) == q
  {
    if q != [] {
      AllPending(q[1..]);
    }
  }

  lemma PolledThenArriving(rows: seq<Row>, round: Round)
    requires Arriving(rows, round.arrivals)
    ensures AfterRound(rows, round) == Polled(rows, BATCH_SIZE, round.world, 0) + round.arrivals
  {
    var rows', a := Polled(rows, BATCH_SIZE, round.world, 0), round.arrivals;
    PolledKeepsKeys(rows, BATCH_SIZE, round.world, 0);
    var all, all' := rows + a, rows' + a;
    assert forall i :: 0 <= i < |rows| ==> SameEvent(rows[i], rows'[i]);
    assert forall i :: 0 <= i < |all| ==> all'[i].createdAt == all[i].createdAt;
    ArrivalsAppend(rows', a);
  }

  lemma {:induction false} QueueOfTable(rows: seq<Row>, rounds: seq<Round>)
    requires Calm(rows, rounds)
    ensures PendingRows(AfterRounds(rows, rounds)) == QueueAfterAll(PendingRows(rows), rounds)
    decreases rounds
  {
    if rounds != [] {
      var round := rounds[0];
      PolledThenArriving(rows, round);
      PendingAppend(Polled(rows, BATCH_SIZE, round.world, 0), round.arrivals);
      PendingAfterPoll(rows, BATCH_SIZE, round.world, 0);
      AllPending(round.arrivals);
      QueueOfTable(AfterRound(rows, round), rounds[1..]);
    }
  }

  /** Every row stays at its place, with its event and its key. */
  lemma {:induction false} RowsStay(rows: seq<Row>, rounds: seq<Round>, i: nat)
    requires Calm(rows, rounds) && i < |rows|
    ensures i < |AfterRounds(rows, rounds)| && SameEvent(rows[i], AfterRounds(rows, rounds)[i])
    decreases rounds
  {
    if rounds != [] {
      RowStays(rows, rounds[0], i);
      RowsStay(AfterRound(rows, rounds[0]), rounds[1..], i);
    }
  }

  lemma RowStays(rows: seq<Row>, round: Round, i: nat)
    requires Arriving(rows, round.arrivals) && i < |rows|
    ensures i < |AfterRound(rows, round)| && SameEvent(rows[i], AfterRound(rows, round)[i])
  {
    PolledThenArriving(rows, round);
    PolledKeepsKeys(rows, BATCH_SIZE, round.world, 0);
    assert AfterRound(rows, round)[i] == Polled(rows, BATCH_SIZE, round.world, 0)[i];
  }

  // ---------------------------------------------------------------------
  // Facts about one poll of the queue
  // ---------------------------------------------------------------------

  lemma {:induction false} DrainedSplit(a: seq<Row>, b: seq<Row>, limit: nat, world: World, k: nat)
    ensures Drained(a + b, limit, world, k) ==
            Drained(a, limit, world, k) + Drained(b, if limit >= |a| then limit - |a| else 0, world, k + |a|)
  {
    if a == [] {
      assert a + b == b;
    } else if limit != 0 {
      assert (a + b)[1..] == a[1..] + b;
      DrainedSplit(a[1..], b, limit - 1, world, k + 1);
    }
  }

  /** Pending rows with at least m and at most four failed attempts. */
  predicate Worn(q: seq<Row>, m: nat) {
    forall i :: 0 <= i < |q| ==> q[i].status == Pending && m <= q[i].attempts < MAX_ATTEMPTS
  }

  lemma WornIsBounded(q: seq<Row>, m: nat)
    requires Worn(q, m)
    ensures q == [] || m < MAX_ATTEMPTS
  {
    if q != [] {
      assert q[0].status == Pending;
    }
  }

  lemma Joined(q: seq<Row>, arrivals: seq<Row>, id: string)
    requires Worn(q, 0) && NoId(q, id) && Worn(arrivals, 0) && NoId(arrivals, id)
    ensures Worn(q + arrivals, 0) && NoId(q + arrivals, id)
  {
  }

  /** A row with that key is there only if it has been tried more than `a` times. */
  predicate Beyond(q: seq<Row>, id: string, a: int) {
    forall i :: 0 <= i < |q| && q[i].id == id ==> q[i].attempts > a
  }

  lemma {:induction false} DrainedFacts(q: seq<Row>, limit: nat, world: World, k: nat, m: nat, id: string, a: int)
    requires Worn(q, m) && AlwaysSaves(world)
    ensures |Drained(q, limit, world, k)| <= |q|
    ensures Worn(Drained(q, limit, world, k), if |q| <= limit then m + 1 else m)
    ensures NoId(q, id) ==> NoId(Drained(q, limit, world, k), id)
    ensures Beyond(q, id, a) ==> Beyond(Drained(q, limit, world, k), id, if |q| <= limit then a + 1 else a)
  {
    if q != [] && limit != 0 {
      AttemptKeepsLegal(q[0], world(k).ingest, world(k).now);
      DrainedFacts(q[1..], limit - 1, world, k + 1, m, id, a);
    }
  }

  /** A queue in three parts: rows ahead, perhaps one row with the key `id`, and rows behind. */
  predicate Parts(ahead: seq<Row>, own: seq<Row>, behind: seq<Row>, id: string) {
    Worn(ahead, 0) && Worn(own, 0) && Worn(behind, 0) && NoId(ahead, id) && NoId(behind, id) && |own| <= 1
  }

  /** How much of the window is left after a part of the queue. */
  function Left(limit: nat, part: seq<Row>): nat {
    if limit >= |part| then limit - |part| else 0
  }

  lemma DrainedInThree(ahead: seq<Row>, own: seq<Row>, behind: seq<Row>, limit: nat, w: World, k: nat)
    ensures Drained(ahead + own + behind, limit, w, k) ==
            Drained(ahead, limit, w, k) + Drained(own, Left(limit, ahead), w, k + |ahead|) +
            Drained(behind, Left(limit, ahead + own), w, k + |ahead| + |own|)
  {
    DrainedSplit(ahead + own, behind, limit, w, k);
    DrainedSplit(ahead, own, limit, w, k);
  }

  lemma PartsDrained(ahead: seq<Row>, own: seq<Row>, behind: seq<Row>, limit: nat, w: World, k: nat, id: string, a: int)
    returns (ahead': seq<Row>, own': seq<Row>, behind': seq<Row>)
    requires Parts(ahead, own, behind, id) && Beyond(own, id, a) && AlwaysSaves(w)
    ensures Drained(ahead + own + behind, limit, w, k) == ahead' + own' + behind'
    ensures Parts(ahead', own', behind', id) && |ahead'| <= |ahead|
    ensures Beyond(own', id, if |ahead| + |own| <= limit then a + 1 else a)
  {
    var k2, k3 := k + |ahead|, k + |ahead| + |own|;
    var l2 := Left(limit, ahead);
    var l3 := Left(limit, ahead + own);
    ahead', own', behind' := Drained(ahead, limit, w, k), Drained(own, l2, w, k2), Drained(behind, l3, w, k3);
    DrainedFacts(ahead, limit, w, k, 0, id, a);
    DrainedFacts(own, l2, w, k2, 0, id, a);
    DrainedFacts(behind, l3, w, k3, 0, id, a);
    DrainedInThree(ahead, own, behind, limit, w, k);
  }

  lemma QueueAfterFront(front: seq<Row>, ahead: seq<Row>, own: seq<Row>, behind: seq<Row>, round: Round)
    requires |front| <= BATCH_SIZE
    ensures QueueAfter(front + ahead + own + behind, round) ==
            Drained(front, BATCH_SIZE, round.world, 0) +
            Drained(ahead + own + behind, BATCH_SIZE - |front|, round.world, |front|) + round.arrivals
  {
    DrainedSplit(front, ahead + own + behind, BATCH_SIZE, round.world, 0);
    assert front + ahead + own + behind == front + (ahead + own + behind);
  }

  /** One round: nothing joins the rows ahead, and the first `|front|` rows of the window are worn down by one. */
  lemma RoundOnParts(front: seq<Row>, ahead: seq<Row>, own: seq<Row>, behind: seq<Row>, round: Round, m: nat, id: string, a: int)
    returns (front': seq<Row>, ahead': seq<Row>, own': seq<Row>, behind': seq<Row>)
    requires |front| <= BATCH_SIZE && Worn(front, m) && NoId(front, id) && Parts(ahead, own, behind, id)
    requires AlwaysSaves(round.world) && Worn(round.arrivals, 0) && NoId(round.arrivals, id)
    requires Beyond(own, id, a)
    ensures QueueAfter(front + ahead + own + behind, round) == front' + ahead' + own' + behind'
    ensures |front'| <= |front| && Worn(front', m + 1) && NoId(front', id)
    ensures Parts(ahead', own', behind', id) && |ahead'| <= |ahead|
    ensures Beyond(own', id, if |front| + |ahead| + |own| <= BATCH_SIZE then a + 1 else a)
  {
    hide Drained, QueueAfter, Worn, NoId, Beyond;
    var w, limit := round.world, BATCH_SIZE - |front|;
    front' := Drained(front, BATCH_SIZE, w, 0);
    DrainedFacts(front, BATCH_SIZE, w, 0, m, id, a);
    var b;
    ahead', own', b := PartsDrained(ahead, own, behind, limit, w, |front|, id, a);
    behind' := b + round.arrivals;
    Joined(b, round.arrivals, id);
    QueueAfterFront(front, ahead, own, behind, round);
    assert front' + (ahead' + own' + b) + round.arrivals == front' + ahead' + own' + behind';
  }

  ghost predicate CalmQueue(rounds: seq<Round>, id: string) {
    forall i :: 0 <= i < |rounds| ==>
      AlwaysSaves(rounds[i].world) && Worn(rounds[i].arrivals, 0) && NoId(rounds[i].arrivals, id)
  }

  /** Five attempts empty the window: the rows behind it move up by as many. */
  lemma {:induction false} WindowEmpties(front: seq<Row>, ahead: seq<Row>, own: seq<Row>, behind: seq<Row>,
                                         rounds: seq<Round>, m: nat, id: string, a: int)
    returns (ahead': seq<Row>, own': seq<Row>, behind': seq<Row>)
    requires |front| <= BATCH_SIZE && Worn(front, m) && NoId(front, id) && Parts(ahead, own, behind, id)
    requires CalmQueue(rounds, id) && m + |rounds| == MAX_ATTEMPTS
    requires Beyond(own, id, a)
    ensures QueueAfterAll(front + ahead + own + behind, rounds) == ahead' + own' + behind'
    ensures Parts(ahead', own', behind', id) && |ahead'| <= |ahead| && Beyond(own', id, a)
    decreases rounds
  {
    if rounds == [] {
      WornIsBounded(front, m);
      ahead', own', behind' := ahead, own, behind;
      assert front + ahead + own + behind == ahead + own + behind;
    } else {
      var f, h, o, b := RoundOnParts(front, ahead, own, behind, rounds[0], m, id, a);
      ahead', own', behind' := WindowEmpties(f, h, o, b, rounds[1..], m + 1, id, a);
    }
  }

  /** Within the window, every round is an attempt; afterwards attempts are never forgotten. */
  lemma {:induction false} InWindow(ahead: seq<Row>, own: seq<Row>, behind: seq<Row>, rounds: seq<Round>, n: nat, id: string, a: int)
    requires Parts(ahead, own, behind, id) && Beyond(own, id, a) && CalmQueue(rounds, id)
    requires n <= |rounds| && (n > 0 ==> |ahead| < BATCH_SIZE)
    ensures Beyond(QueueAfterAll(ahead + own + behind, rounds), id, a + n)
    ensures Worn(QueueAfterAll(ahead + own + behind, rounds), 0)
    decreases rounds
  {
    if rounds == [] {
    } else {
      var f, h, o, b := RoundOnParts([], ahead, own, behind, rounds[0], 0, id, a);
      assert [] + ahead + own + behind == ahead + own + behind;
      assert f + h + o + b == h + o + b;
      if n > 0 {
        InWindow(h, o, b, rounds[1..], n - 1, id, a + 1);
      } else {
        InWindow(h, o, b, rounds[1..], 0, id, a);
      }
    }
  }

  lemma {:induction false} RoundsCompose(q: seq<Row>, rounds: seq<Round>, n: nat)
    requires n <= |rounds|
    ensures QueueAfterAll(q, rounds) == QueueAfterAll(QueueAfterAll(q, rounds[..n]), rounds[n..])
    decreases rounds
  {
    if n > 0 {
      assert rounds[..n][1..] == rounds[1..][..n - 1];
      assert rounds[n..] == rounds[1..][n - 1..];
      RoundsCompose(QueueAfter(q, rounds[0]), rounds[1..], n - 1);
    } else {
      assert rounds[n..] == rounds;
    }
  }

  /** With k rows ahead of it, a row has been tried n times (or is gone) after 5 * (k / 50) + n polls. */
  lemma {:induction false} TriedWithin(ahead: seq<Row>, own: seq<Row>, behind: seq<Row>, rounds: seq<Round>, n: nat, id: string, a: int)
    requires Parts(ahead, own, behind, id) && Beyond(own, id, a) && CalmQueue(rounds, id)
    requires |rounds| >= MAX_ATTEMPTS * (|ahead| / BATCH_SIZE) + n
    ensures Beyond(QueueAfterAll(ahead + own + behind, rounds), id, a + n)
    ensures Worn(QueueAfterAll(ahead + own + behind, rounds), 0)
    decreases |ahead|
  {
    if |ahead| < BATCH_SIZE {
      InWindow(ahead, own, behind, rounds, n, id, a);
    } else {
      var front, rest := ahead[..BATCH_SIZE], ahead[BATCH_SIZE..];
      var h, o, b := WindowEmpties(front, rest, own, behind, rounds[..MAX_ATTEMPTS], 0, id, a);
      assert front + rest + own + behind == ahead + own + behind;
      RoundsCompose(ahead + own + behind, rounds, MAX_ATTEMPTS);
      assert |h| / BATCH_SIZE <= |ahead| / BATCH_SIZE - 1;
      TriedWithin(h, o, b, rounds[MAX_ATTEMPTS..], n, id, a);
    }
  }

  // ---------------------------------------------------------------------
  // The theorems on the table
  // ---------------------------------------------------------------------

  /** How many pending rows stand before row i. */
  function Position(rows: seq<Row>, i: nat): nat
    requires i < |rows|
  {
    |PendingRows(rows[..i])|
  }

  lemma {:induction false} CalmQueueOf(rows: seq<Row>, rounds: seq<Round>, i: nat)
    requires Calm(rows, rounds) && i < |rows|
    ensures CalmQueue(rounds, rows[i].id)
    decreases rounds
  {
    if rounds != [] {
      RowStays(rows, rounds[0], i);
      CalmQueueOf(AfterRound(rows, rounds[0]), rounds[1..], i);
      KeysAreNew(rows, rounds[0].arrivals, i);
      assert forall k :: 1 <= k < |rounds| ==> rounds[k] == rounds[1..][k - 1];
    }
  }

  lemma KeysAreNew(rows: seq<Row>, arrivals: seq<Row>, i: nat)
    requires Arriving(rows, arrivals) && i < |rows|
    ensures NoId(arrivals, rows[i].id)
  {
    var all := rows + arrivals;
    forall k | 0 <= k < |arrivals| ensures arrivals[k].id != rows[i].id {
      assert all[i] == rows[i] && all[|rows| + k] == arrivals[k];
    }
  }

  lemma PendingOfOthers(rows: seq<Row>, id: string)
    requires NoId(rows, id) && (forall j :: 0 <= j < |rows| ==> Legal(rows[j]))
    ensures Worn(PendingRows(rows), 0) && NoId(PendingRows(rows), id)
  {
    PendingMembers(rows);
    var q := PendingRows(rows);
    forall j | 0 <= j < |q| ensures q[j].id != id && q[j].status == Pending && Legal(q[j]) {
      assert q[j] in rows;
    }
  }

  lemma PendingAround(before: seq<Row>, r: Row, after: seq<Row>)
    requires r.status == Pending
    ensures PendingRows(before + [r] + after) == PendingRows(before) + [r] + PendingRows(after)
  {
    PendingAppend(before + [r], after);
    PendingAppend(before, [r]);
  }

  lemma PartsAround(before: seq<Row>, r: Row, after: seq<Row>)
    requires r.status == Pending && Legal(r) && UniqueIds(before + [r] + after)
    requires forall j :: 0 <= j < |before| ==> Legal(before[j])
    requires forall j :: 0 <= j < |after| ==> Legal(after[j])
    ensures Parts(PendingRows(before), [r], PendingRows(after), r.id)
  {
    var rows := before + [r] + after;
    assert rows[|before|] == r;
    forall j | 0 <= j < |before| ensures before[j].id != r.id {
      assert rows[j] == before[j];
    }
    forall j | 0 <= j < |after| ensures after[j].id != r.id {
      assert rows[|before| + 1 + j] == after[j];
    }
    PendingOfOthers(before, r.id);
    PendingOfOthers(after, r.id);
  }

  lemma PendingParts(rows: seq<Row>, i: nat)
    requires i < |rows| && rows[i].status == Pending && UniqueIds(rows)
    requires forall j :: 0 <= j < |rows| ==> Legal(rows[j])
    ensures PendingRows(rows) == PendingRows(rows[..i]) + [rows[i]] + PendingRows(rows[i + 1..])
    ensures Parts(PendingRows(rows[..i]), [rows[i]], PendingRows(rows[i + 1..]), rows[i].id)
  {
    hide UniqueIds, PendingRows, Parts, Legal;
    var before, after := rows[..i], rows[i + 1..];
    assert rows == before + [rows[i]] + after;
    PendingAround(before, rows[i], after);
    PartsAround(before, rows[i], after);
  }

  /**
   * No starvation: a pending row with k pending rows before it is still there after
   * 5 * (k / 50) + n polls, and has been settled or been tried n more times.
   */
  lemma NoStarvation(rows: seq<Row>, i: nat, rounds: seq<Round>, n: nat)
    requires UniqueIds(rows) && (forall j :: 0 <= j < |rows| ==> Legal(rows[j]))
    requires i < |rows| && rows[i].status == Pending
    requires Calm(rows, rounds)
    requires |rounds| >= 5 * (Position(rows, i) / 50) + n
    ensures i < |AfterRounds(rows, rounds)| && SameEvent(rows[i], AfterRounds(rows, rounds)[i])
    ensures var r := AfterRounds(rows, rounds)[i];
            r.status != Pending || rows[i].attempts + n <= r.attempts < 5
  {
    var id, end := rows[i].id, AfterRounds(rows, rounds);
    RowsStay(rows, rounds, i);
    PendingParts(rows, i);
    CalmQueueOf(rows, rounds, i);
    QueueOfTable(rows, rounds);
    TriedWithin(PendingRows(rows[..i]), [rows[i]], PendingRows(rows[i + 1..]), rounds, n, id, rows[i].attempts - 1);
    var r, q := end[i], PendingRows(end);
    if r.status == Pending {
      PendingMembers(end);
      assert r in end && r in q;
      var j :| 0 <= j < |q| && q[j] == r;
    }
  }

  lemma RoundsUp(rows: seq<Row>, i: nat)
    requires i < |rows| && rows[i].status == Pending
    ensures 5 * (Position(rows, i) / 50) + 5 <= 5 * ((|PendingRows(rows)| + 49) / 50)
  {
    assert rows == rows[..i] + [rows[i]] + rows[i + 1..];
    PendingAround(rows[..i], rows[i], rows[i + 1..]);
    var k, n := Position(rows, i), |PendingRows(rows)|;
    assert k + 1 <= n;
    assert k / 50 + 1 == (k + 50) / 50 <= (n + 49) / 50;
  }

  /** Drain: N pending rows are all processed or failed, each at its place, after 5 * ceil(N / 50) polls. */
  lemma Drain(rows: seq<Row>, rounds: seq<Round>, i: nat)
    requires UniqueIds(rows) && (forall j :: 0 <= j < |rows| ==> Legal(rows[j]))
    requires Calm(rows, rounds)
    requires |rounds| >= 5 * ((|PendingRows(rows)| + 49) / 50)
    requires i < |rows| && rows[i].status == Pending
    ensures i < |AfterRounds(rows, rounds)| && SameEvent(rows[i], AfterRounds(rows, rounds)[i])
    ensures AfterRounds(rows, rounds)[i].status == Processed || AfterRounds(rows, rounds)[i].status == Failed
  {
    RoundsUp(rows, i);
    NoStarvation(rows, i, rounds, 5);
  }

  predicate Tried(r: Row) {
    r.attempts > 0 || r.status != Pending
  }

  /** Tried rows form a prefix of the table: no row is tried before an older one. */
  predicate TriedInOrder(rows: seq<Row>) {
    forall i, j :: 0 <= i < j < |rows| && Tried(rows[j]) ==> Tried(rows[i])
  }

  lemma {:induction false} PollTriesInOrder(rows: seq<Row>, limit: nat, world: World, k: nat)
    requires TriedInOrder(rows) && AlwaysSaves(world)
    ensures TriedInOrder(Polled(rows, limit, world, k))
  {
    if rows != [] && limit != 0 {
      if rows[0].status == Pending {
        PollTriesInOrder(rows[1..], limit - 1, world, k + 1);
      } else {
        PollTriesInOrder(rows[1..], limit, world, k);
      }
    }
  }

  /** First attempts happen in the order of creation, whatever arrives in between. */
  lemma {:induction false} FirstAttemptsInOrder(rows: seq<Row>, rounds: seq<Round>)
    requires TriedInOrder(rows) && Calm(rows, rounds)
    ensures TriedInOrder(AfterRounds(rows, rounds))
    decreases rounds
  {
    if rounds != [] {
      PollTriesInOrder(rows, BATCH_SIZE, rounds[0].world, 0);
      PolledThenArriving(rows, rounds[0]);
      FirstAttemptsInOrder(AfterRound(rows, rounds[0]), rounds[1..]);
    }
  }
}
