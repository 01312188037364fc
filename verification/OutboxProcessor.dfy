/** The polling service: one batch read, forwarded and written back row by row. */
module OutboxProcessor {
  import opened Counting
  import opened Wrappers
  import opened OutboxEntries
  import opened OutboxTable

  /** What the outside world answers while entry k of a batch is handled. */
  datatype Reply = Reply(ingest: Ingest, saved: bool, now: int)

  type World = nat -> Reply

  function Settled(r: Row, reply: Reply): Row {
    if reply.saved then Attempted(r, reply.ingest, reply.now) else r
  }

  /** The table after a batch: one pass in which the first `limit` pending rows are settled in place. */
  function Polled(rows: seq<Row>, limit: nat, world: World, k: nat): (rows': seq<Row>)
    ensures |rows'| == |rows|
  {
    if rows == [] || limit == 0 then rows
    else if rows[0].status == Pending then
      [Settled(rows[0], world(k))] + Polled(rows[1..], limit - 1, world, k + 1)
    else
      [rows[0]] + Polled(rows[1..], limit, world, k)
  }

  lemma {:induction false} PolledKeepsKeys(rows: seq<Row>, limit: nat, world: World, k: nat)
    ensures forall i :: 0 <= i < |rows| ==> SameEvent(rows[i], Polled(rows, limit, world, k)[i])
  {
    if rows != [] && limit != 0 {
      if rows[0].status == Pending {
        PolledKeepsKeys(rows[1..], limit - 1, world, k + 1);
      } else {
        PolledKeepsKeys(rows[1..], limit, world, k);
      }
    }
  }

  /** A limit beyond the number of pending rows changes nothing. */
  lemma {:induction false} LimitBeyondPending(rows: seq<Row>, limit: nat, world: World, k: nat)
    requires limit >= |PendingRows(rows)|
    ensures Polled(rows, limit, world, k) == Polled(rows, |PendingRows(rows)|, world, k)
  {
    if rows != [] && limit != 0 {
      if rows[0].status == Pending {
        LimitBeyondPending(rows[1..], limit - 1, world, k + 1);
      } else {
        LimitBeyondPending(rows[1..], limit, world, k);
        if |PendingRows(rows)| == 0 {
          assert Polled(rows[1..], 0, world, k) == rows[1..];
          assert rows == [rows[0]] + rows[1..];
        }
      }
    } else if rows != [] {
      assert |PendingRows(rows)| == 0;
    }
  }

  /** The table after the write-back of entry p, which was settled as `reply` says. */
  function WrittenBack(rows: seq<Row>, p: Row, reply: Reply): seq<Row> {
    if reply.saved then SaveRow(rows, Attempted(p, reply.ingest, reply.now)) else rows
  }

  lemma WrittenBackAtHead(head: Row, tail: seq<Row>, reply: Reply)
    requires UniqueIds([head] + tail)
    ensures WrittenBack([head] + tail, head, reply) == [Settled(head, reply)] + tail
  {
    if reply.saved {
      assert ([head] + tail)[0] == head;
      assert forall i :: 0 <= i < |tail| ==> tail[i] == ([head] + tail)[i + 1];
      SaveReplacesHead(head, tail, Attempted(head, reply.ingest, reply.now));
    }
  }

  lemma WrittenBackInTail(head: Row, tail: seq<Row>, p: Row, reply: Reply)
    requires head.id != p.id && HasId(tail, p.id)
    ensures HasId([head] + tail, p.id)
    ensures WrittenBack([head] + tail, p, reply) == [head] + WrittenBack(tail, p, reply)
  {
    SaveSkipsOther(head, tail, Attempted(p, reply.ingest, reply.now));
  }

  lemma LaterPendingDiffers(head: Row, tail: seq<Row>, i: nat)
    requires UniqueIds([head] + tail)
    requires i < |PendingRows(tail)|
    ensures UniqueIds(tail)
    ensures head.id != PendingRows(tail)[i].id
  {
    var rows := [head] + tail;
    assert rows[0] == head;
    assert forall j :: 0 <= j < |tail| ==> tail[j] == rows[j + 1];
    PendingMembers(tail);
    assert PendingRows(tail)[i] in tail;
  }

  /** The pass over i rows, taken apart at a head that is not the next entry. */
  lemma PolledApart(head: Row, tail: seq<Row>, i: nat, world: World, k: nat)
    requires head.status == Pending ==> i > 0
    ensures
      var n, k' := if head.status == Pending then i - 1 else i, if head.status == Pending then k + 1 else k;
      var head' := if head.status == Pending then Settled(head, world(k)) else head;
      && Polled([head] + tail, i, world, k) == [head'] + Polled(tail, n, world, k')
      && Polled([head] + tail, i + 1, world, k) == [head'] + Polled(tail, n + 1, world, k')
      && PendingRows([head] + tail) == (if head.status == Pending then [head] else []) + PendingRows(tail)
  {
    assert ([head] + tail)[1..] == tail;
    assert Polled(tail, 0, world, k) == tail;
  }

  /** Writing entry p back turns the pass over i rows into the pass over i + 1 rows. */
  predicate StepHolds(rows: seq<Row>, i: nat, p: Row, world: World, k: nat) {
    && HasId(Polled(rows, i, world, k), p.id)
    && WrittenBack(Polled(rows, i, world, k), p, world(k + i)) == Polled(rows, i + 1, world, k)
  }

  lemma StepAtHead(head: Row, tail: seq<Row>, world: World, k: nat)
    requires UniqueIds([head] + tail) && head.status == Pending
    ensures StepHolds([head] + tail, 0, head, world, k)
  {
    assert ([head] + tail)[0] == head && ([head] + tail)[1..] == tail;
    assert Polled(tail, 0, world, k + 1) == tail;
    WrittenBackAtHead(head, tail, world(k));
  }

  lemma StepInTail(head: Row, tail: seq<Row>, i: nat, p: Row, world: World, k: nat)
    requires head.status == Pending ==> i > 0
    requires head.id != p.id
    requires if head.status == Pending then StepHolds(tail, i - 1, p, world, k + 1) else StepHolds(tail, i, p, world, k)
    ensures StepHolds([head] + tail, i, p, world, k)
  {
    PolledApart(head, tail, i, world, k);
    if head.status == Pending {
      assert k + 1 + (i - 1) == k + i;
      WrittenBackInTail(Settled(head, world(k)), Polled(tail, i - 1, world, k + 1), p, world(k + i));
    } else {
      WrittenBackInTail(head, Polled(tail, i, world, k), p, world(k + i));
    }
  }

  lemma {:induction false} PolledStep(rows: seq<Row>, i: nat, world: World, k: nat)
    requires UniqueIds(rows)
    requires i < |PendingRows(rows)|
    ensures StepHolds(rows, i, PendingRows(rows)[i], world, k)
  {
    var head, tail := rows[0], rows[1..];
    assert rows == [head] + tail;
    if head.status != Pending {
      LaterPendingDiffers(head, tail, i);
      PolledStep(tail, i, world, k);
      StepInTail(head, tail, i, PendingRows(tail)[i], world, k);
    } else if i > 0 {
      LaterPendingDiffers(head, tail, i - 1);
      PolledStep(tail, i - 1, world, k + 1);
      StepInTail(head, tail, i, PendingRows(tail)[i - 1], world, k);
    } else {
      StepAtHead(head, tail, world, k);
    }
  }

  // ---------------------------------------------------------------------
  // One batch, row by row
  // ---------------------------------------------------------------------

  /** How many rows before place i are pending. */
  function PendingBefore(rows: seq<Row>, i: nat): nat {
    CountBelow(i, (k: nat) => k < |rows| && rows[k].status == Pending)
  }

  lemma PendingBeforeTail(rows: seq<Row>, i: nat)
    requires 0 < i <= |rows|
    ensures PendingBefore(rows, i) == (if rows[0].status == Pending then 1 else 0) + PendingBefore(rows[1..], i - 1)
  {
    var p := (k: nat) => k < |rows| && rows[k].status == Pending;
    CountSame(i, p, (k: nat) => k < |rows| && rows[k].status == Pending);
    CountFirst(i, p);
    CountSame(i - 1, (k: nat) => p(k + 1), (k: nat) => k < |rows[1..]| && rows[1..][k].status == Pending);
  }

  lemma PendingBeforeIsSize(rows: seq<Row>, i: nat)
    requires i <= |rows|
    ensures PendingBefore(rows, i) == |set k: nat | k < i && rows[k].status == Pending|
  {
    var p := (k: nat) => k < |rows| && rows[k].status == Pending;
    CountSame(i, p, (k: nat) => k < |rows| && rows[k].status == Pending);
    CountIsSize(i, p);
    assert (set k: nat | k < i && rows[k].status == Pending) == set k: nat | k < i && p(k);
  }

  /** A row is settled when it is pending and less than `limit` pending rows stand before it. */
  lemma {:induction false} PolledAt(rows: seq<Row>, limit: nat, world: World, k: nat, i: nat)
    requires i < |rows|
    ensures Polled(rows, limit, world, k)[i] ==
            var n := PendingBefore(rows, i);
            if rows[i].status == Pending && n < limit then Settled(rows[i], world(k + n)) else rows[i]
  {
    hide Settled;
    if limit != 0 && i > 0 {
      PendingBeforeTail(rows, i);
      if rows[0].status == Pending {
        PolledAt(rows[1..], limit - 1, world, k + 1, i - 1);
      } else {
        PolledAt(rows[1..], limit, world, k, i - 1);
      }
    }
  }

  /** What one row has become, when a batch met the answer `reply` for it and stored that. */
  predicate SettledAs(r: Row, r': Row, reply: Reply) {
    && r' == r.(status := r'.status, attempts := r'.attempts, lastError := r'.lastError, processedAt := r'.processedAt)
    && (reply.ingest.Accepted? ==>
          r'.status == Processed && r'.processedAt == Some(reply.now) && r'.attempts == r.attempts && r'.lastError == r.lastError)
    && (!reply.ingest.Accepted? ==>
          && r'.attempts == r.attempts + 1 && r'.lastError == Some(reply.ingest.error) && r'.processedAt == r.processedAt
          && r'.status == if r.attempts + 1 >= 5 then Failed else r.status)
  }

  /** After a batch: of the pending rows, number n (from 0) has met answer n of the world when n < 50; the rest is as it was. */
  lemma BatchRowByRow(rows: seq<Row>, world: World, i: nat)
    requires i < |rows|
    ensures var n, r' := |set k: nat | k < i && rows[k].status == Pending|, Polled(rows, BATCH_SIZE, world, 0)[i];
            if rows[i].status == Pending && n < 50 && world(n).saved then SettledAs(rows[i], r', world(n)) else r' == rows[i]
  {
    hide Polled, Settled, SettledAs, PendingBefore;
    PolledAt(rows, BATCH_SIZE, world, 0, i);
    PendingBeforeIsSize(rows, i);
    SettledTells(rows[i], world(PendingBefore(rows, i)));
  }

  lemma SettledTells(r: Row, reply: Reply)
    ensures if reply.saved then SettledAs(r, Settled(r, reply), reply) else Settled(r, reply) == r
  {
  }

  class OutboxProcessorService {
    const outboxRepo: OutboxEntryRepository

    constructor (outboxRepo: OutboxEntryRepository)
      ensures this.outboxRepo == outboxRepo
    {
      this.outboxRepo := outboxRepo;
    }

    /** `fetchOk` says whether the read succeeds; `world` answers each ingest and save. */
    method ProcessBatch(fetchOk: bool, world: World)
      requires UniqueIds(outboxRepo.rows)
      modifies outboxRepo`rows
      ensures outboxRepo.rows == if fetchOk then Polled(old(outboxRepo.rows), BATCH_SIZE, world, 0) else old(outboxRepo.rows)
      ensures fetchOk ==> |outboxRepo.rows| == |old(outboxRepo.rows)| && forall i: nat :: i < |old(outboxRepo.rows)| ==>
        var rows, r' := old(outboxRepo.rows), outboxRepo.rows[i];
        var n := |set k: nat | k < i && rows[k].status == Pending|;
        if rows[i].status == Pending && n < 50 && world(n).saved then SettledAs(rows[i], r', world(n)) else r' == rows[i]
    {
      if !fetchOk {
        return;
      }
      var entries := outboxRepo.FindPending(BATCH_SIZE);
      ghost var rows0 := outboxRepo.rows;
      ghost var found := OldestPending(rows0, BATCH_SIZE);
      for i := 0 to |entries|
        invariant outboxRepo.rows == Polled(rows0, i, world, 0)
        invariant forall j :: i <= j < |entries| ==> entries[j].ToOrm() == found[j]
      {
        assert entries[i].ToOrm() == PendingRows(rows0)[i];
        ForwardEntry(entries[i], world(i));
        PolledStep(rows0, i, world, 0);
      }
      if |PendingRows(rows0)| <= BATCH_SIZE {
        LimitBeyondPending(rows0, BATCH_SIZE, world, 0);
      }
      forall i: nat | i < |rows0|
        ensures var n, r' := |set k: nat | k < i && rows0[k].status == Pending|, outboxRepo.rows[i];
                if rows0[i].status == Pending && n < 50 && world(n).saved then SettledAs(rows0[i], r', world(n)) else r' == rows0[i]
      {
        BatchRowByRow(rows0, world, i);
      }
    }

    /** The body of the loop: forward one entry, record the outcome on it, write it back. */
    method ForwardEntry(entry: OutboxEntryEntity, reply: Reply)
      modifies entry, outboxRepo`rows
      ensures entry.ToOrm() == Attempted(old(entry.ToOrm()), reply.ingest, reply.now)
      ensures SettledAs(old(entry.ToOrm()), entry.ToOrm(), reply)
      ensures outboxRepo.rows == WrittenBack(old(outboxRepo.rows), old(entry.ToOrm()), reply)
    {
      match reply.ingest {
        case Accepted => entry.MarkProcessed(reply.now);
        case AcceptedUnacknowledged(error) => entry.RecordAttemptFailure(error, MAX_ATTEMPTS);
        case Rejected(error) => entry.RecordAttemptFailure(error, MAX_ATTEMPTS);
      }
      var _ := outboxRepo.Save(entry, reply.saved);
    }
  }
}
