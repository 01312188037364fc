/**
 * The outbox_entries table and its repository.
 *
 * A table is the sequence of its rows in the order of `ORDER BY createdAt ASC`;
 * rows created at the same instant stand in the order of their insertion.
 */
module OutboxTable {
  import opened Wrappers
  import opened OutboxEntries

  predicate SortedByCreation(rows: seq<Row>) {
    forall i, j :: 0 <= i < j < |rows| ==> rows[i].createdAt <= rows[j].createdAt
  }

  predicate UniqueIds(rows: seq<Row>) {
    forall i, j :: 0 <= i < j < |rows| ==> rows[i].id != rows[j].id
  }

  predicate HasId(rows: seq<Row>, id: string) {
    exists i :: 0 <= i < |rows| && rows[i].id == id
  }

  predicate HasEvent(rows: seq<Row>, eventId: string) {
    exists i :: 0 <= i < |rows| && rows[i].eventId == eventId
  }

  /** Where a row created at `time` belongs: right after the last row that was not created later. */
  function Slot(rows: seq<Row>, time: int): (k: nat)
    ensures k <= |rows|
    ensures k > 0 ==> rows[k - 1].createdAt <= time
    ensures forall i :: k <= i < |rows| ==> rows[i].createdAt > time
  {
    if rows == [] || rows[|rows| - 1].createdAt <= time then |rows| else Slot(rows[..|rows| - 1], time)
  }

  /** INSERT */
  function Insert(rows: seq<Row>, r: Row): seq<Row> {
    var k := Slot(rows, r.createdAt);
    rows[..k] + [r] + rows[k..]
  }

  lemma InsertKeepsOrder(rows: seq<Row>, r: Row)
    requires SortedByCreation(rows)
    ensures SortedByCreation(Insert(rows, r))
  {
    var k := Slot(rows, r.createdAt);
    assert forall i :: 0 <= i < k ==> rows[i].createdAt <= r.createdAt;
  }

  lemma InsertKeepsUnique(rows: seq<Row>, r: Row)
    requires UniqueIds(rows) && !HasId(rows, r.id)
    ensures UniqueIds(Insert(rows, r))
  {
  }

  function PendingRows(rows: seq<Row>): seq<Row> {
    if rows == [] then []
    else if rows[0].status == Pending then [rows[0]] + PendingRows(rows[1..])
    else PendingRows(rows[1..])
  }

  lemma {:induction false} PendingMembers(rows: seq<Row>)
    ensures forall x :: x in PendingRows(rows) <==> x in rows && x.status == Pending
  {
    if rows != [] {
      PendingMembers(rows[1..]);
    }
  }

  function OldestPending(rows: seq<Row>, limit: nat): (r: seq<Row>) {
    var pending := PendingRows(rows);
    if |pending| <= limit then pending else pending[..limit]
  }

  /**
   * Every answer the database may give to "the `limit` oldest pending rows",
   * however it orders rows created at the same instant.
   */
  predicate PossibleFetch(rows: seq<Row>, limit: nat, fetched: seq<Row>) {
    && (forall r :: r in fetched ==> r in rows && r.status == Pending)
    && UniqueIds(fetched)
    && SortedByCreation(fetched)
    && |fetched| <= limit
    && (forall r :: r in rows && r.status == Pending && r !in fetched ==>
          |fetched| == limit && forall f :: f in fetched ==> f.createdAt <= r.createdAt)
  }

  lemma {:induction false} PendingKeepsOrder(rows: seq<Row>)
    requires SortedByCreation(rows)
    ensures SortedByCreation(PendingRows(rows))
  {
    if rows != [] {
      PendingKeepsOrder(rows[1..]);
      PendingMembers(rows[1..]);
      var rest := PendingRows(rows[1..]);
      forall i | 0 <= i < |rest| ensures rows[0].createdAt <= rest[i].createdAt {
        assert rest[i] in rows[1..];
      }
    }
  }

  lemma {:induction false} PendingKeepsUnique(rows: seq<Row>)
    requires UniqueIds(rows)
    ensures UniqueIds(PendingRows(rows))
  {
    if rows != [] {
      PendingKeepsUnique(rows[1..]);
      PendingMembers(rows[1..]);
      var rest := PendingRows(rows[1..]);
      forall i | 0 <= i < |rest| ensures rows[0].id != rest[i].id {
        assert rest[i] in rows[1..];
      }
    }
  }

  lemma OldestPendingIsPossible(rows: seq<Row>, limit: nat)
    requires SortedByCreation(rows) && UniqueIds(rows)
    ensures PossibleFetch(rows, limit, OldestPending(rows, limit))
  {
    PendingKeepsOrder(rows);
    PendingKeepsUnique(rows);
    PendingMembers(rows);
    var pending, fetched := PendingRows(rows), OldestPending(rows, limit);
    assert forall i :: 0 <= i < |fetched| ==> fetched[i] == pending[i];
    forall r | r in rows && r.status == Pending && r !in fetched
      ensures |fetched| == limit && forall f :: f in fetched ==> f.createdAt <= r.createdAt
    {
      assert r in pending;
      var i :| 0 <= i < |pending| && pending[i] == r;
      assert i >= |fetched|;
    }
  }

  /** Repository.save: overwrite the row with that key, or insert it when there is none. */
  function SaveRow(rows: seq<Row>, r: Row): (rows': seq<Row>) {
    if HasId(rows, r.id)
    then seq(|rows|, i requires 0 <= i < |rows| => if rows[i].id == r.id then r else rows[i])
    else Insert(rows, r)
  }

  lemma SaveSkipsOther(head: Row, tail: seq<Row>, r: Row)
    requires head.id != r.id && HasId(tail, r.id)
    ensures HasId([head] + tail, r.id)
    ensures SaveRow([head] + tail, r) == [head] + SaveRow(tail, r)
  {
    var m :| 0 <= m < |tail| && tail[m].id == r.id;
    assert ([head] + tail)[m + 1].id == r.id;
  }

  lemma SaveReplacesHead(head: Row, tail: seq<Row>, r: Row)
    requires head.id == r.id && !HasId(tail, r.id)
    ensures HasId([head] + tail, r.id)
    ensures SaveRow([head] + tail, r) == [r] + tail
  {
    assert ([head] + tail)[0].id == r.id;
  }

  /** INSERT under the primary key and, when the table has one, the unique constraint on event_id. */
  predicate MayInsert(rows: seq<Row>, r: Row, uniqueEvents: bool) {
    !HasId(rows, r.id) && (uniqueEvents ==> !HasEvent(rows, r.eventId))
  }

  class OutboxEntryRepository {
    var rows: seq<Row>
    /** Whether the database has the unique constraint that the ORM entity declares. */
    const uniqueEvents: bool

    constructor (uniqueEvents: bool)
      ensures rows == [] && this.uniqueEvents == uniqueEvents
    {
      rows := [];
      this.uniqueEvents := uniqueEvents;
    }

    /** `databaseUp` says whether the statement reaches the database and completes. */
    method Append(entry: OutboxEntryEntity, databaseUp: bool) returns (r: Result<(), string>)
      modifies this`rows
      ensures r.Success? <==> databaseUp && MayInsert(old(rows), entry.ToOrm(), uniqueEvents)
      ensures rows == if r.Success? then Insert(old(rows), entry.ToOrm()) else old(rows)
    {
      var orm := entry.ToOrm();
      if !databaseUp {
        return Failure("database error");
      }
      if !MayInsert(rows, orm, uniqueEvents) {
        return Failure("duplicate key");
      }
      rows := Insert(rows, orm);
      return Success(());
    }

    method FindPending(limit: nat) returns (entries: seq<OutboxEntryEntity>)
      ensures fresh(entries)
      ensures forall i, j :: 0 <= i < j < |entries| ==> entries[i] != entries[j]
      ensures |entries| == |OldestPending(rows, limit)|
      ensures forall i :: 0 <= i < |entries| ==> entries[i].ToOrm() == OldestPending(rows, limit)[i]
    {
      var found := OldestPending(rows, limit);
      entries := [];
      for i := 0 to |found|
        invariant |entries| == i && fresh(entries)
        invariant forall j, k :: 0 <= j < k < i ==> entries[j] != entries[k]
        invariant forall j :: 0 <= j < i ==> entries[j].ToOrm() == found[j]
      {
        var entry := new OutboxEntryEntity.Reconstitute(found[i]);
        entries := entries + [entry];
      }
    }

    method Save(entry: OutboxEntryEntity, databaseUp: bool) returns (r: Result<(), string>)
      modifies this`rows
      ensures r.Success? <==> databaseUp
      ensures rows == if databaseUp then SaveRow(old(rows), entry.ToOrm()) else old(rows)
    {
      if !databaseUp {
        return Failure("database error");
      }
      rows := SaveRow(rows, entry.ToOrm());
      return Success(());
    }
  }
}
