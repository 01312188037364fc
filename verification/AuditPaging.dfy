/**
 * A client that walks the pages of an audit query, from the first one for as long
 * as `hasNextPage` says so, while anybody keeps appending to the log.
 */
module AuditPaging {
  import opened TenantTables
  import opened AuditLog
  import opened Pagination
  import opened Wrappers

  datatype Search = Search(tenant: string, filter: AuditFilter, limit: int)

  type Pages = seq<seq<AuditRow>>

  function Keep(q: Search): AuditRow -> bool {
    Scoped(q.tenant, Matches(q.filter))
  }

  /** The log after the inserts of some rows, by any tenants; a taken key is refused. */
  function Grown(t: Table<AuditEvent>, rs: seq<AuditRow>): Table<AuditEvent>
    decreases rs
  {
    if rs == [] then t else Grown(if HasId(t, rs[0].id) then t else Place(t, rs[0]), rs[1..])
  }

  /** What is inserted between the two statements of one fetch, and then before the next fetch. */
  datatype Gap = Gap(beforeCount: seq<AuditRow>, beforeNext: seq<AuditRow>)

  /** The log that the first fetch of a walk counts. */
  function Counted(t: Table<AuditEvent>, gaps: seq<Gap>): Table<AuditEvent> {
    if gaps == [] then t else Grown(t, gaps[0].beforeCount)
  }

  /** The log that the second fetch of a walk reads. */
  function Next(t: Table<AuditEvent>, gaps: seq<Gap>): Table<AuditEvent>
    requires gaps != []
  {
    Grown(Counted(t, gaps), gaps[0].beforeNext)
  }

  /** The pages that the client gets; `gaps[i]` happens during and after its fetch number `i`. */
  function Walk(t: Table<AuditEvent>, gaps: seq<Gap>, q: Search, page: int): Pages
    requires page >= 1 && q.limit >= 1
    decreases gaps
  {
    var got := Queried(t, Counted(t, gaps), q.tenant, q.filter, page, q.limit);
    [got.rows] +
    if !got.meta.hasNextPage || gaps == [] then [] else Walk(Next(t, gaps), gaps[1..], q, page + 1)
  }

  /** Some fetch of the walk says that there is no next page. */
  predicate Finishes(t: Table<AuditEvent>, gaps: seq<Gap>, q: Search, page: int)
    requires page >= 1 && q.limit >= 1
    decreases gaps
  {
    !Queried(t, Counted(t, gaps), q.tenant, q.filter, page, q.limit).meta.hasNextPage ||
    (gaps != [] && Finishes(Next(t, gaps), gaps[1..], q, page + 1))
  }

  function Flatten(pages: Pages): seq<AuditRow> {
    if pages == [] then [] else pages[0] + Flatten(pages[1..])
  }

  /** While no key is taken, growth stores every row, like one batch. */
  lemma {:induction false} GrownStores(t: Table<AuditEvent>, rs: seq<AuditRow>)
    requires forall i :: 0 <= i < |rs| ==> !HasId(t, rs[i].id)
    requires forall i, j :: 0 <= i < j < |rs| ==> rs[i].id != rs[j].id
    ensures InsertAll(t, rs) == Success(Grown(t, rs))
    ensures multiset(Grown(t, rs)) == multiset(t) + multiset(rs)
    decreases rs
  {
    InsertAllIff(t, rs);
    if rs != [] {
      PlaceAdds(t, rs[0]);
      GrownStores(Place(t, rs[0]), rs[1..]);
    }
  }

  lemma {:induction false} GrownTwice(t: Table<AuditEvent>, rs: seq<AuditRow>, more: seq<AuditRow>)
    ensures Grown(Grown(t, rs), more) == Grown(t, rs + more)
    decreases rs
  {
    hide Place, HasId;
    if rs == [] {
      assert rs + more == more;
    } else {
      var next := if HasId(t, rs[0].id) then t else Place(t, rs[0]);
      GrownTwice(next, rs[1..], more);
      assert Grown(t, rs) == Grown(next, rs[1..]);
      assert (rs + more)[0] == rs[0] && (rs + more)[1..] == rs[1..] + more;
    }
  }

  /** The count sees what came before it, the next fetch all of the gap. */
  lemma GapGrows(t: Table<AuditEvent>, gaps: seq<Gap>)
    requires gaps != []
    ensures Counted(t, gaps) == Grown(t, gaps[0].beforeCount)
    ensures Next(t, gaps) == Grown(t, gaps[0].beforeCount + gaps[0].beforeNext)
  {
    GrownTwice(t, gaps[0].beforeCount, gaps[0].beforeNext);
  }

  /** How many rows a query returns before this one. */
  function Rank(t: Table<AuditEvent>, keep: AuditRow -> bool, x: AuditRow): nat {
    if t == [] || t[0] == x then 0 else (if keep(t[0]) then 1 else 0) + Rank(t[1..], keep, x)
  }

  lemma {:induction false} RankIsPosition(t: Table<AuditEvent>, keep: AuditRow -> bool, x: AuditRow)
    requires x in t && keep(x)
    ensures Rank(t, keep, x) < |Filter(t, keep)| && Filter(t, keep)[Rank(t, keep, x)] == x
  {
    if t[0] != x {
      assert x in t[1..];
      RankIsPosition(t[1..], keep, x);
    }
  }

  /** An insert can push a row back, never forward. */
  lemma {:induction false} PlaceKeepsRank(t: Table<AuditEvent>, keep: AuditRow -> bool, r: AuditRow, x: AuditRow)
    requires x in t && x != r
    ensures x in Place(t, r)
    ensures Rank(Place(t, r), keep, x) >= Rank(t, keep, x)
  {
    if t[0].data.occurredAt <= r.data.occurredAt {
      assert ([r] + t)[1..] == t && Place(t, r) == [r] + t;
    } else if t[0] != x {
      assert x in t[1..];
      PlaceKeepsRank(t[1..], keep, r, x);
      assert Place(t, r)[1..] == Place(t[1..], r);
    }
  }

  lemma {:induction false} GrowthKeepsRank(t: Table<AuditEvent>, keep: AuditRow -> bool, rs: seq<AuditRow>, x: AuditRow)
    requires x in t
    ensures x in Grown(t, rs)
    ensures Rank(Grown(t, rs), keep, x) >= Rank(t, keep, x)
    decreases rs
  {
    if rs != [] {
      if HasId(t, rs[0].id) {
        GrowthKeepsRank(t, keep, rs[1..], x);
      } else {
        var i :| 0 <= i < |t| && t[i] == x;
        PlaceKeepsRank(t, keep, rs[0], x);
        GrowthKeepsRank(Place(t, rs[0]), keep, rs[1..], x);
      }
    }
  }

  // ---------------------------------------------------------------------
  // The same walk, told by offsets instead of page numbers and page counts
  // ---------------------------------------------------------------------

  predicate More(t: Table<AuditEvent>, q: Search, skip: nat)
    requires q.limit >= 1
  {
    skip + q.limit < |Filter(t, Keep(q))|
  }

  function WalkFrom(t: Table<AuditEvent>, gaps: seq<Gap>, q: Search, skip: nat): Pages
    requires q.limit >= 1
    decreases gaps
  {
    [Slice(Filter(t, Keep(q)), skip, q.limit)] +
    if !More(Counted(t, gaps), q, skip) || gaps == [] then [] else WalkFrom(Next(t, gaps), gaps[1..], q, skip + q.limit)
  }

  predicate FinishesFrom(t: Table<AuditEvent>, gaps: seq<Gap>, q: Search, skip: nat)
    requires q.limit >= 1
    decreases gaps
  {
    !More(Counted(t, gaps), q, skip) || (gaps != [] && FinishesFrom(Next(t, gaps), gaps[1..], q, skip + q.limit))
  }

  lemma NextOffset(page: int, limit: int)
    ensures (page + 1 - 1) * limit == (page - 1) * limit + limit
  {
  }

  lemma OnePage(t: Table<AuditEvent>, counted: Table<AuditEvent>, q: Search, page: int, skip: nat)
    requires page >= 1 && q.limit >= 1 && skip == (page - 1) * q.limit
    ensures Queried(t, counted, q.tenant, q.filter, page, q.limit).rows == Slice(Filter(t, Keep(q)), skip, q.limit)
    ensures Queried(t, counted, q.tenant, q.filter, page, q.limit).meta.hasNextPage <==> More(counted, q, skip)
  {
    hide Filter, Slice, Matches;
    HasNextPageIff(page, q.limit, |Filter(counted, Keep(q))|);
    NextOffset(page, q.limit);
  }

  lemma {:induction false} WalkByOffset(t: Table<AuditEvent>, gaps: seq<Gap>, q: Search, page: int, skip: nat)
    requires page >= 1 && q.limit >= 1 && skip == (page - 1) * q.limit
    ensures Walk(t, gaps, q, page) == WalkFrom(t, gaps, q, skip)
    ensures Finishes(t, gaps, q, page) <==> FinishesFrom(t, gaps, q, skip)
    decreases gaps
  {
    hide Queried, Next, Counted, More;
    OnePage(t, Counted(t, gaps), q, page, skip);
    if gaps != [] {
      NextOffset(page, q.limit);
      WalkByOffset(Next(t, gaps), gaps[1..], q, page + 1, skip + q.limit);
    }
  }

  // ---------------------------------------------------------------------
  // What the client gets
  // ---------------------------------------------------------------------

  lemma OnThePage(s: seq<AuditRow>, skip: nat, limit: nat, i: nat)
    requires skip <= i < |s| && i < skip + limit
    ensures s[i] in Slice(s, skip, limit)
  {
    assert Slice(s, skip, limit)[i - skip] == s[i];
  }

  lemma FlattenFirst(first: seq<AuditRow>, rest: Pages)
    ensures Flatten([first] + rest) == first + Flatten(rest)
  {
    assert ([first] + rest)[1..] == rest;
  }

  lemma GapKeepsRank(t: Table<AuditEvent>, gaps: seq<Gap>, keep: AuditRow -> bool, x: AuditRow)
    requires x in t
    ensures x in Counted(t, gaps) && Rank(Counted(t, gaps), keep, x) >= Rank(t, keep, x)
    ensures gaps != [] ==> x in Next(t, gaps) && Rank(Next(t, gaps), keep, x) >= Rank(t, keep, x)
  {
    if gaps != [] {
      GrowthKeepsRank(t, keep, gaps[0].beforeCount, x);
      GrowthKeepsRank(Counted(t, gaps), keep, gaps[0].beforeNext, x);
    }
  }

  lemma WalkUnfolds(t: Table<AuditEvent>, gaps: seq<Gap>, q: Search, skip: nat)
    requires q.limit >= 1
    ensures var page := Slice(Filter(t, Keep(q)), skip, q.limit);
            Flatten(WalkFrom(t, gaps, q, skip)) ==
            page + if !More(Counted(t, gaps), q, skip) || gaps == [] then []
                   else Flatten(WalkFrom(Next(t, gaps), gaps[1..], q, skip + q.limit))
  {
    hide Filter, Slice, More, Next, Counted;
    FlattenFirst(Slice(Filter(t, Keep(q)), skip, q.limit),
                 if !More(Counted(t, gaps), q, skip) || gaps == [] then []
                 else WalkFrom(Next(t, gaps), gaps[1..], q, skip + q.limit));
  }

  /** A row that is not in front of the current page is still to come. */
  lemma {:induction false} StillToCome(t: Table<AuditEvent>, gaps: seq<Gap>, q: Search, skip: nat, x: AuditRow)
    requires q.limit >= 1 && FinishesFrom(t, gaps, q, skip)
    requires x in t && Keep(q)(x) && Rank(t, Keep(q), x) >= skip
    ensures x in Flatten(WalkFrom(t, gaps, q, skip))
    decreases gaps
  {
    hide Filter, Slice, Next, Counted, Rank, WalkFrom, Flatten, Keep;
    WalkUnfolds(t, gaps, q, skip);
    GapKeepsRank(t, gaps, Keep(q), x);
    RankIsPosition(t, Keep(q), x);
    RankIsPosition(Counted(t, gaps), Keep(q), x);
    if Rank(t, Keep(q), x) < skip + q.limit {
      OnThePage(Filter(t, Keep(q)), skip, q.limit, Rank(t, Keep(q), x));
    } else {
      StillToCome(Next(t, gaps), gaps[1..], q, skip + q.limit, x);
    }
  }

  /**
   * A client that follows hasNextPage to the end misses no row that matched when it started,
   * whatever is inserted between its fetches or within them, and wherever that sorts.
   */
  lemma NothingIsMissed(t: Table<AuditEvent>, gaps: seq<Gap>, q: Search)
    requires q.limit >= 1 && Finishes(t, gaps, q, 1)
    ensures var f := q.filter;
            forall x ::
              && x in t
              && x.tenantId == q.tenant
              && (f.actorId.GetOr("") != "" ==> x.data.actorId == f.actorId.value)
              && (f.action.GetOr("") != "" ==> x.data.action == f.action.value)
              && (f.resourceType.GetOr("") != "" ==> x.data.resourceType == f.resourceType.value)
              && (f.resourceId.GetOr("") != "" ==> x.data.resourceId == f.resourceId.value)
              && (f.outcome.GetOr("") != "" ==> x.data.outcome == f.outcome.value)
              && (f.fromDate.Some? && f.toDate.Some? ==> f.fromDate.value <= x.data.occurredAt <= f.toDate.value)
              ==> x in Flatten(Walk(t, gaps, q, 1))
  {
    hide Matches, Filter, Walk, WalkFrom, Finishes, FinishesFrom, Flatten, Rank;
    WalkByOffset(t, gaps, q, 1, 0);
    forall x | x in t && Keep(q)(x) ensures x in Flatten(Walk(t, gaps, q, 1)) {
      StillToCome(t, gaps, q, 0, x);
    }
    forall x | x in t {
      MatchesTells(q.filter, x);
    }
  }

  lemma {:induction false} AllKept(t: Table<AuditEvent>, gaps: seq<Gap>, q: Search, skip: nat)
    requires q.limit >= 1
    ensures forall x :: x in Flatten(WalkFrom(t, gaps, q, skip)) ==> Keep(q)(x)
    decreases gaps
  {
    hide Next, Counted, Keep, WalkFrom, Flatten, Filter;
    WalkUnfolds(t, gaps, q, skip);
    FilterMembers(t, Keep(q));
    var page := Slice(Filter(t, Keep(q)), skip, q.limit);
    assert forall i :: 0 <= i < |page| ==> page[i] in Filter(t, Keep(q));
    if More(Counted(t, gaps), q, skip) && gaps != [] {
      AllKept(Next(t, gaps), gaps[1..], q, skip + q.limit);
    }
  }

  /** No fetch shows a row of another tenant or one that does not match. */
  lemma NothingForeign(t: Table<AuditEvent>, gaps: seq<Gap>, q: Search)
    requires q.limit >= 1
    ensures var f := q.filter;
            forall x :: x in Flatten(Walk(t, gaps, q, 1)) ==>
              && x.tenantId == q.tenant
              && (f.actorId.GetOr("") != "" ==> x.data.actorId == f.actorId.value)
              && (f.action.GetOr("") != "" ==> x.data.action == f.action.value)
              && (f.resourceType.GetOr("") != "" ==> x.data.resourceType == f.resourceType.value)
              && (f.resourceId.GetOr("") != "" ==> x.data.resourceId == f.resourceId.value)
              && (f.outcome.GetOr("") != "" ==> x.data.outcome == f.outcome.value)
              && (f.fromDate.Some? && f.toDate.Some? ==> f.fromDate.value <= x.data.occurredAt <= f.toDate.value)
  {
    hide Matches, Filter, Walk, WalkFrom, Flatten;
    WalkByOffset(t, gaps, q, 1, 0);
    AllKept(t, gaps, q, 0);
    forall x | x in Flatten(Walk(t, gaps, q, 1)) {
      MatchesTells(q.filter, x);
    }
  }

  predicate Quiet(gaps: seq<Gap>) {
    forall i :: 0 <= i < |gaps| ==> gaps[i] == Gap([], [])
  }

  lemma QuietGap(t: Table<AuditEvent>, gaps: seq<Gap>)
    requires Quiet(gaps)
    ensures Counted(t, gaps) == t && (gaps != [] ==> Next(t, gaps) == t && Quiet(gaps[1..]))
  {
  }

  /** One fetch of a quiet walk. */
  lemma QuietFetch(t: Table<AuditEvent>, gaps: seq<Gap>, q: Search, skip: nat)
    requires q.limit >= 1 && Quiet(gaps)
    ensures var page, more := Slice(Filter(t, Keep(q)), skip, q.limit), skip + q.limit < |Filter(t, Keep(q))|;
      if !more || gaps == []
      then WalkFrom(t, gaps, q, skip) == [page] && Flatten(WalkFrom(t, gaps, q, skip)) == page &&
           (FinishesFrom(t, gaps, q, skip) <==> !more)
      else Quiet(gaps[1..]) && Next(t, gaps) == t &&
           |WalkFrom(t, gaps, q, skip)| == 1 + |WalkFrom(t, gaps[1..], q, skip + q.limit)| &&
           Flatten(WalkFrom(t, gaps, q, skip)) == page + Flatten(WalkFrom(t, gaps[1..], q, skip + q.limit)) &&
           (FinishesFrom(t, gaps, q, skip) <==> FinishesFrom(t, gaps[1..], q, skip + q.limit))
  {
    hide Filter, Slice, Next, Counted, Quiet, Keep;
    QuietGap(t, gaps);
    WalkUnfolds(t, gaps, q, skip);
  }

  lemma SliceToEnd(s: seq<AuditRow>, skip: nat, limit: nat)
    requires skip <= |s|
    ensures if skip + limit < |s| then s[skip..] == Slice(s, skip, limit) + s[skip + limit..] else s[skip..] == Slice(s, skip, limit)
  {
  }

  /** While nothing is appended, the pages that follow hold the rest of the matches, each row once. */
  lemma {:induction false} QuietWalk(t: Table<AuditEvent>, gaps: seq<Gap>, q: Search, skip: nat, pages: nat)
    requires q.limit >= 1 && Quiet(gaps)
    requires skip <= |Filter(t, Keep(q))| <= skip + pages * q.limit && pages <= 1 + |gaps|
    requires pages > 1 ==> skip + (pages - 1) * q.limit < |Filter(t, Keep(q))|
    ensures FinishesFrom(t, gaps, q, skip)
    ensures Flatten(WalkFrom(t, gaps, q, skip)) == Filter(t, Keep(q))[skip..]
    ensures |WalkFrom(t, gaps, q, skip)| == if pages == 0 then 1 else pages
    decreases gaps
  {
    hide Filter, Slice, Quiet, Keep, Flatten, WalkFrom, FinishesFrom;
    QuietFetch(t, gaps, q, skip);
    SliceToEnd(Filter(t, Keep(q)), skip, q.limit);
    NextOffset(pages, q.limit);
    if pages > 1 {
      NextOffset(pages - 1, q.limit);
      TimesMonotone(1, pages - 1, q.limit);
      QuietWalk(t, gaps[1..], q, skip + q.limit, pages - 1);
    }
  }

  /** Without appends the client gets every match once, in order, in ceil(total / limit) fetches (one if nothing matches). */
  lemma EachRowOnce(t: Table<AuditEvent>, gaps: seq<Gap>, q: Search)
    requires q.limit >= 1 && Quiet(gaps)
    requires 1 + |gaps| >= CeilDiv(|Filter(t, Keep(q))|, q.limit)
    ensures Finishes(t, gaps, q, 1)
    ensures Flatten(Walk(t, gaps, q, 1)) == Filter(t, Keep(q))
    ensures |Walk(t, gaps, q, 1)| ==
            if Filter(t, Keep(q)) == [] then 1 else CeilDiv(|Filter(t, Keep(q))|, q.limit)
  {
    hide Filter, Walk, WalkFrom, Finishes, FinishesFrom, Keep, Flatten, Quiet;
    WalkByOffset(t, gaps, q, 1, 0);
    QuietWalk(t, gaps, q, 0, CeilDiv(|Filter(t, Keep(q))|, q.limit));
    assert Filter(t, Keep(q))[0..] == Filter(t, Keep(q));
  }
}
