/**
 * The audit log: rows of all tenants, only ever appended, kept here in the order
 * in which a query returns them (latest occurrence first).
 */
module AuditLog {
  import opened Wrappers
  import opened Events
  import opened TenantTables
  import opened Pagination

  datatype AuditEvent = AuditEvent(
    actorId: string,
    actorType: string,
    action: string,
    resourceType: string,
    resourceId: string,
    outcome: string,
    metadata: Json,
    correlationId: string,
    ipAddress: Option<string>,
    userAgent: Option<string>,
    occurredAt: int)

  type AuditRow = Row<AuditEvent>

  predicate LatestFirst(t: Table<AuditEvent>) {
    forall i, j :: 0 <= i < j < |t| ==> t[i].data.occurredAt >= t[j].data.occurredAt
  }

  /** Where an ordered read finds a new row: before everything that did not happen later. */
  function Place(t: Table<AuditEvent>, r: AuditRow): Table<AuditEvent> {
    if t == [] || t[0].data.occurredAt <= r.data.occurredAt then [r] + t else [t[0]] + Place(t[1..], r)
  }

  /** One INSERT of several rows: all of them or none. */
  function InsertAll(t: Table<AuditEvent>, rs: seq<AuditRow>): Result<Table<AuditEvent>, Error>
    decreases rs
  {
    if rs == [] then Success(t)
    else if HasId(t, rs[0].id) then Failure(DuplicateKey)
    else InsertAll(Place(t, rs[0]), rs[1..])
  }

  function Appended(t: Table<AuditEvent>, ctx: Option<string>, r: AuditRow): Result<Table<AuditEvent>, Error> {
    match GuardTenantOwnership(ctx, r.tenantId)
    case Failure(e) => Failure(e)
    case Success(_) => InsertAll(t, [r])
  }

  /** An empty batch succeeds before the context is looked at. */
  function BatchAppended(t: Table<AuditEvent>, ctx: Option<string>, rs: seq<AuditRow>): Result<Table<AuditEvent>, Error> {
    if rs == [] then Success(t)
    else match RequireTenantId(ctx)
      case Failure(e) => Failure(e)
      case Success(tenant) =>
        if exists i :: 0 <= i < |rs| && rs[i].tenantId != tenant then Failure(MixedTenants) else InsertAll(t, rs)
  }

  // ---------------------------------------------------------------------
  // Queries
  // ---------------------------------------------------------------------

  datatype AuditFilter = AuditFilter(
    actorId: Option<string>,
    action: Option<string>,
    resourceType: Option<string>,
    resourceId: Option<string>,
    outcome: Option<string>,
    fromDate: Option<int>,
    toDate: Option<int>)

  /** A column is compared when the filter gives a non-empty value, the time when it gives both ends. */
  function Matches(f: AuditFilter): AuditRow -> bool {
    (r: AuditRow) =>
      && r.data.actorId == NonEmpty(f.actorId).GetOr(r.data.actorId)
      && r.data.action == NonEmpty(f.action).GetOr(r.data.action)
      && r.data.resourceType == NonEmpty(f.resourceType).GetOr(r.data.resourceType)
      && r.data.resourceId == NonEmpty(f.resourceId).GetOr(r.data.resourceId)
      && r.data.outcome == NonEmpty(f.outcome).GetOr(r.data.outcome)
      && (f.fromDate.Some? && f.toDate.Some? ==> f.fromDate.value <= r.data.occurredAt <= f.toDate.value)
  }

  /** An `andWhere` clause of the query builder. */
  datatype Clause =
    | ActorIs(actor: string)
    | ActionIs(action: string)
    | ResourceTypeIs(resourceType: string)
    | ResourceIs(resource: string)
    | OutcomeIs(outcome: string)
    | Between(from: int, to: int)
  {
    predicate Holds(r: AuditRow) {
      match this
      case ActorIs(v) => r.data.actorId == v
      case ActionIs(v) => r.data.action == v
      case ResourceTypeIs(v) => r.data.resourceType == v
      case ResourceIs(v) => r.data.resourceId == v
      case OutcomeIs(v) => r.data.outcome == v
      case Between(from, to) => from <= r.data.occurredAt <= to
    }
  }

  predicate AllHold(clauses: seq<Clause>, r: AuditRow) {
    forall i :: 0 <= i < |clauses| ==> clauses[i].Holds(r)
  }

  datatype Fetched = Fetched(rows: seq<AuditRow>, meta: PaginationMeta)

  function Matching(t: Table<AuditEvent>, tenant: string, f: AuditFilter): Table<AuditEvent> {
    Filter(t, Scoped(tenant, Matches(f)))
  }

  /**
   * What a query returns: one page of the tenant's matching rows, and the metadata of all of
   * them. The rows are read first and counted in a second statement, when the log may have
   * grown to `counted`.
   */
  function Queried(t: Table<AuditEvent>, counted: Table<AuditEvent>, tenant: string, f: AuditFilter, page: int, limit: int): Fetched
    requires page >= 1 && limit >= 1
  {
    Fetched(PageOf(Matching(t, tenant, f), page, limit),
            BuildPaginationMeta(page, limit, |Matching(counted, tenant, f)|))
  }

  /** skip((page - 1) * limit).take(limit) */
  function PageOf(matching: Table<AuditEvent>, page: int, limit: int): seq<AuditRow>
    requires page >= 1 && limit >= 1
  {
    Slice(matching, (page - 1) * limit, limit)
  }

  lemma OffsetIsNatural(page: int, limit: int)
    requires page >= 1 && limit >= 1
    ensures (page - 1) * limit >= 0
  {
  }

  lemma OneMore(clauses: seq<Clause>, c: Clause)
    ensures forall r :: AllHold(clauses + [c], r) <==> AllHold(clauses, r) && c.Holds(r)
  {
    forall r | AllHold(clauses + [c], r) ensures AllHold(clauses, r) && c.Holds(r) {
      assert (clauses + [c])[|clauses|] == c;
      assert forall i :: 0 <= i < |clauses| ==> clauses[i] == (clauses + [c])[i];
    }
  }

  method AndWhere(clauses: seq<Clause>, value: Option<string>, c: Clause) returns (extended: seq<Clause>)
    ensures forall r :: AllHold(extended, r) <==> AllHold(clauses, r) && (NonEmpty(value).Some? ==> c.Holds(r))
  {
    extended := clauses;
    if value.Some? && value.value != "" {
      OneMore(clauses, c);
      extended := clauses + [c];
    }
  }

  method Clauses(f: AuditFilter) returns (clauses: seq<Clause>)
    ensures forall r :: AllHold(clauses, r) <==> Matches(f)(r)
    ensures forall r :: AllHold(clauses, r) <==>
              && (f.actorId.GetOr("") != "" ==> r.data.actorId == f.actorId.value)
              && (f.action.GetOr("") != "" ==> r.data.action == f.action.value)
              && (f.resourceType.GetOr("") != "" ==> r.data.resourceType == f.resourceType.value)
              && (f.resourceId.GetOr("") != "" ==> r.data.resourceId == f.resourceId.value)
              && (f.outcome.GetOr("") != "" ==> r.data.outcome == f.outcome.value)
              && (f.fromDate.Some? && f.toDate.Some? ==> f.fromDate.value <= r.data.occurredAt <= f.toDate.value)
  {
    clauses := AndWhere([], f.actorId, ActorIs(f.actorId.GetOr("")));
    clauses := AndWhere(clauses, f.action, ActionIs(f.action.GetOr("")));
    clauses := AndWhere(clauses, f.resourceType, ResourceTypeIs(f.resourceType.GetOr("")));
    clauses := AndWhere(clauses, f.resourceId, ResourceIs(f.resourceId.GetOr("")));
    clauses := AndWhere(clauses, f.outcome, OutcomeIs(f.outcome.GetOr("")));
    if f.fromDate.Some? && f.toDate.Some? {
      OneMore(clauses, Between(f.fromDate.value, f.toDate.value));
      clauses := clauses + [Between(f.fromDate.value, f.toDate.value)];
    }
  }

  class AuditEventRepository {
    var rows: Table<AuditEvent>

    predicate Valid()
      reads this
    {
      LatestFirst(rows) && UniqueIds(rows)
    }

    constructor ()
      ensures Valid() && rows == []
    {
      rows := [];
    }

    method Append(ctx: Option<string>, r: AuditRow) returns (error: Option<Error>)
      requires Valid()
      modifies this
      ensures Valid()
      ensures match Appended(old(rows), ctx, r)
              case Failure(e) => error == Some(e) && rows == old(rows)
              case Success(t) => error == None && rows == t
      ensures error == None <==> r.tenantId != "" && ctx == Some(r.tenantId) && forall i :: 0 <= i < |old(rows)| ==> old(rows)[i].id != r.id
      ensures error == Some(NoContext) <==> ctx.GetOr("") == ""
      ensures error == Some(Forbidden) <==> ctx.GetOr("") != "" && r.tenantId != ctx.value
      ensures error.Some? ==> error.value in {NoContext, Forbidden, DuplicateKey}
      ensures error == None ==> multiset(rows) == multiset(old(rows)) + multiset{r}
      ensures forall i, j :: 0 <= i < j < |rows| ==> rows[i].data.occurredAt >= rows[j].data.occurredAt
    {
      var guard := GuardTenantOwnership(ctx, r.tenantId);
      if guard.Failure? {
        return Some(guard.error);
      }
      OneInsert(rows, r);
      if HasId(rows, r.id) {
        return Some(DuplicateKey);
      }
      PlaceKeepsOrder(rows, r);
      PlaceKeepsIds(rows, r);
      PlaceAdds(rows, r);
      rows := Place(rows, r);
      return None;
    }

    method AppendBatch(ctx: Option<string>, rs: seq<AuditRow>) returns (error: Option<Error>)
      requires Valid()
      modifies this
      ensures Valid()
      ensures match BatchAppended(old(rows), ctx, rs)
              case Failure(e) => error == Some(e) && rows == old(rows)
              case Success(t) => error == None && rows == t
      ensures error == None <==>
              rs == [] ||
              (&& ctx.GetOr("") != ""
               && (forall i :: 0 <= i < |rs| ==> rs[i].tenantId == ctx.value)
               && (forall i, k :: 0 <= i < |rs| && 0 <= k < |old(rows)| ==> old(rows)[k].id != rs[i].id)
               && (forall i, j :: 0 <= i < j < |rs| ==> rs[i].id != rs[j].id))
      ensures error == Some(NoContext) <==> rs != [] && ctx.GetOr("") == ""
      ensures error == Some(MixedTenants) <==> ctx.GetOr("") != "" && exists i :: 0 <= i < |rs| && rs[i].tenantId != ctx.value
      ensures error.Some? ==> error.value in {NoContext, MixedTenants, DuplicateKey}
      ensures error == None ==> multiset(rows) == multiset(old(rows)) + multiset(rs)
      ensures forall i, j :: 0 <= i < j < |rows| ==> rows[i].data.occurredAt >= rows[j].data.occurredAt
    {
      if rs == [] {
        return None;
      }
      var tenant := RequireTenantId(ctx);
      if tenant.Failure? {
        return Some(tenant.error);
      }
      for i := 0 to |rs|
        invariant forall j :: 0 <= j < i ==> rs[j].tenantId == tenant.value
      {
        if rs[i].tenantId != tenant.value {
          return Some(MixedTenants);
        }
      }
      InsertAllKeepsOrder(rows, rs);
      InsertAllIff(rows, rs);
      var inserted := InsertAll(rows, rs);
      if inserted.Failure? {
        return Some(inserted.error);
      }
      rows := inserted.value;
      return None;
    }

    /**
     * Any page and limit may be asked for. `odd` is what the database driver answers to an
     * offset below zero or a limit below one.
     */
    method Query(ctx: Option<string>, f: AuditFilter, requestedPage: Option<int>, requestedLimit: Option<int>,
                 odd: Option<seq<AuditRow>>)
      returns (r: Result<Fetched, Error>)
      ensures
        var page := requestedPage.GetOr(1);
        var limit := if requestedLimit.GetOr(50) < 200 then requestedLimit.GetOr(50) else 200;
        if ctx.GetOr("") == "" then r == Failure(NoContext)
        else if page >= 1 && limit >= 1 then r == Success(Queried(rows, rows, ctx.value, f, page, limit))
        else if odd.None? then r == Failure(DriverRefused)
        else r == Success(Fetched(odd.value, BuildPaginationMeta(page, limit, |Matching(rows, ctx.value, f)|)))
      ensures r.Success? && requestedPage.GetOr(1) >= 1 && requestedLimit.GetOr(50) >= 1 ==>
        forall i :: 0 <= i < |r.value.rows| ==>
          var row := r.value.rows[i];
          && row in rows && row.tenantId == ctx.value
          && (f.actorId.GetOr("") != "" ==> row.data.actorId == f.actorId.value)
          && (f.action.GetOr("") != "" ==> row.data.action == f.action.value)
          && (f.resourceType.GetOr("") != "" ==> row.data.resourceType == f.resourceType.value)
          && (f.resourceId.GetOr("") != "" ==> row.data.resourceId == f.resourceId.value)
          && (f.outcome.GetOr("") != "" ==> row.data.outcome == f.outcome.value)
          && (f.fromDate.Some? && f.toDate.Some? ==> f.fromDate.value <= row.data.occurredAt <= f.toDate.value)
    {
      var page := requestedPage.GetOr(1);
      var limit := if requestedLimit.GetOr(50) < 200 then requestedLimit.GetOr(50) else 200;
      var tenant := RequireTenantId(ctx);
      if tenant.Failure? {
        return Failure(tenant.error);
      }
      hide Filter, PageOf, TotalPages, Matches;
      var clauses := Clauses(f);
      var scope := Scoped(tenant.value, (row: AuditRow) => AllHold(clauses, row));
      SameFilter(rows, scope, Scoped(tenant.value, Matches(f)));
      var matching := Filter(rows, scope);
      var data: seq<AuditRow>;
      if page >= 1 && limit >= 1 {
        data := PageOf(matching, page, limit);
        PageRows(rows, tenant.value, f, page, limit);
      } else if odd.None? {
        return Failure(DriverRefused);
      } else {
        data := odd.value;
      }
      return Success(Fetched(data, BuildPaginationMeta(page, limit, |matching|)));
    }
  }

  // ---------------------------------------------------------------------
  // What a query returns, by the columns of the log
  // ---------------------------------------------------------------------

  lemma MatchesTells(f: AuditFilter, r: AuditRow)
    ensures Matches(f)(r) <==>
            && (f.actorId.GetOr("") != "" ==> r.data.actorId == f.actorId.value)
            && (f.action.GetOr("") != "" ==> r.data.action == f.action.value)
            && (f.resourceType.GetOr("") != "" ==> r.data.resourceType == f.resourceType.value)
            && (f.resourceId.GetOr("") != "" ==> r.data.resourceId == f.resourceId.value)
            && (f.outcome.GetOr("") != "" ==> r.data.outcome == f.outcome.value)
            && (f.fromDate.Some? && f.toDate.Some? ==> f.fromDate.value <= r.data.occurredAt <= f.toDate.value)
  {
  }

  /** The places of the log that a query is about. */
  ghost function Wanted(t: Table<AuditEvent>, tenant: string, f: AuditFilter): set<nat> {
    set k: nat | k < |t| && t[k].tenantId == tenant && Matches(f)(t[k])
  }

  lemma WantedTells(t: Table<AuditEvent>, tenant: string, f: AuditFilter)
    ensures Wanted(t, tenant, f) == set k: nat |
              && k < |t| && t[k].tenantId == tenant
              && (f.actorId.GetOr("") != "" ==> t[k].data.actorId == f.actorId.value)
              && (f.action.GetOr("") != "" ==> t[k].data.action == f.action.value)
              && (f.resourceType.GetOr("") != "" ==> t[k].data.resourceType == f.resourceType.value)
              && (f.resourceId.GetOr("") != "" ==> t[k].data.resourceId == f.resourceId.value)
              && (f.outcome.GetOr("") != "" ==> t[k].data.outcome == f.outcome.value)
              && (f.fromDate.Some? && f.toDate.Some? ==> f.fromDate.value <= t[k].data.occurredAt <= f.toDate.value)
  {
    hide Matches;
    forall k | 0 <= k < |t| {
      MatchesTells(f, t[k]);
    }
  }

  lemma PageRows(t: Table<AuditEvent>, tenant: string, f: AuditFilter, page: int, limit: int)
    requires page >= 1 && limit >= 1
    ensures var rows := PageOf(Matching(t, tenant, f), page, limit);
            forall i :: 0 <= i < |rows| ==>
              var row := rows[i];
              && row in t && row.tenantId == tenant
              && (f.actorId.GetOr("") != "" ==> row.data.actorId == f.actorId.value)
              && (f.action.GetOr("") != "" ==> row.data.action == f.action.value)
              && (f.resourceType.GetOr("") != "" ==> row.data.resourceType == f.resourceType.value)
              && (f.resourceId.GetOr("") != "" ==> row.data.resourceId == f.resourceId.value)
              && (f.outcome.GetOr("") != "" ==> row.data.outcome == f.outcome.value)
              && (f.fromDate.Some? && f.toDate.Some? ==> f.fromDate.value <= row.data.occurredAt <= f.toDate.value)
  {
    hide Filter, Matches;
    OffsetIsNatural(page, limit);
    FilterMembers(t, Scoped(tenant, Matches(f)));
    var rows := PageOf(Matching(t, tenant, f), page, limit);
    forall i | 0 <= i < |rows| ensures rows[i] in Matching(t, tenant, f) {
    }
    forall i | 0 <= i < |rows| {
      MatchesTells(f, rows[i]);
    }
  }

  lemma MatchingCounts(t: Table<AuditEvent>, tenant: string, f: AuditFilter)
    ensures |Matching(t, tenant, f)| == |set k: nat |
              && k < |t| && t[k].tenantId == tenant
              && (f.actorId.GetOr("") != "" ==> t[k].data.actorId == f.actorId.value)
              && (f.action.GetOr("") != "" ==> t[k].data.action == f.action.value)
              && (f.resourceType.GetOr("") != "" ==> t[k].data.resourceType == f.resourceType.value)
              && (f.resourceId.GetOr("") != "" ==> t[k].data.resourceId == f.resourceId.value)
              && (f.outcome.GetOr("") != "" ==> t[k].data.outcome == f.outcome.value)
              && (f.fromDate.Some? && f.toDate.Some? ==> f.fromDate.value <= t[k].data.occurredAt <= f.toDate.value)|
  {
    hide Filter, Matches;
    FilterPlaces(t, Scoped(tenant, Matches(f)), Wanted(t, tenant, f));
    WantedTells(t, tenant, f);
  }

  lemma WantedPage(t: Table<AuditEvent>, tenant: string, f: AuditFilter, skip: nat, limit: nat)
    ensures var rows, total := Slice(Matching(t, tenant, f), skip, limit), |Wanted(t, tenant, f)|;
            && |rows| == (if total <= skip then 0 else if total - skip <= limit then total - skip else limit)
            && forall i :: i in Wanted(t, tenant, f) ==>
                 var n := |set k | k in Wanted(t, tenant, f) && k < i|;
                 skip <= n < skip + limit ==> n - skip < |rows| && rows[n - skip] == t[i]
  {
    hide Filter, Matches, Slice;
    SlicePlaces(t, Scoped(tenant, Matches(f)), Wanted(t, tenant, f), skip, limit);
  }

  /** A page is the slice behind the pages ahead of it. */
  lemma PageIsSlice(t: Table<AuditEvent>, counted: Table<AuditEvent>, tenant: string, f: AuditFilter, page: int, limit: int, skip: nat)
    requires page >= 1 && limit >= 1 && skip == (page - 1) * limit
    ensures Queried(t, counted, tenant, f, page, limit).rows == Slice(Matching(t, tenant, f), skip, limit)
    ensures Queried(t, counted, tenant, f, page, limit).meta.total == |Matching(counted, tenant, f)|
  {
    hide Matching, Slice, TotalPages;
  }

  /**
   * A query is about the places of the log that hold the tenant's rows with every column that the
   * filter gives and does not leave empty, and that lie between the two dates if it gives both.
   * Row number n among them comes at n - skip on the page. MatchingCounts says how many there are.
   */
  lemma QueryTells(t: Table<AuditEvent>, tenant: string, f: AuditFilter, skip: nat, limit: nat)
    ensures
      var rows := Slice(Matching(t, tenant, f), skip, limit);
      var wanted := set k: nat |
              && k < |t| && t[k].tenantId == tenant
              && (f.actorId.GetOr("") != "" ==> t[k].data.actorId == f.actorId.value)
              && (f.action.GetOr("") != "" ==> t[k].data.action == f.action.value)
              && (f.resourceType.GetOr("") != "" ==> t[k].data.resourceType == f.resourceType.value)
              && (f.resourceId.GetOr("") != "" ==> t[k].data.resourceId == f.resourceId.value)
              && (f.outcome.GetOr("") != "" ==> t[k].data.outcome == f.outcome.value)
              && (f.fromDate.Some? && f.toDate.Some? ==> f.fromDate.value <= t[k].data.occurredAt <= f.toDate.value);
      && |rows| == (if |wanted| <= skip then 0 else if |wanted| - skip <= limit then |wanted| - skip else limit)
      && forall i :: i in wanted ==>
           var n := |set k | k in wanted && k < i|;
           skip <= n < skip + limit ==> n - skip < |rows| && rows[n - skip] == t[i]
  {
    hide Wanted, Matching, Slice;
    WantedPage(t, tenant, f, skip, limit);
    WantedTells(t, tenant, f);
  }

  // ---------------------------------------------------------------------
  // What appending keeps
  // ---------------------------------------------------------------------

  lemma OneInsert(t: Table<AuditEvent>, r: AuditRow)
    ensures InsertAll(t, [r]) == if HasId(t, r.id) then Failure(DuplicateKey) else Success(Place(t, r))
  {
    assert [r][1..] == [];
  }

  /** The new row comes in at one place; the others stay in their order. */
  lemma {:induction false} PlaceSplits(t: Table<AuditEvent>, r: AuditRow) returns (k: nat)
    ensures k <= |t| && Place(t, r) == t[..k] + [r] + t[k..]
    ensures forall i :: 0 <= i < k ==> t[i].data.occurredAt > r.data.occurredAt
    ensures k < |t| ==> t[k].data.occurredAt <= r.data.occurredAt
  {
    if t == [] || t[0].data.occurredAt <= r.data.occurredAt {
      k := 0;
    } else {
      var n := PlaceSplits(t[1..], r);
      k := n + 1;
      assert t[..k] == [t[0]] + t[1..][..n] && t[k..] == t[1..][n..];
    }
  }

  lemma PlaceKeepsOrder(t: Table<AuditEvent>, r: AuditRow)
    requires LatestFirst(t)
    ensures LatestFirst(Place(t, r))
  {
    var k := PlaceSplits(t, r);
  }

  lemma PlaceKeepsIds(t: Table<AuditEvent>, r: AuditRow)
    requires UniqueIds(t) && !HasId(t, r.id)
    ensures UniqueIds(Place(t, r))
  {
    var k := PlaceSplits(t, r);
  }

  lemma PlaceAdds(t: Table<AuditEvent>, r: AuditRow)
    ensures multiset(Place(t, r)) == multiset(t) + multiset{r}
    ensures forall id :: HasId(Place(t, r), id) <==> HasId(t, id) || id == r.id
  {
    var k := PlaceSplits(t, r);
    assert t == t[..k] + t[k..];
    forall id ensures HasId(Place(t, r), id) <==> HasId(t, id) || id == r.id {
      PlacedKeys(t, r, k, id);
    }
  }

  lemma HasIdConcat(a: Table<AuditEvent>, b: Table<AuditEvent>, id: string)
    ensures HasId(a + b, id) <==> HasId(a, id) || HasId(b, id)
  {
    if i :| 0 <= i < |a| && a[i].id == id {
      assert (a + b)[i] == a[i];
    }
    if i :| 0 <= i < |b| && b[i].id == id {
      assert (a + b)[|a| + i] == b[i];
    }
  }

  lemma PlacedKeys(t: Table<AuditEvent>, r: AuditRow, k: nat, id: string)
    requires k <= |t| && Place(t, r) == t[..k] + [r] + t[k..]
    ensures HasId(Place(t, r), id) <==> HasId(t, id) || id == r.id
  {
    assert HasId([r], id) <==> [r][0].id == id;
    hide Place, HasId;
    HasIdConcat(t[..k] + [r], t[k..], id);
    HasIdConcat(t[..k], [r], id);
    HasIdConcat(t[..k], t[k..], id);
    assert t == t[..k] + t[k..];
  }

  lemma {:induction false} InsertAllAdds(t: Table<AuditEvent>, rs: seq<AuditRow>)
    ensures InsertAll(t, rs).Success? ==> multiset(InsertAll(t, rs).value) == multiset(t) + multiset(rs)
    decreases rs
  {
    if rs != [] && !HasId(t, rs[0].id) {
      hide Place, HasId;
      PlaceAdds(t, rs[0]);
      InsertAllAdds(Place(t, rs[0]), rs[1..]);
      assert rs == [rs[0]] + rs[1..];
    }
  }

  /** New keys, different from each other. */
  predicate NewKeys(t: Table<AuditEvent>, rs: seq<AuditRow>) {
    && (forall i :: 0 <= i < |rs| ==> !HasId(t, rs[i].id))
    && forall i, j :: 0 <= i < j < |rs| ==> rs[i].id != rs[j].id
  }

  /** A batch is stored whole, exactly when its keys are new and differ from each other. */
  lemma {:induction false} InsertAllIff(t: Table<AuditEvent>, rs: seq<AuditRow>)
    ensures InsertAll(t, rs).Success? <==>
            (forall i :: 0 <= i < |rs| ==> !HasId(t, rs[i].id)) && forall i, j :: 0 <= i < j < |rs| ==> rs[i].id != rs[j].id
    ensures InsertAll(t, rs).Success? ==> multiset(InsertAll(t, rs).value) == multiset(t) + multiset(rs)
    ensures InsertAll(t, rs).Failure? ==> InsertAll(t, rs).error == DuplicateKey
    decreases rs
  {
    hide Place, HasId;
    InsertAllAdds(t, rs);
    NewKeysDecide(t, rs);
  }

  lemma {:induction false} NewKeysDecide(t: Table<AuditEvent>, rs: seq<AuditRow>)
    ensures InsertAll(t, rs).Success? <==> NewKeys(t, rs)
    ensures InsertAll(t, rs).Failure? ==> InsertAll(t, rs).error == DuplicateKey
    decreases rs
  {
    hide Place, HasId;
    if rs != [] && !HasId(t, rs[0].id) {
      PlaceAdds(t, rs[0]);
      NewKeysSplit(t, rs);
      hide NewKeys;
      NewKeysDecide(Place(t, rs[0]), rs[1..]);
    }
  }

  lemma NewKeysSplit(t: Table<AuditEvent>, rs: seq<AuditRow>)
    requires rs != [] && !HasId(t, rs[0].id)
    requires forall id :: HasId(Place(t, rs[0]), id) <==> HasId(t, id) || id == rs[0].id
    ensures NewKeys(t, rs) <==> NewKeys(Place(t, rs[0]), rs[1..])
  {
    hide Place, HasId;
    var rest := rs[1..];
    assert forall i :: 0 < i < |rs| ==> rs[i] == rest[i - 1];
    assert forall i :: 0 <= i < |rest| ==> rest[i] == rs[i + 1];
  }

  lemma {:induction false} InsertAllKeepsOrder(t: Table<AuditEvent>, rs: seq<AuditRow>)
    requires LatestFirst(t) && UniqueIds(t)
    ensures InsertAll(t, rs).Success? ==> LatestFirst(InsertAll(t, rs).value) && UniqueIds(InsertAll(t, rs).value)
    decreases rs
  {
    if rs != [] && !HasId(t, rs[0].id) {
      PlaceKeepsOrder(t, rs[0]);
      PlaceKeepsIds(t, rs[0]);
      InsertAllKeepsOrder(Place(t, rs[0]), rs[1..]);
    }
  }

  // ---------------------------------------------------------------------
  // Appends of one tenant happen in that tenant's private log
  // ---------------------------------------------------------------------

  lemma {:induction false} LatestGoesFirst(t: Table<AuditEvent>, r: AuditRow, u: string)
    requires LatestFirst(t) && (t != [] ==> t[0].data.occurredAt <= r.data.occurredAt)
    ensures Place(Private(t, u), r) == [r] + Private(t, u)
  {
    if t != [] && t[0].tenantId != u {
      LatestGoesFirst(t[1..], r, u);
      PrivateHead(t, u);
    }
  }

  lemma {:induction false} PlaceIsPrivate(t: Table<AuditEvent>, r: AuditRow, u: string)
    requires LatestFirst(t)
    ensures Private(Place(t, r), u) == if u == r.tenantId then Place(Private(t, u), r) else Private(t, u)
  {
    if t == [] || t[0].data.occurredAt <= r.data.occurredAt {
      assert ([r] + t)[1..] == t;
      LatestGoesFirst(t, r, u);
    } else {
      PlaceIsPrivate(t[1..], r, u);
      PrivateHead(t, u);
      PrivateHead(Place(t, r), u);
    }
  }

  lemma OwnOrFreshAfterPlace(t: Table<AuditEvent>, r: AuditRow, tenant: string, id: string)
    requires r.tenantId == tenant && OwnOrFresh(t, tenant, id)
    ensures OwnOrFresh(Place(t, r), tenant, id)
  {
    var k := PlaceSplits(t, r);
  }

  /** A batch of the tenant's rows whose keys are all new or its own is inserted as in the private log. */
  lemma {:induction false} InsertAllIsPrivate(t: Table<AuditEvent>, tenant: string, rs: seq<AuditRow>)
    requires LatestFirst(t)
    requires forall i :: 0 <= i < |rs| ==> rs[i].tenantId == tenant && OwnOrFresh(t, tenant, rs[i].id)
    ensures SameEffect(t, tenant, InsertAll(t, rs), InsertAll(Private(t, tenant), rs))
    decreases rs
  {
    if rs != [] {
      KeyIsPrivate(t, tenant, rs[0].id);
      if !HasId(t, rs[0].id) {
        var t' := Place(t, rs[0]);
        PlaceKeepsOrder(t, rs[0]);
        forall u ensures Private(t', u) == if u == tenant then Place(Private(t, u), rs[0]) else Private(t, u) {
          PlaceIsPrivate(t, rs[0], u);
        }
        forall i | 0 <= i < |rs[1..]| ensures OwnOrFresh(t', tenant, rs[1..][i].id) {
          OwnOrFreshAfterPlace(t, rs[0], tenant, rs[1..][i].id);
        }
        InsertAllIsPrivate(t', tenant, rs[1..]);
      }
    }
  }

  /** Whatever the context and the batch. */
  lemma BatchIsPrivate(t: Table<AuditEvent>, ctx: Option<string>, rs: seq<AuditRow>)
    requires LatestFirst(t)
    requires forall i :: 0 <= i < |rs| ==> OwnOrFresh(t, ctx.GetOr(""), rs[i].id)
    ensures SameEffect(t, ctx.GetOr(""), BatchAppended(t, ctx, rs), BatchAppended(Private(t, ctx.GetOr("")), ctx, rs))
  {
    if RequireTenantId(ctx).Success? && forall i :: 0 <= i < |rs| ==> rs[i].tenantId == ctx.value {
      InsertAllIsPrivate(t, ctx.value, rs);
    }
  }

  /** Whatever the context. */
  lemma AppendIsPrivate(t: Table<AuditEvent>, ctx: Option<string>, r: AuditRow)
    requires LatestFirst(t) && OwnOrFresh(t, ctx.GetOr(""), r.id)
    ensures SameEffect(t, ctx.GetOr(""), Appended(t, ctx, r), Appended(Private(t, ctx.GetOr("")), ctx, r))
  {
    if RequireTenantId(ctx).Success? && r.tenantId == ctx.value {
      InsertAllIsPrivate(t, ctx.value, [r]);
    }
  }

  /** A permitted append behaves as in the private log exactly when no other tenant has the key. */
  lemma AppendIsPrivateIff(t: Table<AuditEvent>, tenant: string, r: AuditRow)
    requires tenant != "" && r.tenantId == tenant && UniqueIds(t) && LatestFirst(t)
    ensures SameEffect(t, tenant, Appended(t, Some(tenant), r), Appended(Private(t, tenant), Some(tenant), r)) <==>
            OwnOrFresh(t, tenant, r.id)
  {
    if OwnOrFresh(t, tenant, r.id) {
      InsertAllIsPrivate(t, tenant, [r]);
    } else {
      var p := Private(t, tenant);
      OneInsert(t, r);
      OneInsert(p, r);
      var i :| 0 <= i < |t| && t[i].id == r.id && t[i].tenantId != tenant;
      PrivateMembers(t, tenant);
      forall j | 0 <= j < |p| ensures p[j].id != r.id {
        var k :| 0 <= k < |t| && t[k] == p[j];
        assert k != i;
      }
      assert HasId(t, r.id) && !HasId(p, r.id);
    }
  }

  /** A query sees the private log only, in each of its two statements. */
  lemma QueryIsPrivate(t: Table<AuditEvent>, counted: Table<AuditEvent>, tenant: string, f: AuditFilter, page: int, limit: int)
    requires page >= 1 && limit >= 1
    ensures Queried(t, counted, tenant, f, page, limit) ==
            Queried(Private(t, tenant), Private(counted, tenant), tenant, f, page, limit)
  {
    FilterIsPrivate(t, tenant, Matches(f));
    FilterIsPrivate(counted, tenant, Matches(f));
  }
}
