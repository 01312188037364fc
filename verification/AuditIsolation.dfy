/**
 * Runs of the shared audit log: the appends, batches, lookups and queries of all tenants
 * in any order, the two statements of a query apart.
 */
module AuditIsolation {
  import opened Counting
  import opened Wrappers
  import opened TenantTables
  import opened AuditLog
  import opened Pagination

  datatype Action =
    | Append(ctx: Option<string>, row: AuditRow)
    | AppendBatch(ctx: Option<string>, rows: seq<AuditRow>)
    | Find(ctx: Option<string>, id: string)
    | ReadPage(ctx: Option<string>, filter: AuditFilter, skip: nat, take: nat)
    | CountAll(ctx: Option<string>, filter: AuditFilter)

  datatype Outcome =
    | Failed(error: Error)
    | Inserted
    | Found(row: Option<AuditRow>)
    | Rows(rows: seq<AuditRow>)
    | Total(total: nat)

  datatype Done = Done(log: Table<AuditEvent>, outcome: Outcome)

  function Written(t: Table<AuditEvent>, r: Result<Table<AuditEvent>, Error>): Done {
    match r
    case Failure(e) => Done(t, Failed(e))
    case Success(t') => Done(t', Inserted)
  }

  function Read(t: Table<AuditEvent>, tenant: string, a: Action): Outcome
    requires a.Find? || a.ReadPage? || a.CountAll?
  {
    match a
    case Find(_, id) => Found(FirstMatch(t, tenant, id))
    case ReadPage(_, f, skip, take) => Rows(Slice(Matching(t, tenant, f), skip, take))
    case CountAll(_, f) => Total(|Matching(t, tenant, f)|)
  }

  function Do(t: Table<AuditEvent>, a: Action): Done {
    match a
    case Append(ctx, r) => Written(t, Appended(t, ctx, r))
    case AppendBatch(ctx, rs) => Written(t, BatchAppended(t, ctx, rs))
    case _ =>
      match RequireTenantId(a.ctx)
      case Failure(e) => Done(t, Failed(e))
      case Success(tenant) => Done(t, Read(t, tenant, a))
  }

  /** No key that is written belongs to another tenant: keys are generated. */
  predicate Fresh(t: Table<AuditEvent>, a: Action) {
    match a
    case Append(ctx, r) => OwnOrFresh(t, ctx.GetOr(""), r.id)
    case AppendBatch(ctx, rs) => forall i :: 0 <= i < |rs| ==> OwnOrFresh(t, ctx.GetOr(""), rs[i].id)
    case _ => true
  }

  function After(t: Table<AuditEvent>, acts: seq<Action>): Table<AuditEvent>
    decreases acts
  {
    if acts == [] then t else After(Do(t, acts[0]).log, acts[1..])
  }

  predicate FreshRun(t: Table<AuditEvent>, acts: seq<Action>)
    decreases acts
  {
    acts == [] || (Fresh(t, acts[0]) && FreshRun(Do(t, acts[0]).log, acts[1..]))
  }

  /** The tenant's own actions, and the outcomes that they got. */
  function Only(acts: seq<Action>, tenant: string): seq<Action> {
    if acts == [] then [] else (if acts[0].ctx == Some(tenant) then [acts[0]] else []) + Only(acts[1..], tenant)
  }

  function Outcomes(t: Table<AuditEvent>, acts: seq<Action>, tenant: string): seq<Outcome>
    decreases acts
  {
    if acts == [] then []
    else
      (if acts[0].ctx == Some(tenant) then [Do(t, acts[0]).outcome] else []) +
      Outcomes(Do(t, acts[0]).log, acts[1..], tenant)
  }

  /** The tenant's n-th action is number n among its actions, and its outcome number n among the outcomes. */
  lemma {:induction false} OutcomeAt(t: Table<AuditEvent>, acts: seq<Action>, tenant: string, k: nat)
    requires k < |acts|
    ensures |Only(acts, tenant)| == |Outcomes(t, acts, tenant)| == OwnBefore(acts, tenant, |acts|)
    ensures acts[k].ctx == Some(tenant) ==>
              var n := OwnBefore(acts, tenant, k);
              && n < OwnBefore(acts, tenant, |acts|) && Only(acts, tenant)[n] == acts[k]
              && Outcomes(t, acts, tenant)[n] == Do(After(t, acts[..k]), acts[k]).outcome
    decreases acts
  {
    hide Do;
    var rest, next := acts[1..], Do(t, acts[0]).log;
    OwnBeforeTail(acts, tenant, |acts|);
    if |acts| > 1 {
      OutcomeAt(next, rest, tenant, if k > 0 then k - 1 else 0);
    }
    if k > 0 {
      OwnBeforeTail(acts, tenant, k);
      assert acts[..k][0] == acts[0] && acts[..k][1..] == rest[..k - 1];
    } else {
      assert acts[..0] == [];
    }
  }

  function OwnBefore(acts: seq<Action>, tenant: string, n: nat): nat {
    CountBelow(n, (j: nat) => j < |acts| && acts[j].ctx == Some(tenant))
  }

  lemma OwnBeforeTail(acts: seq<Action>, tenant: string, n: nat)
    requires 0 < n <= |acts|
    ensures OwnBefore(acts, tenant, n) == (if acts[0].ctx == Some(tenant) then 1 else 0) + OwnBefore(acts[1..], tenant, n - 1)
  {
    var p := (j: nat) => j < |acts| && acts[j].ctx == Some(tenant);
    CountSame(n, p, (j: nat) => j < |acts| && acts[j].ctx == Some(tenant));
    CountFirst(n, p);
    CountSame(n - 1, (j: nat) => p(j + 1), (j: nat) => j < |acts[1..]| && acts[1..][j].ctx == Some(tenant));
  }

  /** An action without a tenant changes nothing; another tenant's changes nothing that this tenant sees. */
  lemma StepIsolated(t: Table<AuditEvent>, a: Action, tenant: string)
    requires LatestFirst(t) && UniqueIds(t) && Fresh(t, a) && tenant != ""
    ensures LatestFirst(Do(t, a).log) && UniqueIds(Do(t, a).log)
    ensures if a.ctx == Some(tenant) then Do(Private(t, tenant), a) == Done(Private(Do(t, a).log, tenant), Do(t, a).outcome)
            else Private(Do(t, a).log, tenant) == Private(t, tenant)
  {
    hide LatestFirst, UniqueIds, OwnOrFresh, Private, InsertAll, Filter, FirstMatch, Slice;
    match a
    case Append(ctx, r) =>
      InsertAllKeepsOrder(t, [r]);
      AppendIsPrivate(t, ctx, r);
    case AppendBatch(ctx, rs) =>
      InsertAllKeepsOrder(t, rs);
      BatchIsPrivate(t, ctx, rs);
    case Find(_, id) => FindIsPrivate(t, tenant, id);
    case ReadPage(_, f, _, _) => FilterIsPrivate(t, tenant, Matches(f));
    case CountAll(_, f) => FilterIsPrivate(t, tenant, Matches(f));
  }

  /**
   * In any interleaving each tenant gets the outcomes, and is left with the rows, of its own
   * actions alone on a log of its own.
   */
  lemma {:induction false} TenantsAreIsolated(t: Table<AuditEvent>, acts: seq<Action>, tenant: string)
    requires LatestFirst(t) && UniqueIds(t) && FreshRun(t, acts) && tenant != ""
    ensures Private(After(t, acts), tenant) == After(Private(t, tenant), Only(acts, tenant))
    ensures Outcomes(t, acts, tenant) == Outcomes(Private(t, tenant), Only(acts, tenant), tenant)
    decreases acts
  {
    hide LatestFirst, UniqueIds, Do, Private;
    if acts != [] {
      StepIsolated(t, acts[0], tenant);
      TenantsAreIsolated(Do(t, acts[0]).log, acts[1..], tenant);
      var rest := Only(acts[1..], tenant);
      if acts[0].ctx == Some(tenant) {
        assert Only(acts, tenant)[0] == acts[0] && Only(acts, tenant)[1..] == rest;
      } else {
        assert Only(acts, tenant) == rest;
      }
    }
  }

  /** Without a tenant context nothing is written; only an empty batch does not fail. */
  lemma NoContextNoEffect(t: Table<AuditEvent>, a: Action)
    requires a.ctx.GetOr("") == ""
    ensures Do(t, a).log == t
    ensures Do(t, a).outcome == Failed(NoContext) || (a.AppendBatch? && a.rows == [])
  {
  }

  /** A query is a reading of a page and then a count, whatever happens to the log in between. */
  lemma QueryIsReadThenCount(t: Table<AuditEvent>, acts: seq<Action>, tenant: string, f: AuditFilter, page: int, limit: int, skip: nat)
    requires tenant != "" && page >= 1 && limit >= 1 && skip == (page - 1) * limit
    ensures var got := Queried(t, After(t, acts), tenant, f, page, limit);
            && Do(t, ReadPage(Some(tenant), f, skip, limit)).outcome == Rows(got.rows)
            && Do(After(t, acts), CountAll(Some(tenant), f)).outcome == Total(got.meta.total)
  {
    hide Filter, Slice, After, TotalPages;
  }
}
