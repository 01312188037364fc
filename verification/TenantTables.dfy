/**
 * Repositories over tables that all tenants share, seen through the tenant
 * context of the caller. A table is the sequence of its rows, newest first.
 */
module TenantTables {
  import opened Counting
  import opened Wrappers

  datatype Row<D> = Row(id: string, tenantId: string, data: D)

  type Table<D> = seq<Row<D>>

  datatype Error = NoContext | Forbidden | MixedTenants | DuplicateKey | DriverRefused

  /** The context of the call; the empty string is no tenant. */
  function RequireTenantId(ctx: Option<string>): Result<string, Error> {
    if ctx.GetOr("") == "" then Failure(NoContext) else Success(ctx.value)
  }

  predicate HasId<D>(t: Table<D>, id: string) {
    exists i :: 0 <= i < |t| && t[i].id == id
  }

  predicate UniqueIds<D>(t: Table<D>) {
    forall i, j :: 0 <= i < j < |t| ==> t[i].id != t[j].id
  }

  function Filter<D>(t: Table<D>, keep: Row<D> -> bool): Table<D> {
    if t == [] then [] else (if keep(t[0]) then [t[0]] else []) + Filter(t[1..], keep)
  }

  /** The part of a table that belongs to one tenant: what its private table would hold. */
  function Private<D>(t: Table<D>, tenant: string): Table<D> {
    if t == [] then [] else (if t[0].tenantId == tenant then [t[0]] else []) + Private(t[1..], tenant)
  }

  // ---------------------------------------------------------------------
  // The operations
  // ---------------------------------------------------------------------

  /** findOne({ where: scopedWhere({ id }) }) */
  function FindById<D>(t: Table<D>, ctx: Option<string>, id: string): Result<Option<Row<D>>, Error> {
    match RequireTenantId(ctx)
    case Failure(e) => Failure(e)
    case Success(tenant) => Success(FirstMatch(t, tenant, id))
  }

  function FirstMatch<D>(t: Table<D>, tenant: string, id: string): (r: Option<Row<D>>)
    ensures r.Some? ==> r.value in t && r.value.tenantId == tenant && r.value.id == id
    ensures r.None? ==> forall i :: 0 <= i < |t| ==> t[i].tenantId != tenant || t[i].id != id
  {
    if t == [] then None
    else if t[0].tenantId == tenant && t[0].id == id then Some(t[0])
    else FirstMatch(t[1..], tenant, id)
  }

  datatype Page<D> = Page(rows: seq<Row<D>>, total: nat)

  /** scopedQb(...).andWhere(keep).skip(skip).take(take).getManyAndCount() */
  function List<D>(t: Table<D>, ctx: Option<string>, keep: Row<D> -> bool, skip: nat, take: nat): Result<Page<D>, Error> {
    match RequireTenantId(ctx)
    case Failure(e) => Failure(e)
    case Success(tenant) =>
      var matching := Filter(t, Scoped(tenant, keep));
      Success(Page(Slice(matching, skip, take), |matching|))
  }

  function Scoped<D>(tenant: string, keep: Row<D> -> bool): Row<D> -> bool {
    (r: Row<D>) => r.tenantId == tenant && keep(r)
  }

  function Slice<T>(s: seq<T>, skip: nat, take: nat): seq<T> {
    if skip >= |s| then [] else if skip + take >= |s| then s[skip..] else s[skip..skip + take]
  }

  function GuardTenantOwnership(ctx: Option<string>, entityTenantId: string): Result<string, Error> {
    match RequireTenantId(ctx)
    case Failure(e) => Failure(e)
    case Success(tenant) => if entityTenantId != tenant then Failure(Forbidden) else Success(tenant)
  }

  function Replace<D>(t: Table<D>, r: Row<D>): Table<D> {
    if t == [] then [] else [if t[0].id == r.id then r else t[0]] + Replace(t[1..], r)
  }

  /** Repository.save: by primary key alone. */
  function Upsert<D>(t: Table<D>, r: Row<D>): Table<D> {
    if HasId(t, r.id) then Replace(t, r) else [r] + t
  }

  function Saved<D>(t: Table<D>, ctx: Option<string>, r: Row<D>): Result<Table<D>, Error> {
    match GuardTenantOwnership(ctx, r.tenantId)
    case Failure(e) => Failure(e)
    case Success(_) => Success(Upsert(t, r))
  }

  // ---------------------------------------------------------------------
  // Where a filter puts what it keeps
  // ---------------------------------------------------------------------

  /** How many of the first i rows are kept. */
  function KeptBefore<D>(t: Table<D>, keep: Row<D> -> bool, i: nat): nat {
    CountBelow(i, (k: nat) => k < |t| && keep(t[k]))
  }

  lemma KeptBeforeTail<D>(t: Table<D>, keep: Row<D> -> bool, i: nat)
    requires 0 < i <= |t|
    ensures KeptBefore(t, keep, i) == (if keep(t[0]) then 1 else 0) + KeptBefore(t[1..], keep, i - 1)
  {
    var p := (k: nat) => k < |t| && keep(t[k]);
    CountSame(i, p, (k: nat) => k < |t| && keep(t[k]));
    CountFirst(i, p);
    CountSame(i - 1, (k: nat) => p(k + 1), (k: nat) => k < |t[1..]| && keep(t[1..][k]));
  }

  lemma KeptBeforeIsSize<D>(t: Table<D>, keep: Row<D> -> bool, i: nat)
    requires i <= |t|
    ensures KeptBefore(t, keep, i) == |set k: nat | k < i && keep(t[k])|
  {
    var p := (k: nat) => k < |t| && keep(t[k]);
    CountSame(i, p, (k: nat) => k < |t| && keep(t[k]));
    CountIsSize(i, p);
    assert (set k: nat | k < i && keep(t[k])) == set k: nat | k < i && p(k);
  }

  /** A filter keeps as many rows as satisfy the condition, each behind those that satisfy it earlier. */
  lemma {:induction false} FilterAt<D>(t: Table<D>, keep: Row<D> -> bool, i: nat)
    requires i < |t|
    ensures |Filter(t, keep)| == KeptBefore(t, keep, |t|)
    ensures keep(t[i]) ==> KeptBefore(t, keep, i) < |Filter(t, keep)| && Filter(t, keep)[KeptBefore(t, keep, i)] == t[i]
  {
    KeptBeforeTail(t, keep, |t|);
    if |t| > 1 {
      FilterAt(t[1..], keep, if i > 0 then i - 1 else 0);
    }
    if i > 0 {
      KeptBeforeTail(t, keep, i);
    }
  }

  /** The places of rows in a filtered table, counted by sets of their places in the table. */
  lemma FilterPlaces<D>(t: Table<D>, keep: Row<D> -> bool, wanted: set<nat>)
    requires forall k: nat :: k in wanted <==> k < |t| && keep(t[k])
    ensures |Filter(t, keep)| == |wanted|
    ensures forall i: nat :: i in wanted ==>
              var n := |set k | k in wanted && k < i|; n < |Filter(t, keep)| && Filter(t, keep)[n] == t[i]
  {
    KeptBeforeIsSize(t, keep, |t|);
    assert wanted == set k: nat | k < |t| && keep(t[k]);
    forall i: nat | i in wanted
      ensures var n := |set k | k in wanted && k < i|; n < |Filter(t, keep)| && Filter(t, keep)[n] == t[i]
    {
      FilterAt(t, keep, i);
      KeptBeforeIsSize(t, keep, i);
      assert (set k | k in wanted && k < i) == set k: nat | k < i && keep(t[k]);
    }
    if t != [] {
      FilterAt(t, keep, 0);
    }
  }

  /** The same for a slice of a filtered table. */
  lemma SlicePlaces<D>(t: Table<D>, keep: Row<D> -> bool, wanted: set<nat>, skip: nat, take: nat)
    requires forall k: nat :: k in wanted <==> k < |t| && keep(t[k])
    ensures var rows, total := Slice(Filter(t, keep), skip, take), |wanted|;
            && |rows| == (if total <= skip then 0 else if total - skip <= take then total - skip else take)
            && forall i: nat :: i in wanted ==>
                 var n := |set k | k in wanted && k < i|;
                 skip <= n < skip + take ==> n - skip < |rows| && rows[n - skip] == t[i]
  {
    hide Filter;
    FilterPlaces(t, keep, wanted);
  }

  /** A tenant's private table is what filtering by tenant leaves. */
  lemma {:induction false} PrivateIsFilter<D>(t: Table<D>, tenant: string)
    ensures Private(t, tenant) == Filter(t, (r: Row<D>) => r.tenantId == tenant)
  {
    var keep := (r: Row<D>) => r.tenantId == tenant;
    if t != [] {
      PrivateIsFilter(t[1..], tenant);
      SameFilter(t[1..], keep, (r: Row<D>) => r.tenantId == tenant);
    }
    SameFilter(t, keep, (r: Row<D>) => r.tenantId == tenant);
  }

  lemma {:induction false} FilterMembers<D>(t: Table<D>, keep: Row<D> -> bool)
    ensures forall r :: r in Filter(t, keep) <==> r in t && keep(r)
  {
    if t != [] {
      FilterMembers(t[1..], keep);
    }
  }

  lemma {:induction false} SameFilter<D>(t: Table<D>, keep: Row<D> -> bool, keep': Row<D> -> bool)
    requires forall i :: 0 <= i < |t| ==> keep(t[i]) == keep'(t[i])
    ensures Filter(t, keep) == Filter(t, keep')
  {
    if t != [] {
      SameFilter(t[1..], keep, keep');
    }
  }

  // ---------------------------------------------------------------------
  // Scoped operations on the shared table are operations on the private one
  // ---------------------------------------------------------------------

  /** The key belongs to no other tenant: it is new, or its row is the tenant's own. */
  predicate OwnOrFresh<D>(t: Table<D>, tenant: string, id: string) {
    forall i :: 0 <= i < |t| && t[i].id == id ==> t[i].tenantId == tenant
  }

  /** The tenant gets what its private table would give it, and no other tenant's table changes. */
  ghost predicate SameEffect<D(!new)>(t: Table<D>, tenant: string, shared: Result<Table<D>, Error>, private: Result<Table<D>, Error>) {
    match (shared, private)
    case (Failure(e), Failure(e')) => e == e'
    case (Success(s), Success(p)) => Private(s, tenant) == p && Undisturbed(t, s, tenant)
    case _ => false
  }

  ghost predicate Undisturbed<D(!new)>(t: Table<D>, t': Table<D>, tenant: string) {
    forall u :: u != tenant ==> Private(t', u) == Private(t, u)
  }

  lemma PrivateHead<D>(t: Table<D>, tenant: string)
    requires t != []
    ensures t[0].tenantId != tenant ==> Private(t, tenant) == Private(t[1..], tenant)
    ensures t[0].tenantId == tenant ==>
              Private(t, tenant) != [] && Private(t, tenant)[0] == t[0] && Private(t, tenant)[1..] == Private(t[1..], tenant)
  {
  }

  /** A scoped lookup finds on the shared table what it finds on the private one. */
  lemma {:induction false} FindIsPrivate<D>(t: Table<D>, tenant: string, id: string)
    ensures FirstMatch(t, tenant, id) == FirstMatch(Private(t, tenant), tenant, id)
  {
    if t != [] {
      FindIsPrivate(t[1..], tenant, id);
      PrivateHead(t, tenant);
    }
  }

  lemma {:induction false} FilterIsPrivate<D>(t: Table<D>, tenant: string, keep: Row<D> -> bool)
    ensures Filter(t, Scoped(tenant, keep)) == Filter(Private(t, tenant), Scoped(tenant, keep))
  {
    if t != [] {
      FilterIsPrivate(t[1..], tenant, keep);
      PrivateHead(t, tenant);
    }
  }

  /** So do scoped finds and lists, with or without a context. */
  lemma ReadsArePrivate<D>(t: Table<D>, ctx: Option<string>, id: string, keep: Row<D> -> bool, skip: nat, take: nat)
    ensures FindById(t, ctx, id) == FindById(Private(t, ctx.GetOr("")), ctx, id)
    ensures List(t, ctx, keep, skip, take) == List(Private(t, ctx.GetOr("")), ctx, keep, skip, take)
  {
    if RequireTenantId(ctx).Success? {
      FindIsPrivate(t, ctx.value, id);
      FilterIsPrivate(t, ctx.value, keep);
    }
  }

  lemma {:induction false} PrivateMembers<D>(t: Table<D>, tenant: string)
    ensures forall r :: r in Private(t, tenant) <==> r in t && r.tenantId == tenant
  {
    if t != [] {
      PrivateMembers(t[1..], tenant);
    }
  }

  lemma KeyIsPrivate<D>(t: Table<D>, tenant: string, id: string)
    requires OwnOrFresh(t, tenant, id)
    ensures HasId(t, id) <==> HasId(Private(t, tenant), id)
  {
    PrivateMembers(t, tenant);
    var p := Private(t, tenant);
    if HasId(t, id) {
      var i :| 0 <= i < |t| && t[i].id == id;
      assert t[i] in p;
    }
    if HasId(p, id) {
      var i :| 0 <= i < |p| && p[i].id == id;
      assert p[i] in t;
    }
  }

  lemma {:induction false} ReplaceIsPrivate<D>(t: Table<D>, r: Row<D>, u: string)
    requires OwnOrFresh(t, r.tenantId, r.id)
    ensures Private(Replace(t, r), u) == if u == r.tenantId then Replace(Private(t, u), r) else Private(t, u)
  {
    if t != [] {
      assert t[0].id == r.id ==> t[0].tenantId == r.tenantId;
      ReplaceIsPrivate(t[1..], r, u);
      PrivateHead(t, u);
      PrivateHead(Replace(t, r), u);
    }
  }

  lemma SaveIsPrivate<D(!new)>(t: Table<D>, ctx: Option<string>, r: Row<D>)
    requires OwnOrFresh(t, r.tenantId, r.id)
    ensures SameEffect(t, r.tenantId, Saved(t, ctx, r), Saved(Private(t, r.tenantId), ctx, r))
  {
    KeyIsPrivate(t, r.tenantId, r.id);
    forall u ensures Private(Replace(t, r), u) == if u == r.tenantId then Replace(Private(t, u), r) else Private(t, u) {
      ReplaceIsPrivate(t, r, u);
    }
    assert ([r] + t)[1..] == t;
  }

  lemma {:induction false} ReplaceTakesOver<D>(t: Table<D>, r: Row<D>, u: string)
    requires u != r.tenantId
    ensures |Private(Replace(t, r), u)| <= |Private(t, u)|
    ensures (exists i :: 0 <= i < |t| && t[i].id == r.id && t[i].tenantId == u) ==> |Private(Replace(t, r), u)| < |Private(t, u)|
  {
    if t != [] {
      ReplaceTakesOver(t[1..], r, u);
      if exists i :: 0 <= i < |t| && t[i].id == r.id && t[i].tenantId == u {
        var i :| 0 <= i < |t| && t[i].id == r.id && t[i].tenantId == u;
        assert i > 0 ==> t[1..][i - 1].id == r.id && t[1..][i - 1].tenantId == u;
      }
    }
  }

  /** A permitted save stays within the tenant exactly when the entity's key is new or the tenant's own. */
  lemma SaveIsPrivateIff<D(!new)>(t: Table<D>, tenant: string, r: Row<D>)
    requires tenant != "" && r.tenantId == tenant
    ensures SameEffect(t, tenant, Saved(t, Some(tenant), r), Saved(Private(t, tenant), Some(tenant), r)) <==> OwnOrFresh(t, tenant, r.id)
  {
    if OwnOrFresh(t, tenant, r.id) {
      SaveIsPrivate(t, Some(tenant), r);
    } else {
      var i :| 0 <= i < |t| && t[i].id == r.id && t[i].tenantId != tenant;
      var u := t[i].tenantId;
      ReplaceTakesOver(t, r, u);
      assert Private(Upsert(t, r), u) != Private(t, u);
    }
  }

  // ---------------------------------------------------------------------
  // Merging the scope into a condition
  // ---------------------------------------------------------------------

  /** A `where` object: the columns that it constrains. */
  datatype Where = Where(tenantId: Option<string>, id: Option<string>) {
    predicate Matches<D>(r: Row<D>) {
      (tenantId.None? || tenantId.value == r.tenantId) && (id.None? || id.value == r.id)
    }
  }

  /** `{ tenantId: requireTenantId(), ...extra }`: what the caller passes wins. */
  function ScopedWhere(tenant: string, extra: Where): Where {
    Where(if extra.tenantId.Some? then extra.tenantId else Some(tenant), extra.id)
  }

  /** The merged condition confines every table to the tenant exactly when the caller's part names no other tenant. */
  lemma ScopedWhereConfinesIff(tenant: string, extra: Where)
    ensures (forall r: Row<()> :: ScopedWhere(tenant, extra).Matches(r) ==> r.tenantId == tenant) <==>
            extra.tenantId.None? || extra.tenantId.value == tenant
  {
    var r := Row(extra.id.GetOr(""), extra.tenantId.GetOr(tenant), ());
    assert ScopedWhere(tenant, extra).Matches(r);
  }
}
