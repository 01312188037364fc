/** What the steps of workflow requests answer and store, told by the rows of the two tables. */
module WorkflowOutcomes {
  import opened Counting
  import opened Wrappers
  import opened Events
  import opened TenantTables
  import opened WorkflowStore

  lemma FirstMatchIs<D>(t: Table<D>, tenant: string, id: string, i: nat)
    requires UniqueIds(t) && i < |t| && t[i].tenantId == tenant && t[i].id == id
    ensures FirstMatch(t, tenant, id) == Some(t[i])
  {
    hide FirstMatch;
    var found := FirstMatch(t, tenant, id).value;
    var j :| 0 <= j < |t| && t[j] == found;
  }

  /** A trigger request goes on exactly with an active definition of its own tenant. */
  lemma TriggerReads(s: Store, q: Request, id: string)
    requires UniqueIds(s.definitions)
    ensures var done := Do(s, Action(q, TriggerRead(id)));
      if q.ctx.GetOr("") == "" then done == Done(s, Denied(NoContext))
      else
        && (done.outcome == Loaded <==>
            exists i :: 0 <= i < |s.definitions| && s.definitions[i].id == id &&
                        s.definitions[i].tenantId == q.ctx.value && s.definitions[i].data.status == Active)
        && (done.outcome == NotActive <==>
            exists i :: 0 <= i < |s.definitions| && s.definitions[i].id == id &&
                        s.definitions[i].tenantId == q.ctx.value && s.definitions[i].data.status != Active)
        && (done.outcome == Loaded || done.outcome == NotActive || done.outcome == NotFound)
        && done.store == if done.outcome == Loaded then s.(sessions := s.sessions[q := Triggering(id)]) else s
  {
    hide FirstMatch;
    forall i | 0 <= i < |s.definitions| && s.definitions[i].id == id && s.definitions[i].tenantId == q.ctx.GetOr("") {
      FirstMatchIs(s.definitions, q.ctx.GetOr(""), id, i);
    }
    var found := FirstMatch(s.definitions, q.ctx.GetOr(""), id);
    assert found.Some? ==> found.value in s.definitions;
  }

  /** A cancel request goes on with, and a lookup finds, the execution of that key exactly when it is its own tenant's. */
  lemma ExecutionReads(s: Store, q: Request, id: string, r: Row<Execution>)
    requires UniqueIds(s.executions)
    ensures var cancel, find := Do(s, Action(q, CancelRead(id))), Do(s, Action(q, FindExecution(id)));
      if q.ctx.GetOr("") == "" then cancel == find == Done(s, Denied(NoContext))
      else
        && (r in s.executions && r.id == id && r.tenantId == q.ctx.value <==>
            cancel == Done(s.(sessions := s.sessions[q := Cancelling(r)]), Loaded) && find == Done(s, FoundExecution(r)))
        && (cancel == find == Done(s, NotFound) <==>
            forall i :: 0 <= i < |s.executions| ==> s.executions[i].id != id || s.executions[i].tenantId != q.ctx.value)
  {
    hide FirstMatch;
    forall i | 0 <= i < |s.executions| && s.executions[i].id == id && s.executions[i].tenantId == q.ctx.GetOr("") {
      FirstMatchIs(s.executions, q.ctx.GetOr(""), id, i);
    }
  }

  lemma ListsWanted(s: Store, q: Request, definition: Option<string>, status: Option<ExecutionStatus>, skip: nat, take: nat, wanted: set<nat>)
    requires q.ctx.GetOr("") != ""
    requires forall k: nat :: k in wanted <==>
               k < |s.executions| && Scoped(q.ctx.value, ExecutionFilter(definition, status))(s.executions[k])
    ensures
      var done := Do(s, Action(q, ListExecutions(definition, status, skip, take)));
      && done.store == s && done.outcome.Executions? && done.outcome.page.total == |wanted|
      && (var rows := done.outcome.page.rows;
          && |rows| == (if |wanted| <= skip then 0 else if |wanted| - skip <= take then |wanted| - skip else take)
          && forall i :: i in wanted ==>
               var n := |set k | k in wanted && k < i|;
               skip <= n < skip + take ==> n - skip < |rows| && rows[n - skip] == s.executions[i])
  {
    hide Filter, Slice, Scoped, ExecutionFilter;
    var keep := Scoped(q.ctx.value, ExecutionFilter(definition, status));
    FilterPlaces(s.executions, keep, wanted);
    SlicePlaces(s.executions, keep, wanted, skip, take);
  }

  /** A listing counts, and pages through in table order, the tenant's executions under both filters. */
  lemma Lists(s: Store, q: Request, definition: Option<string>, status: Option<ExecutionStatus>, skip: nat, take: nat)
    requires q.ctx.GetOr("") != ""
    ensures
      var wanted := set k: nat |
        && k < |s.executions| && s.executions[k].tenantId == q.ctx.value
        && (definition.Some? ==> s.executions[k].data.definitionId == definition.value)
        && (status.Some? ==> s.executions[k].data.status == status.value);
      var done := Do(s, Action(q, ListExecutions(definition, status, skip, take)));
      && done.store == s && done.outcome.Executions? && done.outcome.page.total == |wanted|
      && (var rows := done.outcome.page.rows;
          && |rows| == (if |wanted| <= skip then 0 else if |wanted| - skip <= take then |wanted| - skip else take)
          && forall i :: i in wanted ==>
               var n := |set k | k in wanted && k < i|;
               skip <= n < skip + take ==> n - skip < |rows| && rows[n - skip] == s.executions[i])
  {
    hide Do;
    var wanted := set k: nat |
      && k < |s.executions| && s.executions[k].tenantId == q.ctx.value
      && (definition.Some? ==> s.executions[k].data.definitionId == definition.value)
      && (status.Some? ==> s.executions[k].data.status == status.value);
    ListsWanted(s, q, definition, status, skip, take, wanted);
  }

  /** An event starts the tenant's active definitions of its type; a definition exists when the tenant has it. */
  lemma DefinitionQueries(s: Store, q: Request, eventType: string, id: string)
    requires q.ctx.GetOr("") != ""
    ensures var done := Do(s, Action(q, FindByTriggerEvent(eventType)));
      done.store == s && done.outcome.Definitions? &&
      forall r :: r in done.outcome.rows <==>
        && r in s.definitions && r.tenantId == q.ctx.value
        && r.data.status == Active && r.data.trigger == OnEvent(Some(eventType))
    ensures var done := Do(s, Action(q, ExistsDefinition(id)));
      done.store == s && done.outcome.Exists? &&
      (done.outcome.there <==>
       exists i :: 0 <= i < |s.definitions| && s.definitions[i].id == id && s.definitions[i].tenantId == q.ctx.value)
  {
    hide Filter;
    FilterMembers(s.definitions, Scoped(q.ctx.value, TriggerFilter(eventType)));
    FilterMembers(s.definitions, Scoped(q.ctx.value, IdFilter(id)));
    var found := Filter(s.definitions, Scoped(q.ctx.value, IdFilter(id)));
    if |found| > 0 {
      assert found[0] in found;
    }
    if i :| 0 <= i < |s.definitions| && s.definitions[i].id == id && s.definitions[i].tenantId == q.ctx.value {
      assert s.definitions[i] in found;
    }
  }

  /** A new definition is a draft of the tenant whose context it is made in, ahead of the others. */
  lemma Creates(s: Store, q: Request, newId: string, owner: string, trigger: Trigger, name: string, body: Json)
    requires !HasId(s.definitions, newId)
    ensures var done := Do(s, Action(q, CreateDefinition(newId, owner, trigger, name, body)));
      && done.store.executions == s.executions && done.store.sessions == s.sessions
      && if q.ctx.GetOr("") == "" then done == Done(s, Denied(NoContext))
         else if q.ctx.value != owner then done == Done(s, Denied(Forbidden))
         else
           && |done.store.definitions| == |s.definitions| + 1 && done.store.definitions[1..] == s.definitions
           && done.outcome == DefinitionSaved(done.store.definitions[0])
           && var r := done.store.definitions[0];
              && r.id == newId && r.tenantId == owner && r.data.status == Draft
              && r.data.trigger == trigger && r.data.name == name && r.data.body == body
  {
  }

  /** A save of a loaded definition puts it over the stored row, with the new status. */
  lemma Saves(s: Store, q: Request, status: DefinitionStatus, i: nat)
    requires Inv(s) && q in s.sessions && s.sessions[q].Editing? && i < |s.definitions|
    ensures var done := Do(s, Action(q, SaveDefinition(status)));
      var r := s.sessions[q].definition;
      && done.store.executions == s.executions && done.store.sessions == s.sessions - {q}
      && |done.store.definitions| == |s.definitions|
      && done.store.definitions[i] ==
         if s.definitions[i].id != r.id then s.definitions[i]
         else Row(r.id, r.tenantId, Definition(status, r.data.trigger, r.data.name, r.data.body))
  {
    hide SameTenant, Replace;
    var r := s.sessions[q].definition;
    assert WorkOk(s, q, s.sessions[q]);
    assert HasId(s.definitions, r.id);
    ReplaceAt(s.definitions, r.(data := r.data.(status := status)), i);
  }

  // ---------------------------------------------------------------------
  // Whose outcomes the isolation theorem compares
  // ---------------------------------------------------------------------

  function OwnBefore(acts: seq<Action>, tenant: string, n: nat): nat {
    CountBelow(n, (j: nat) => j < |acts| && acts[j].request.ctx == Some(tenant))
  }

  lemma OwnBeforeInit(acts: seq<Action>, tenant: string, n: nat)
    requires n < |acts|
    ensures OwnBefore(acts[..|acts| - 1], tenant, n) == OwnBefore(acts, tenant, n)
    ensures OwnBefore(acts, tenant, n + 1) == OwnBefore(acts, tenant, n) + if acts[n].request.ctx == Some(tenant) then 1 else 0
  {
    var init := acts[..|acts| - 1];
    var p := (j: nat) => j < |acts| && acts[j].request.ctx == Some(tenant);
    CountSame(n, p, (j: nat) => j < |acts| && acts[j].request.ctx == Some(tenant));
    CountSame(n + 1, p, (j: nat) => j < |acts| && acts[j].request.ctx == Some(tenant));
    CountSame(n, p, (j: nat) => j < |init| && init[j].request.ctx == Some(tenant));
  }

  /** The tenant's n-th step is number n among its steps, and its outcome number n among the outcomes. */
  lemma {:induction false} OutcomeAt(s: Store, acts: seq<Action>, tenant: string, k: nat)
    requires k < |acts|
    ensures |Only(acts, tenant)| == |Outcomes(s, acts, tenant)| == OwnBefore(acts, tenant, |acts|)
    ensures acts[k].request.ctx == Some(tenant) ==>
              var n := OwnBefore(acts, tenant, k);
              && n < OwnBefore(acts, tenant, |acts|) && Only(acts, tenant)[n] == acts[k]
              && Outcomes(s, acts, tenant)[n] == Do(After(s, acts[..k]), acts[k]).outcome
    decreases |acts|
  {
    hide Do, After;
    var last := |acts| - 1;
    OwnBeforeInit(acts, tenant, last);
    if last > 0 {
      OutcomeAt(s, acts[..last], tenant, if k < last then k else 0);
    }
    if k < last {
      OwnBeforeInit(acts, tenant, k);
      assert acts[..last][..k] == acts[..k] && acts[..last][k] == acts[k];
    }
  }
}
