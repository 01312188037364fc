/**
 * Where executions come from: every execution in the store goes back to one save of a
 * trigger, and that save to one read that found the tenant's definition active.
 */
module WorkflowLineage {
  import opened Wrappers
  import opened TenantTables
  import opened WorkflowStore

  predicate ActiveIn(t: Table<Definition>, id: string, tenant: string) {
    exists i :: 0 <= i < |t| && t[i].id == id && t[i].tenantId == tenant && t[i].data.status == Active
  }

  predicate IsSave(step: Step) {
    step.SaveDefinition? || step.TriggerSave? || step.CancelSave?
  }

  /** The action begins or ends what its request has in hand. */
  predicate SessionStep(s: Store, a: Action) {
    Do(s, a).outcome == Loaded || (IsSave(a.step) && Do(s, a).outcome != Idle)
  }

  /** The store before action `k` of the run. */
  function Before(acts: seq<Action>, k: nat): Store
    requires k <= |acts|
  {
    After(EMPTY, acts[..k])
  }

  /** From action `i` on, request `q` has held the definition that it then read as active, and nothing else. */
  predicate BegunAt(acts: seq<Action>, i: nat, q: Request, definitionId: string) {
    && i < |acts| && acts[i] == Action(q, TriggerRead(definitionId))
    && q.ctx.Some? && ActiveIn(Before(acts, i).definitions, definitionId, q.ctx.value)
    && forall k :: i < k < |acts| && acts[k].request == q ==> !SessionStep(Before(acts, k), acts[k])
  }

  /** The columns that no later save changes. */
  predicate SameOrigin(e: Row<Execution>, e': Row<Execution>) {
    && e.id == e'.id && e.tenantId == e'.tenantId
    && e.data.definitionId == e'.data.definitionId && e.data.correlationId == e'.data.correlationId
    && e.data.triggeredBy == e'.data.triggeredBy && e.data.triggerType == e'.data.triggerType
    && e.data.input == e'.data.input
  }

  /** The execution was created by the save `j` on the strength of the read `i` of the same request. */
  predicate TracedTo(acts: seq<Action>, e: Row<Execution>, i: nat, j: nat) {
    && i < j < |acts| && acts[j].request == acts[i].request && acts[j].request.ctx == Some(e.tenantId)
    && BegunAt(acts[..j], i, acts[j].request, e.data.definitionId)
    && acts[j].step.TriggerSave? && acts[j].step.newId == e.id
    && var created := NewExecution(e.id, e.data.definitionId, acts[j].step.command);
    && Do(Before(acts, j), acts[j]).outcome == ExecutionSaved(created)
    && SameOrigin(e, created)
  }

  predicate Begun(acts: seq<Action>, q: Request, definitionId: string) {
    exists i :: 0 <= i < |acts| && BegunAt(acts, i, q, definitionId)
  }

  predicate Traced(acts: seq<Action>, e: Row<Execution>) {
    exists i, j :: 0 <= i < |acts| && 0 <= j < |acts| && TracedTo(acts, e, i, j)
  }

  predicate HeldTraced(acts: seq<Action>, q: Request, w: Work) {
    match w
    case Editing(_) => true
    case Triggering(d) => Begun(acts, q, d)
    case Cancelling(r) => Traced(acts, r)
  }

  /** All that the store and the requests hold goes back to steps of the run. */
  predicate Lineage(acts: seq<Action>, s: Store) {
    && (forall n :: 0 <= n < |s.executions| ==> Traced(acts, s.executions[n]))
    && forall q :: q in s.sessions ==> HeldTraced(acts, q, s.sessions[q])
  }

  // ---------------------------------------------------------------------
  // One more action leaves what is traced traced
  // ---------------------------------------------------------------------

  lemma BeforeOneMore(acts: seq<Action>, a: Action, k: nat)
    requires k <= |acts|
    ensures Before(acts + [a], k) == Before(acts, k) && (acts + [a])[..k] == acts[..k]
  {
    assert (acts + [a])[..k] == acts[..k];
  }

  lemma TracedOneMore(acts: seq<Action>, a: Action, e: Row<Execution>)
    requires Traced(acts, e)
    ensures Traced(acts + [a], e)
  {
    hide Do, BegunAt, ActiveIn;
    var i, j :| 0 <= i < |acts| && 0 <= j < |acts| && TracedTo(acts, e, i, j);
    BeforeOneMore(acts, a, j);
    assert TracedTo(acts + [a], e, i, j);
  }

  lemma BegunOneMore(acts: seq<Action>, a: Action, q: Request, definitionId: string)
    requires Begun(acts, q, definitionId)
    requires a.request == q ==> !SessionStep(Before(acts, |acts|), a)
    ensures Begun(acts + [a], q, definitionId)
  {
    hide SessionStep, ActiveIn, After;
    var i :| 0 <= i < |acts| && BegunAt(acts, i, q, definitionId);
    BeforeOneMore(acts, a, i);
    forall k | i < k < |acts + [a]| && (acts + [a])[k].request == q
      ensures !SessionStep(Before(acts + [a], k), (acts + [a])[k])
    {
      BeforeOneMore(acts, a, k);
    }
    assert BegunAt(acts + [a], i, q, definitionId);
  }

  /** A read for a trigger begins with an active definition of the tenant. */
  lemma ReadBegins(acts: seq<Action>, q: Request, definitionId: string)
    requires Do(Before(acts, |acts|), Action(q, TriggerRead(definitionId))).outcome == Loaded
    ensures Begun(acts + [Action(q, TriggerRead(definitionId))], q, definitionId)
    ensures Do(Before(acts, |acts|), Action(q, TriggerRead(definitionId))).store.sessions ==
            Before(acts, |acts|).sessions[q := Triggering(definitionId)]
  {
    hide After;
    var s, a := Before(acts, |acts|), Action(q, TriggerRead(definitionId));
    BeforeOneMore(acts, a, |acts|);
    var found := FirstMatch(s.definitions, q.ctx.value, definitionId).value;
    var i :| 0 <= i < |s.definitions| && s.definitions[i] == found;
    assert ActiveIn(s.definitions, definitionId, q.ctx.value);
    assert BegunAt(acts + [a], |acts|, q, definitionId);
  }

  /** A save of a trigger creates an execution that is traced to the read. */
  lemma SaveTraces(acts: seq<Action>, q: Request, newId: string, command: TriggerCommand, definitionId: string)
    requires Begun(acts, q, definitionId)
    requires var e := NewExecution(newId, definitionId, command);
             Do(Before(acts, |acts|), Action(q, TriggerSave(newId, command))).outcome == ExecutionSaved(e) &&
             q.ctx == Some(command.tenantId)
    ensures Traced(acts + [Action(q, TriggerSave(newId, command))], NewExecution(newId, definitionId, command))
  {
    hide After, Do, BegunAt;
    var a := Action(q, TriggerSave(newId, command));
    var i :| 0 <= i < |acts| && BegunAt(acts, i, q, definitionId);
    BeforeOneMore(acts, a, |acts|);
    assert acts[..|acts|] == acts;
    BegunIsRead(acts, i, q, definitionId);
    assert TracedTo(acts + [a], NewExecution(newId, definitionId, command), i, |acts|);
  }

  lemma BegunIsRead(acts: seq<Action>, i: nat, q: Request, definitionId: string)
    requires BegunAt(acts, i, q, definitionId)
    ensures i < |acts| && acts[i] == Action(q, TriggerRead(definitionId))
  {
  }

  // ---------------------------------------------------------------------
  // What a step does to the rows and to what requests hold
  // ---------------------------------------------------------------------

  /** Rows of the new table are old ones, or the one that was saved. */
  lemma WrittenExecution(s: Store, ctx: Option<string>, r: Row<Execution>, n: nat)
    requires UniqueIds(s.executions) && n < |WriteExecution(s, ctx, r).store.executions|
    ensures var e := WriteExecution(s, ctx, r).store.executions[n];
            e in s.executions ||
            (WriteExecution(s, ctx, r).outcome == ExecutionSaved(r) && ctx == Some(r.tenantId) && SameOrigin(e, r))
  {
    UpsertRows(s.executions, Merged(s.executions, r));
  }

  /** What a request holds after a step it held before, untouched, or it has just loaded it. */
  lemma HeldAfter(s: Store, a: Action, q: Request)
    requires q in Do(s, a).store.sessions
    ensures (q == a.request && Do(s, a).outcome == Loaded) ||
            (q in s.sessions && Do(s, a).store.sessions[q] == s.sessions[q] && (q == a.request ==> !SessionStep(s, a)))
  {
    hide Saved, FindById, Filter, Merged;
  }

  lemma TraceOfSame(acts: seq<Action>, e: Row<Execution>, e': Row<Execution>)
    requires Traced(acts, e) && SameOrigin(e', e)
    ensures Traced(acts, e')
  {
    hide Do, BegunAt;
    var i, j :| 0 <= i < |acts| && 0 <= j < |acts| && TracedTo(acts, e, i, j);
    assert TracedTo(acts, e', i, j);
  }

  lemma SavedRowsTraced(acts: seq<Action>, a: Action, n: nat)
    requires Inv(Before(acts, |acts|)) && Lineage(acts, Before(acts, |acts|))
    requires n < |Do(Before(acts, |acts|), a).store.executions|
    ensures Traced(acts + [a], Do(Before(acts, |acts|), a).store.executions[n])
  {
    hide After, Traced, Begun, UniqueIds, SameTenant, WriteExecution, WriteDefinition, WorkOk;
    var s := Before(acts, |acts|);
    var e := Do(s, a).store.executions[n];
    if e in s.executions {
      var m :| 0 <= m < |s.executions| && s.executions[m] == e;
      TracedOneMore(acts, a, e);
    } else {
      SavedRowIsNew(s, a, n);
      var q := a.request;
      match (a.step, s.sessions[q])
      case (TriggerSave(id, command), Triggering(d)) =>
        SaveTraces(acts, q, id, command, d);
        TraceOfSame(acts + [a], NewExecution(id, d, command), e);
      case (CancelSave(_, _), Cancelling(r)) =>
        TracedOneMore(acts, a, r);
        TraceOfSame(acts + [a], r, e);
    }
  }

  /** A row that a step changes is what the request held: the new execution, or the one loaded to cancel. */
  lemma SavedRowIsNew(s: Store, a: Action, n: nat)
    requires UniqueIds(s.executions) && n < |Do(s, a).store.executions| && Do(s, a).store.executions[n] !in s.executions
    ensures a.request in s.sessions
    ensures var e := Do(s, a).store.executions[n];
            match (a.step, s.sessions[a.request])
            case (TriggerSave(id, command), Triggering(d)) =>
              var created := NewExecution(id, d, command);
              Do(s, a).outcome == ExecutionSaved(created) && a.request.ctx == Some(command.tenantId) && SameOrigin(e, created)
            case (CancelSave(_, _), Cancelling(r)) => SameOrigin(e, r)
            case _ => false
  {
    hide WriteExecution, FindById, Saved, Filter;
    var q := a.request;
    WriteDefinitionLeavesExecutions(s, a);
    assert q in s.sessions && IsSave(a.step);
    match (a.step, s.sessions[q])
    case (TriggerSave(id, command), Triggering(d)) =>
      WrittenExecution(End(s, q), q.ctx, NewExecution(id, d, command), n);
    case (CancelSave(reason, now), Cancelling(r)) =>
      if !Terminal(r.data.status) {
        WrittenExecution(End(s, q), q.ctx, r.(data := AfterCancel(r.data, reason, now)), n);
      }
    case _ =>
  }

  lemma WriteDefinitionLeavesExecutions(s: Store, a: Action)
    ensures !(a.step.TriggerSave? || a.step.CancelSave?) || a.request !in s.sessions ==> Do(s, a).store.executions == s.executions
  {
    hide Saved, FindById, Filter, WriteExecution;
  }

  lemma HeldIsTraced(acts: seq<Action>, a: Action, q: Request)
    requires Lineage(acts, Before(acts, |acts|)) && q in Do(Before(acts, |acts|), a).store.sessions
    ensures HeldTraced(acts + [a], q, Do(Before(acts, |acts|), a).store.sessions[q])
  {
    hide After, Begun, Traced, SessionStep;
    var s := Before(acts, |acts|);
    HeldAfter(s, a, q);
    if q == a.request && Do(s, a).outcome == Loaded {
      LoadedIsTraced(acts, a);
    } else {
      match s.sessions[q]
      case Editing(_) =>
      case Triggering(d) => BegunOneMore(acts, a, q, d);
      case Cancelling(r) => TracedOneMore(acts, a, r);
    }
  }

  lemma LoadedIsTraced(acts: seq<Action>, a: Action)
    requires Lineage(acts, Before(acts, |acts|)) && Do(Before(acts, |acts|), a).outcome == Loaded
    requires a.request in Do(Before(acts, |acts|), a).store.sessions
    ensures HeldTraced(acts + [a], a.request, Do(Before(acts, |acts|), a).store.sessions[a.request])
  {
    hide After, Begun, Traced, Saved, Filter;
    var s, q := Before(acts, |acts|), a.request;
    match a.step
    case TriggerRead(d) => ReadBegins(acts, q, d);
    case CancelRead(id) =>
      var found := FirstMatch(s.executions, q.ctx.value, id).value;
      var n :| 0 <= n < |s.executions| && s.executions[n] == found;
      TracedOneMore(acts, a, found);
    case _ =>
  }

  lemma {:induction false} RunKeepsLineage(acts: seq<Action>)
    requires FreshRun(EMPTY, acts)
    ensures Lineage(acts, After(EMPTY, acts))
    decreases |acts|
  {
    if acts != [] {
      hide Inv, HeldTraced, Traced, Do;
      var init, a := acts[..|acts| - 1], acts[|acts| - 1];
      RunKeepsInv(EMPTY, init);
      RunKeepsLineage(init);
      assert acts == init + [a] && init[..|init|] == init;
      forall n | 0 <= n < |After(EMPTY, acts).executions| ensures Traced(acts, After(EMPTY, acts).executions[n]) {
        SavedRowsTraced(init, a, n);
      }
      forall q | q in After(EMPTY, acts).sessions ensures HeldTraced(acts, q, After(EMPTY, acts).sessions[q]) {
        HeldIsTraced(init, a, q);
      }
    }
  }

  // ---------------------------------------------------------------------
  // The theorems
  // ---------------------------------------------------------------------

  /**
   * However the steps of all tenants' handlers interleave, an execution references a stored
   * definition of its own tenant. It was created, with the columns it still has, by a save
   * of a request of that tenant; that request had read the definition when it was stored as
   * active, and in between it neither loaded nor saved anything.
   */
  lemma ExecutionLineage(acts: seq<Action>, n: nat)
    requires FreshRun(EMPTY, acts) && n < |After(EMPTY, acts).executions|
    ensures var e := After(EMPTY, acts).executions[n];
            Owned(After(EMPTY, acts).definitions, e.data.definitionId, e.tenantId) &&
            exists i, j :: 0 <= i < |acts| && 0 <= j < |acts| && TracedTo(acts, e, i, j)
  {
    RunKeepsInv(EMPTY, acts);
    RunKeepsLineage(acts);
  }

  lemma TracedIsSessionStep(acts: seq<Action>, e: Row<Execution>, i: nat, j: nat)
    requires TracedTo(acts, e, i, j)
    ensures SessionStep(Before(acts, j), acts[j])
  {
  }

  lemma NothingBetween(acts: seq<Action>, i: nat, q: Request, definitionId: string, j: nat, k: nat)
    requires i < k < j <= |acts| && BegunAt(acts[..j], i, q, definitionId) && acts[k].request == q
    ensures !SessionStep(Before(acts, k), acts[k])
  {
    hide After, SessionStep;
    assert acts[..j][..k] == acts[..k] && acts[..j][k] == acts[k];
  }

  lemma NoEarlierSave(acts: seq<Action>, e: Row<Execution>, e': Row<Execution>, i: nat, j: nat, j': nat)
    requires TracedTo(acts, e, i, j) && TracedTo(acts, e', i, j')
    ensures j >= j'
  {
    hide After, SessionStep, ActiveIn, BegunAt;
    TracedIsSessionStep(acts, e, i, j);
    if j < j' {
      NothingBetween(acts, i, acts[i].request, e'.data.definitionId, j', j);
    }
  }

  /** One read is good for one execution: the status check authorises no second trigger. */
  lemma OneExecutionPerRead(acts: seq<Action>, e: Row<Execution>, e': Row<Execution>, i: nat, j: nat, j': nat)
    requires TracedTo(acts, e, i, j) && TracedTo(acts, e', i, j')
    ensures j == j' && SameOrigin(e, e')
  {
    NoEarlierSave(acts, e, e', i, j, j');
    NoEarlierSave(acts, e', e, i, j', j);
  }
}
