/**
 * Workflow definitions and executions of all tenants, and the handlers that read
 * and write them through tenant-scoped repositories. A handler that reads and
 * later saves takes two steps, so the steps of different requests interleave.
 */
module WorkflowStore {
  import opened Wrappers
  import opened Events
  import opened TenantTables

  datatype DefinitionStatus = Draft | Active | Archived

  datatype Trigger = Manual | OnEvent(eventType: Option<string>) | Schedule | Webhook

  /** What no handler looks at (description, steps, version, author) is the body. */
  datatype Definition = Definition(status: DefinitionStatus, trigger: Trigger, name: string, body: Json)

  datatype ExecutionStatus = Pending | Running | Completed | Failed | Cancelled

  datatype Execution = Execution(
    definitionId: string,
    correlationId: string,
    triggeredBy: string,
    triggerType: string,
    input: Json,
    status: ExecutionStatus,
    stepResults: seq<Json>,
    startedAt: Option<int>,
    completedAt: Option<int>,
    durationMs: Option<int>,
    errorMessage: Option<string>)

  /** One handler run: its tenant context, and a number that tells runs apart. */
  datatype Request = Request(ctx: Option<string>, n: nat)

  /** What a handler run holds between its read and its save. */
  datatype Work =
    | Editing(definition: Row<Definition>)
    | Triggering(definitionId: string)
    | Cancelling(execution: Row<Execution>)

  datatype Store = Store(definitions: Table<Definition>, executions: Table<Execution>, sessions: map<Request, Work>)

  datatype Step =
    | CreateDefinition(newId: string, owner: string, trigger: Trigger, name: string, body: Json)
    | LoadDefinition(id: string)
    | SaveDefinition(status: DefinitionStatus)
    | TriggerRead(definitionId: string)
    | TriggerSave(newId: string, command: TriggerCommand)
    | CancelRead(id: string)
    | CancelSave(reason: Option<string>, now: int)
    | FindExecution(id: string)
    | ListExecutions(definitionFilter: Option<string>, statusFilter: Option<ExecutionStatus>, skip: nat, take: nat)
    | FindByTriggerEvent(eventType: string)
    | ExistsDefinition(id: string)

  datatype TriggerCommand = TriggerCommand(
    tenantId: string,
    correlationId: string,
    actorId: Option<string>,
    triggerType: string,
    input: Json)

  datatype Action = Action(request: Request, step: Step)

  datatype Outcome =
    | Denied(error: Error)
    | NotFound
    | NotActive
    | Conflict
    | Idle
    | Loaded
    | DefinitionSaved(definition: Row<Definition>)
    | ExecutionSaved(execution: Row<Execution>)
    | FoundExecution(found: Row<Execution>)
    | Executions(page: Page<Execution>)
    | Definitions(rows: Table<Definition>)
    | Exists(there: bool)
    | NotPublished(execution: Row<Execution>)

  datatype Done = Done(store: Store, outcome: Outcome)

  // ---------------------------------------------------------------------
  // The entity
  // ---------------------------------------------------------------------

  function NewExecution(id: string, definitionId: string, c: TriggerCommand): Row<Execution> {
    Row(id, c.tenantId,
        Execution(definitionId, c.correlationId, c.actorId.GetOr("system"), c.triggerType, c.input,
                  Pending, [], None, None, None, None))
  }

  predicate Terminal(status: ExecutionStatus) {
    status == Completed || status == Failed || status == Cancelled
  }

  function AfterCancel(e: Execution, reason: Option<string>, now: int): Execution
    requires !Terminal(e.status)
  {
    e.(status := Cancelled,
       completedAt := Some(now),
       durationMs := if e.startedAt.Some? then Some(now - e.startedAt.value) else e.durationMs,
       errorMessage := if NonEmpty(reason).Some? then reason else e.errorMessage)
  }

  class WorkflowExecutionEntity {
    const id: string
    const tenantId: string
    var data: Execution

    constructor Reconstitute(row: Row<Execution>)
      ensures ToOrm() == row
    {
      id, tenantId, data := row.id, row.tenantId, row.data;
    }

    function ToOrm(): Row<Execution>
      reads this
    {
      Row(id, tenantId, data)
    }

    /** Returns false for the ConflictException. */
    method Cancel(reason: Option<string>, now: int) returns (ok: bool)
      modifies this
      ensures ok == !old(Terminal(data.status))
      ensures data == if ok then AfterCancel(old(data), reason, now) else old(data)
      ensures ok <==> old(data.status) == Pending || old(data.status) == Running
      ensures ok ==>
        && data.status == Cancelled && data.completedAt == Some(now) && data.startedAt == old(data.startedAt)
        && data.durationMs == (if data.startedAt.Some? then Some(now - data.startedAt.value) else old(data.durationMs))
        && data.errorMessage == (if reason.GetOr("") != "" then reason else old(data.errorMessage))
    {
      if data.status == Completed || data.status == Failed || data.status == Cancelled {
        return false;
      }
      data := data.(status := Cancelled, completedAt := Some(now));
      if data.startedAt.Some? {
        data := data.(durationMs := Some(now - data.startedAt.value));
      }
      if reason.Some? && reason.value != "" {
        data := data.(errorMessage := reason);
      }
      return true;
    }
  }

  // ---------------------------------------------------------------------
  // The steps
  // ---------------------------------------------------------------------

  function Stored<D>(t: Table<D>, id: string): Option<Row<D>> {
    if t == [] then None else if t[0].id == id then Some(t[0]) else Stored(t[1..], id)
  }

  /** A column that the saved entity leaves undefined keeps its stored value. */
  function Merged(t: Table<Execution>, r: Row<Execution>): Row<Execution> {
    var old_ := Stored(t, r.id);
    if r.data.errorMessage.None? && old_.Some?
    then r.(data := r.data.(errorMessage := old_.value.data.errorMessage))
    else r
  }

  function ExecutionFilter(definitionId: Option<string>, status: Option<ExecutionStatus>): Row<Execution> -> bool {
    (r: Row<Execution>) =>
      (definitionId.None? || r.data.definitionId == definitionId.value) && (status.None? || r.data.status == status.value)
  }

  function TriggerFilter(eventType: string): Row<Definition> -> bool {
    (r: Row<Definition>) => r.data.trigger == OnEvent(Some(eventType)) && r.data.status == Active
  }

  function IdFilter<D>(id: string): Row<D> -> bool {
    (r: Row<D>) => r.id == id
  }

  function Begin(s: Store, q: Request, w: Work): Done {
    Done(s.(sessions := s.sessions[q := w]), Loaded)
  }

  function End(s: Store, q: Request): Store {
    s.(sessions := s.sessions - {q})
  }

  function WriteDefinition(s: Store, ctx: Option<string>, r: Row<Definition>): Done {
    match Saved(s.definitions, ctx, r)
    case Failure(e) => Done(s, Denied(e))
    case Success(t) => Done(s.(definitions := t), DefinitionSaved(r))
  }

  function WriteExecution(s: Store, ctx: Option<string>, r: Row<Execution>): Done {
    match Saved(s.executions, ctx, Merged(s.executions, r))
    case Failure(e) => Done(s, Denied(e))
    case Success(t) => Done(s.(executions := t), ExecutionSaved(r))
  }

  function ReadDefinition(s: Store, q: Request, id: string, trigger: bool): Done {
    match FindById(s.definitions, q.ctx, id)
    case Failure(e) => Done(s, Denied(e))
    case Success(None) => Done(s, NotFound)
    case Success(Some(d)) =>
      if !trigger then Begin(s, q, Editing(d))
      else if d.data.status != Active then Done(s, NotActive)
      else Begin(s, q, Triggering(d.id))
  }

  function ReadExecution(s: Store, q: Request, id: string, cancel: bool): Done {
    match FindById(s.executions, q.ctx, id)
    case Failure(e) => Done(s, Denied(e))
    case Success(None) => Done(s, NotFound)
    case Success(Some(e)) => if cancel then Begin(s, q, Cancelling(e)) else Done(s, FoundExecution(e))
  }

  function Query(s: Store, ctx: Option<string>, step: Step): Done
    requires step.ListExecutions? || step.FindByTriggerEvent? || step.ExistsDefinition?
  {
    match RequireTenantId(ctx)
    case Failure(e) => Done(s, Denied(e))
    case Success(tenant) =>
      Done(s, match step
              case ListExecutions(d, status, skip, take) =>
                var matching := Filter(s.executions, Scoped(tenant, ExecutionFilter(d, status)));
                Executions(Page(Slice(matching, skip, take), |matching|))
              case FindByTriggerEvent(eventType) => Definitions(Filter(s.definitions, Scoped(tenant, TriggerFilter(eventType))))
              case ExistsDefinition(id) => Exists(|Filter(s.definitions, Scoped(tenant, IdFilter(id)))| > 0))
  }

  function Save(s: Store, q: Request, step: Step): Done
    requires step.SaveDefinition? || step.TriggerSave? || step.CancelSave?
    requires q in s.sessions
  {
    match (step, s.sessions[q])
    case (SaveDefinition(status), Editing(r)) => WriteDefinition(End(s, q), q.ctx, r.(data := r.data.(status := status)))
    case (TriggerSave(id, command), Triggering(d)) => WriteExecution(End(s, q), q.ctx, NewExecution(id, d, command))
    case (CancelSave(reason, now), Cancelling(r)) =>
      if Terminal(r.data.status) then Done(End(s, q), Conflict)
      else WriteExecution(End(s, q), q.ctx, r.(data := AfterCancel(r.data, reason, now)))
    case _ => Done(s, Idle)
  }

  function Do(s: Store, a: Action): Done {
    match a.step
    case CreateDefinition(id, owner, trigger, name, body) =>
      WriteDefinition(s, a.request.ctx, Row(id, owner, Definition(Draft, trigger, name, body)))
    case LoadDefinition(id) => ReadDefinition(s, a.request, id, false)
    case TriggerRead(id) => ReadDefinition(s, a.request, id, true)
    case CancelRead(id) => ReadExecution(s, a.request, id, true)
    case FindExecution(id) => ReadExecution(s, a.request, id, false)
    case ListExecutions(_, _, _, _) => Query(s, a.request.ctx, a.step)
    case FindByTriggerEvent(_) => Query(s, a.request.ctx, a.step)
    case ExistsDefinition(_) => Query(s, a.request.ctx, a.step)
    case _ => if a.request in s.sessions then Save(s, a.request, a.step) else Done(s, Idle)
  }

  /** Generated ids are new. */
  predicate Fresh(s: Store, a: Action) {
    match a.step
    case CreateDefinition(id, _, _, _, _) => !HasId(s.definitions, id)
    case TriggerSave(id, _) => !HasId(s.executions, id)
    case _ => true
  }

  const EMPTY := Store([], [], map[])

  function After(s: Store, acts: seq<Action>): Store {
    if acts == [] then s else Do(After(s, acts[..|acts| - 1]), acts[|acts| - 1]).store
  }

  predicate FreshRun(s: Store, acts: seq<Action>) {
    acts != [] ==>
      FreshRun(s, acts[..|acts| - 1]) && Fresh(After(s, acts[..|acts| - 1]), acts[|acts| - 1])
  }

  // ---------------------------------------------------------------------
  // The handlers, when nothing comes between their two steps
  // ---------------------------------------------------------------------

  const WORKFLOW_TRIGGERED := "workflow.execution.triggered"

  /** The event that announces a saved execution; its id is the execution's. */
  function TriggeredEvent(e: Row<Execution>, definitionName: string, command: TriggerCommand, now: string): Event {
    Event(e.id, WORKFLOW_TRIGGERED, 1, e.tenantId, e.data.correlationId, command.actorId, None, None,
          "atlas-saas-platform", None, now,
          Obj(map[
            "executionId" := Str(e.id),
            "definitionId" := Str(e.data.definitionId),
            "definitionName" := Str(definitionName),
            "triggeredBy" := Str(e.data.triggeredBy),
            "triggerType" := Str(e.data.triggerType),
            "input" := command.input]),
          None)
  }

  lemma TriggeredEventTells(e: Row<Execution>, definitionName: string, command: TriggerCommand, now: string)
    ensures var event := TriggeredEvent(e, definitionName, command, now);
      && event.eventId == e.id && event.eventType == "workflow.execution.triggered" && event.eventVersion == 1
      && event.tenantId == e.tenantId && event.correlationId == e.data.correlationId && event.actorId == command.actorId
      && event.causationId == None && event.traceId == None && event.replay == None
      && event.sourceService == "atlas-saas-platform" && event.occurredAt == now && event.payload.Obj?
      && var payload := event.payload.fields;
         && payload.Keys == {"executionId", "definitionId", "definitionName", "triggeredBy", "triggerType", "input"}
         && payload["executionId"] == Str(e.id) && payload["definitionId"] == Str(e.data.definitionId)
         && payload["definitionName"] == Str(definitionName) && payload["triggeredBy"] == Str(e.data.triggeredBy)
         && payload["triggerType"] == Str(e.data.triggerType) && payload["input"] == command.input
  {
  }

  class WorkflowHandlers {
    var store: Store
    var published: seq<Event>

    constructor ()
      ensures store == EMPTY && published == []
    {
      store, published := EMPTY, [];
    }

    /**
     * What was saved stays saved when the bus then rejects the event and the handler throws;
     * nothing is published unless an execution was saved.
     */
    method Trigger(q: Request, definitionId: string, newId: string, command: TriggerCommand, busAccepts: bool, now: string)
      returns (o: Outcome)
      requires q !in store.sessions
      modifies this
      ensures var read := Do(old(store), Action(q, TriggerRead(definitionId)));
              var end := if read.outcome == Loaded then Do(read.store, Action(q, TriggerSave(newId, command))) else read;
              store == end.store &&
              if end.outcome.ExecutionSaved?
              then (o == if busAccepts then end.outcome else NotPublished(end.outcome.execution)) &&
                   exists d :: d in old(store).definitions && d.id == definitionId && d.data.status == Active &&
                     published == old(published) + [TriggeredEvent(end.outcome.execution, d.data.name, command, now)]
              else o == end.outcome && published == old(published)
      ensures |published| == |old(published)| + (if o.ExecutionSaved? || o.NotPublished? then 1 else 0)
      ensures old(published) <= published
      ensures |published| > |old(published)| ==>
        var event := published[|published| - 1];
        && (o.ExecutionSaved? <==> busAccepts)
        && event.eventId == newId && event.eventType == "workflow.execution.triggered" && event.eventVersion == 1
        && Some(event.tenantId) == q.ctx && event.tenantId == command.tenantId
        && event.correlationId == command.correlationId && event.actorId == command.actorId
        && event.causationId == None && event.traceId == None && event.replay == None
        && event.sourceService == "atlas-saas-platform" && event.occurredAt == now && event.payload.Obj?
        && var payload := event.payload.fields;
           && payload.Keys == {"executionId", "definitionId", "definitionName", "triggeredBy", "triggerType", "input"}
           && payload["executionId"] == Str(newId) && payload["definitionId"] == Str(definitionId)
           && (exists d :: d in old(store).definitions && d.id == definitionId && Some(d.tenantId) == q.ctx &&
                 d.data.status == Active && payload["definitionName"] == Str(d.data.name))
           && payload["triggeredBy"] == Str(if command.actorId.Some? then command.actorId.value else "system")
           && payload["triggerType"] == Str(command.triggerType) && payload["input"] == command.input
    {
      hide TriggeredEvent, Stored, Upsert;
      var definition := FindById(store.definitions, q.ctx, definitionId);
      if definition.Failure? {
        return Denied(definition.error);
      }
      if definition.value.None? {
        return NotFound;
      }
      var found := definition.value.value;
      if found.data.status != Active {
        return NotActive;
      }
      var execution := NewExecution(newId, found.id, command);
      var saved := Saved(store.executions, q.ctx, Merged(store.executions, execution));
      assert store.sessions[q := Triggering(found.id)] - {q} == store.sessions;
      if saved.Failure? {
        return Denied(saved.error);
      }
      store := store.(executions := saved.value);
      TriggeredEventTells(execution, found.data.name, command, now);
      published := published + [TriggeredEvent(execution, found.data.name, command, now)];
      return if busAccepts then ExecutionSaved(execution) else NotPublished(execution);
    }

    method Cancel(q: Request, executionId: string, reason: Option<string>, now: int) returns (o: Outcome)
      requires q !in store.sessions
      modifies this`store
      ensures var read := Do(old(store), Action(q, CancelRead(executionId)));
              Done(store, o) == if read.outcome == Loaded then Do(read.store, Action(q, CancelSave(reason, now))) else read
    {
      var execution := FindById(store.executions, q.ctx, executionId);
      if execution.Failure? {
        return Denied(execution.error);
      }
      if execution.value.None? {
        return NotFound;
      }
      assert store.sessions[q := Cancelling(execution.value.value)] - {q} == store.sessions;
      var entity := new WorkflowExecutionEntity.Reconstitute(execution.value.value);
      var ok := entity.Cancel(reason, now);
      if !ok {
        return Conflict;
      }
      var saved := Saved(store.executions, q.ctx, Merged(store.executions, entity.ToOrm()));
      if saved.Failure? {
        return Denied(saved.error);
      }
      store := store.(executions := saved.value);
      return ExecutionSaved(entity.ToOrm());
    }
  }

  // ---------------------------------------------------------------------
  // What every step keeps
  // ---------------------------------------------------------------------

  predicate Owned<D>(t: Table<D>, id: string, tenant: string) {
    exists i :: 0 <= i < |t| && t[i].id == id && t[i].tenantId == tenant
  }

  predicate WorkOk(s: Store, q: Request, w: Work) {
    q.ctx.GetOr("") != "" &&
    var tenant := q.ctx.value;
    match w
    case Editing(r) => r.tenantId == tenant && Owned(s.definitions, r.id, tenant)
    case Triggering(d) => Owned(s.definitions, d, tenant)
    case Cancelling(r) =>
      r.tenantId == tenant && Owned(s.executions, r.id, tenant) && Owned(s.definitions, r.data.definitionId, tenant)
  }

  /** Every execution belongs to the tenant whose definition it references. */
  predicate SameTenant(s: Store) {
    forall i :: 0 <= i < |s.executions| ==>
      Owned(s.definitions, s.executions[i].data.definitionId, s.executions[i].tenantId)
  }

  predicate Inv(s: Store) {
    && UniqueIds(s.definitions) && UniqueIds(s.executions)
    && SameTenant(s)
    && forall q :: q in s.sessions ==> WorkOk(s, q, s.sessions[q])
  }

  lemma OwnedIsOwn<D>(t: Table<D>, id: string, tenant: string)
    requires UniqueIds(t) && (Owned(t, id, tenant) || !HasId(t, id))
    ensures OwnOrFresh(t, tenant, id)
  {
  }

  lemma {:induction false} ReplaceAt<D>(t: Table<D>, r: Row<D>, i: nat)
    requires i < |t|
    ensures |Replace(t, r)| == |t| && Replace(t, r)[i] == if t[i].id == r.id then r else t[i]
  {
    if |t| > 1 {
      ReplaceAt(t[1..], r, if i > 0 then i - 1 else 0);
    }
  }

  lemma UpsertRows<D>(t: Table<D>, r: Row<D>)
    requires UniqueIds(t)
    ensures UniqueIds(Upsert(t, r))
    ensures forall i :: 0 <= i < |Upsert(t, r)| ==> Upsert(t, r)[i] == r || Upsert(t, r)[i] in t
  {
    if HasId(t, r.id) {
      assert |Replace(t, r)| == |t| by {
        ReplaceAt(t, r, 0);
      }
      forall i | 0 <= i < |t| ensures Replace(t, r)[i] == if t[i].id == r.id then r else t[i] {
        ReplaceAt(t, r, i);
      }
    }
  }

  lemma UpsertOwns<D>(t: Table<D>, r: Row<D>, id: string, tenant: string)
    requires OwnOrFresh(t, r.tenantId, r.id)
    requires Owned(t, id, tenant) || (id == r.id && tenant == r.tenantId)
    ensures Owned(Upsert(t, r), id, tenant)
  {
    var u := Upsert(t, r);
    if HasId(t, r.id) {
      var i :| 0 <= i < |t| && t[i].id == id && t[i].tenantId == tenant;
      ReplaceAt(t, r, i);
      assert u[i].id == id && u[i].tenantId == tenant;
    } else if Owned(t, id, tenant) {
      var i :| 0 <= i < |t| && t[i].id == id && t[i].tenantId == tenant;
      assert u[i + 1] == t[i];
    } else {
      assert u[0] == r;
    }
  }

  lemma SavedDefinitionKeepsInv(s: Store, ctx: Option<string>, r: Row<Definition>)
    requires Inv(s) && OwnOrFresh(s.definitions, r.tenantId, r.id)
    ensures Inv(WriteDefinition(s, ctx, r).store)
  {
    var s' := WriteDefinition(s, ctx, r).store;
    if s'.definitions != s.definitions {
      UpsertRows(s.definitions, r);
      forall id, tenant | Owned(s.definitions, id, tenant) ensures Owned(s'.definitions, id, tenant) {
        UpsertOwns(s.definitions, r, id, tenant);
      }
      forall q | q in s'.sessions ensures WorkOk(s', q, s'.sessions[q]) {
        assert WorkOk(s, q, s.sessions[q]);
      }
    }
  }

  lemma SavedExecutionKeepsInv(s: Store, ctx: Option<string>, r: Row<Execution>)
    requires Inv(s) && OwnOrFresh(s.executions, r.tenantId, r.id)
    requires ctx == Some(r.tenantId) ==> Owned(s.definitions, r.data.definitionId, r.tenantId)
    ensures Inv(WriteExecution(s, ctx, r).store)
  {
    var s' := WriteExecution(s, ctx, r).store;
    var m := Merged(s.executions, r);
    if s'.executions != s.executions {
      UpsertRows(s.executions, m);
      forall id, tenant | Owned(s.executions, id, tenant) ensures Owned(s'.executions, id, tenant) {
        UpsertOwns(s.executions, m, id, tenant);
      }
      forall q | q in s'.sessions ensures WorkOk(s', q, s'.sessions[q]) {
        assert WorkOk(s, q, s.sessions[q]);
      }
    }
  }

  lemma EndKeepsInv(s: Store, q: Request)
    requires Inv(s)
    ensures Inv(End(s, q))
  {
    forall p | p in End(s, q).sessions ensures WorkOk(End(s, q), p, s.sessions[p]) {
      assert WorkOk(s, p, s.sessions[p]);
    }
  }

  lemma BeginKeepsInv(s: Store, q: Request, w: Work)
    requires Inv(s) && WorkOk(s, q, w)
    ensures Inv(Begin(s, q, w).store)
  {
    var s' := Begin(s, q, w).store;
    forall p | p in s'.sessions ensures WorkOk(s', p, s'.sessions[p]) {
      assert p != q ==> WorkOk(s, p, s.sessions[p]);
    }
  }

  lemma StepKeepsInv(s: Store, a: Action)
    requires Inv(s) && Fresh(s, a)
    ensures Inv(Do(s, a).store)
  {
    var q := a.request;
    if a.step.CreateDefinition? {
      SavedDefinitionKeepsInv(s, q.ctx, Row(a.step.newId, a.step.owner, Definition(Draft, a.step.trigger, a.step.name, a.step.body)));
    } else if a.step.SaveDefinition? || a.step.TriggerSave? || a.step.CancelSave? {
      if q in s.sessions {
        SaveKeepsInv(s, q, a.step);
      }
    } else if Do(s, a).outcome == Loaded {
      BeginKeepsInv(s, q, Do(s, a).store.sessions[q]);
    }
  }

  lemma SaveKeepsInv(s: Store, q: Request, step: Step)
    requires Inv(s) && Fresh(s, Action(q, step)) && q in s.sessions
    requires step.SaveDefinition? || step.TriggerSave? || step.CancelSave?
    ensures Inv(Save(s, q, step).store)
  {
    assert WorkOk(s, q, s.sessions[q]);
    EndKeepsInv(s, q);
    match (step, s.sessions[q])
    case (SaveDefinition(status), Editing(r)) =>
      OwnedIsOwn(s.definitions, r.id, r.tenantId);
      SavedDefinitionKeepsInv(End(s, q), q.ctx, r.(data := r.data.(status := status)));
    case (TriggerSave(id, command), Triggering(d)) =>
      SavedExecutionKeepsInv(End(s, q), q.ctx, NewExecution(id, d, command));
    case (CancelSave(reason, now), Cancelling(r)) =>
      OwnedIsOwn(s.executions, r.id, r.tenantId);
      if !Terminal(r.data.status) {
        SavedExecutionKeepsInv(End(s, q), q.ctx, r.(data := AfterCancel(r.data, reason, now)));
      }
    case _ =>
  }

  lemma {:induction false} RunKeepsInv(s: Store, acts: seq<Action>)
    requires Inv(s) && FreshRun(s, acts)
    ensures Inv(After(s, acts))
    decreases |acts|
  {
    if acts != [] {
      RunKeepsInv(s, acts[..|acts| - 1]);
      StepKeepsInv(After(s, acts[..|acts| - 1]), acts[|acts| - 1]);
    }
  }

  // ---------------------------------------------------------------------
  // What the two saves come to, however long ago their reads were
  // ---------------------------------------------------------------------

  /** A trigger adds one pending execution, unless the command speaks for another tenant than the context. */
  lemma TriggerSaves(s: Store, q: Request, newId: string, command: TriggerCommand)
    requires Inv(s) && q in s.sessions && s.sessions[q].Triggering? && !HasId(s.executions, newId)
    ensures var done := Do(s, Action(q, TriggerSave(newId, command)));
            var e := NewExecution(newId, s.sessions[q].definitionId, command);
            done.store.definitions == s.definitions && done.store.sessions == s.sessions - {q} &&
            if q.ctx == Some(command.tenantId)
            then done.outcome == ExecutionSaved(e) && done.store.executions == [e] + s.executions &&
                 e.id == newId && e.tenantId == command.tenantId && e.data.correlationId == command.correlationId &&
                 e.data.definitionId == s.sessions[q].definitionId && e.data.status == Pending &&
                 e.data.triggeredBy == (if command.actorId.Some? then command.actorId.value else "system") &&
                 e.data.triggerType == command.triggerType && e.data.input == command.input && e.data.stepResults == [] &&
                 e.data.startedAt == e.data.completedAt == e.data.durationMs == None && e.data.errorMessage == None
            else done.outcome == Denied(Forbidden) && done.store.executions == s.executions
  {
    assert WorkOk(s, q, s.sessions[q]);
    StoredOfAbsent(s.executions, newId);
  }

  lemma {:induction false} StoredOfAbsent<D>(t: Table<D>, id: string)
    requires !HasId(t, id)
    ensures Stored(t, id) == None
  {
    if t != [] {
      assert t[0].id != id;
      forall i | 0 <= i < |t[1..]| ensures t[1..][i].id != id {
        assert t[1..][i] == t[i + 1];
      }
      StoredOfAbsent(t[1..], id);
    }
  }

  lemma {:induction false} StoredAt<D>(t: Table<D>, i: nat)
    requires UniqueIds(t) && i < |t|
    ensures Stored(t, t[i].id) == Some(t[i])
  {
    if i > 0 {
      assert t[0].id != t[i].id && t[1..][i - 1] == t[i];
      StoredAt(t[1..], i - 1);
    }
  }

  /**
   * A cancel conflicts exactly when the execution was terminal when it was loaded, whatever is stored
   * by now; otherwise it overwrites the stored row with the loaded one, cancelled, but for an error
   * message that neither the caller nor the loaded row gives.
   */
  lemma CancelSaves(s: Store, q: Request, reason: Option<string>, now: int, i: nat)
    requires Inv(s) && q in s.sessions && s.sessions[q].Cancelling? && i < |s.executions|
    ensures var done := Do(s, Action(q, CancelSave(reason, now)));
            var r := s.sessions[q].execution;
            done.store.definitions == s.definitions && done.store.sessions == s.sessions - {q} &&
            (done.outcome == Conflict <==> Terminal(r.data.status)) &&
            |done.store.executions| == |s.executions| &&
            done.store.executions[i] ==
            if Terminal(r.data.status) || s.executions[i].id != r.id then s.executions[i]
            else r.(data := r.data.(
              status := Cancelled, completedAt := Some(now),
              durationMs := if r.data.startedAt.Some? then Some(now - r.data.startedAt.value) else r.data.durationMs,
              errorMessage := if reason.GetOr("") != "" then reason
                              else if r.data.errorMessage.Some? then r.data.errorMessage
                              else s.executions[i].data.errorMessage))
  {
    hide SameTenant;
    var r := s.sessions[q].execution;
    assert WorkOk(s, q, s.sessions[q]);
    assert HasId(s.executions, r.id);
    if !Terminal(r.data.status) {
      var saved := r.(data := AfterCancel(r.data, reason, now));
      StoredAt(s.executions, i);
      ReplaceAt(s.executions, Merged(s.executions, saved), i);
    }
  }

  // ---------------------------------------------------------------------
  // One shared store behaves as one private store per tenant
  // ---------------------------------------------------------------------

  function OwnSessions(m: map<Request, Work>, tenant: string): map<Request, Work> {
    map q | q in m && q.ctx == Some(tenant) :: m[q]
  }

  /** What the tenant would hold if it had the tables to itself. */
  function View(s: Store, tenant: string): Store {
    Store(Private(s.definitions, tenant), Private(s.executions, tenant), OwnSessions(s.sessions, tenant))
  }

  lemma {:induction false} StoredIsPrivate<D>(t: Table<D>, tenant: string, id: string)
    requires OwnOrFresh(t, tenant, id)
    ensures Stored(t, id) == Stored(Private(t, tenant), id)
  {
    if t != [] {
      StoredIsPrivate(t[1..], tenant, id);
      PrivateHead(t, tenant);
      assert t[0].id == id ==> t[0].tenantId == tenant;
    }
  }

  lemma BeginIsPrivate(s: Store, q: Request, w: Work, tenant: string)
    ensures View(Begin(s, q, w).store, tenant) ==
            if q.ctx == Some(tenant) then Begin(View(s, tenant), q, w).store else View(s, tenant)
  {
    assert OwnSessions(s.sessions[q := w], tenant) ==
      if q.ctx == Some(tenant) then OwnSessions(s.sessions, tenant)[q := w] else OwnSessions(s.sessions, tenant);
  }

  lemma EndIsPrivate(s: Store, q: Request, tenant: string)
    ensures View(End(s, q), tenant) == if q.ctx == Some(tenant) then End(View(s, tenant), q) else View(s, tenant)
  {
    assert OwnSessions(s.sessions - {q}, tenant) ==
      if q.ctx == Some(tenant) then OwnSessions(s.sessions, tenant) - {q} else OwnSessions(s.sessions, tenant);
  }

  /** The tenant's own action looks the same on its private store; nobody else's shows there. */
  ghost predicate Isolated(s: Store, shared: Done, private: Done, ctx: Option<string>, tenant: string) {
    if ctx == Some(tenant) then private == Done(View(shared.store, tenant), shared.outcome)
    else View(shared.store, tenant) == View(s, tenant)
  }

  lemma WriteDefinitionIsolated(s: Store, ctx: Option<string>, r: Row<Definition>, tenant: string)
    requires OwnOrFresh(s.definitions, r.tenantId, r.id)
    ensures Isolated(s, WriteDefinition(s, ctx, r), WriteDefinition(View(s, tenant), ctx, r), ctx, tenant)
  {
    SaveIsPrivate(s.definitions, ctx, r);
  }

  lemma WriteExecutionIsolated(s: Store, ctx: Option<string>, r: Row<Execution>, tenant: string)
    requires OwnOrFresh(s.executions, r.tenantId, r.id)
    ensures Isolated(s, WriteExecution(s, ctx, r), WriteExecution(View(s, tenant), ctx, r), ctx, tenant)
  {
    SaveIsPrivate(s.executions, ctx, Merged(s.executions, r));
    if ctx == Some(r.tenantId) {
      StoredIsPrivate(s.executions, r.tenantId, r.id);
    }
  }

  lemma DefinitionReadIsolated(s: Store, q: Request, id: string, trigger: bool, tenant: string)
    ensures Isolated(s, ReadDefinition(s, q, id, trigger), ReadDefinition(View(s, tenant), q, id, trigger), q.ctx, tenant)
  {
    hide OwnSessions, Private, FirstMatch, Begin;
    FindIsPrivate(s.definitions, tenant, id);
    var found := FirstMatch(s.definitions, q.ctx.GetOr(""), id);
    if found.Some? {
      BeginIsPrivate(s, q, Editing(found.value), tenant);
      BeginIsPrivate(s, q, Triggering(found.value.id), tenant);
      BeginLoads(s, q, Editing(found.value));
      BeginLoads(View(s, tenant), q, Editing(found.value));
      BeginLoads(s, q, Triggering(found.value.id));
      BeginLoads(View(s, tenant), q, Triggering(found.value.id));
    }
  }

  lemma ExecutionReadIsolated(s: Store, q: Request, id: string, cancel: bool, tenant: string)
    ensures Isolated(s, ReadExecution(s, q, id, cancel), ReadExecution(View(s, tenant), q, id, cancel), q.ctx, tenant)
  {
    hide OwnSessions, Private, FirstMatch, Begin;
    FindIsPrivate(s.executions, tenant, id);
    var found := FirstMatch(s.executions, q.ctx.GetOr(""), id);
    if found.Some? {
      BeginIsPrivate(s, q, Cancelling(found.value), tenant);
      BeginLoads(s, q, Cancelling(found.value));
      BeginLoads(View(s, tenant), q, Cancelling(found.value));
    }
  }

  lemma BeginLoads(s: Store, q: Request, w: Work)
    ensures Begin(s, q, w).outcome == Loaded
  {
  }

  lemma QueryIsolated(s: Store, ctx: Option<string>, step: Step, tenant: string)
    requires step.ListExecutions? || step.FindByTriggerEvent? || step.ExistsDefinition?
    ensures Isolated(s, Query(s, ctx, step), Query(View(s, tenant), ctx, step), ctx, tenant)
  {
    match step
    case ListExecutions(d, status, _, _) => FilterIsPrivate(s.executions, tenant, ExecutionFilter(d, status));
    case FindByTriggerEvent(eventType) => FilterIsPrivate(s.definitions, tenant, TriggerFilter(eventType));
    case ExistsDefinition(id) => FilterIsPrivate(s.definitions, tenant, IdFilter(id));
  }

  lemma SaveIsolated(s: Store, q: Request, step: Step, tenant: string)
    requires Inv(s) && Fresh(s, Action(q, step)) && q in s.sessions
    requires step.SaveDefinition? || step.TriggerSave? || step.CancelSave?
    ensures q.ctx == Some(tenant) ==> q in View(s, tenant).sessions
    ensures Isolated(s, Save(s, q, step), if q.ctx == Some(tenant) then Save(View(s, tenant), q, step) else Done(s, Idle), q.ctx, tenant)
  {
    assert WorkOk(s, q, s.sessions[q]);
    EndIsPrivate(s, q, tenant);
    match (step, s.sessions[q])
    case (SaveDefinition(status), Editing(r)) =>
      OwnedIsOwn(s.definitions, r.id, r.tenantId);
      WriteDefinitionIsolated(End(s, q), q.ctx, r.(data := r.data.(status := status)), tenant);
    case (TriggerSave(id, command), Triggering(d)) =>
      WriteExecutionIsolated(End(s, q), q.ctx, NewExecution(id, d, command), tenant);
    case (CancelSave(reason, now), Cancelling(r)) =>
      OwnedIsOwn(s.executions, r.id, r.tenantId);
      if !Terminal(r.data.status) {
        WriteExecutionIsolated(End(s, q), q.ctx, r.(data := AfterCancel(r.data, reason, now)), tenant);
      }
    case _ =>
  }

  lemma StepIsolated(s: Store, a: Action, tenant: string)
    requires Inv(s) && Fresh(s, a)
    ensures Isolated(s, Do(s, a), Do(View(s, tenant), a), a.request.ctx, tenant)
  {
    var q := a.request;
    match a.step
    case CreateDefinition(id, owner, trigger, name, body) =>
      WriteDefinitionIsolated(s, q.ctx, Row(id, owner, Definition(Draft, trigger, name, body)), tenant);
    case LoadDefinition(id) => DefinitionReadIsolated(s, q, id, false, tenant);
    case TriggerRead(id) => DefinitionReadIsolated(s, q, id, true, tenant);
    case CancelRead(id) => ExecutionReadIsolated(s, q, id, true, tenant);
    case FindExecution(id) => ExecutionReadIsolated(s, q, id, false, tenant);
    case ListExecutions(_, _, _, _) => QueryIsolated(s, q.ctx, a.step, tenant);
    case FindByTriggerEvent(_) => QueryIsolated(s, q.ctx, a.step, tenant);
    case ExistsDefinition(_) => QueryIsolated(s, q.ctx, a.step, tenant);
    case _ =>
      if q in s.sessions {
        SaveIsolated(s, q, a.step, tenant);
      }
  }

  /** The tenant's own actions, and the outcomes that they got. */
  function Only(acts: seq<Action>, tenant: string): seq<Action> {
    if acts == [] then []
    else
      var a := acts[|acts| - 1];
      Only(acts[..|acts| - 1], tenant) + if a.request.ctx == Some(tenant) then [a] else []
  }

  function Outcomes(s: Store, acts: seq<Action>, tenant: string): seq<Outcome> {
    if acts == [] then []
    else
      var init, a := acts[..|acts| - 1], acts[|acts| - 1];
      Outcomes(s, init, tenant) + if a.request.ctx == Some(tenant) then [Do(After(s, init), a).outcome] else []
  }

  /**
   * In any interleaving of all tenants' handler steps each tenant sees exactly the outcomes, and
   * is left with exactly the rows, of running its own steps alone on tables of its own.
   */
  lemma {:induction false} TenantsAreIsolated(s: Store, acts: seq<Action>, tenant: string)
    requires Inv(s) && FreshRun(s, acts)
    ensures View(After(s, acts), tenant) == After(View(s, tenant), Only(acts, tenant))
    ensures Outcomes(s, acts, tenant) == Outcomes(View(s, tenant), Only(acts, tenant), tenant)
    decreases |acts|
  {
    if acts != [] {
      var init, a := acts[..|acts| - 1], acts[|acts| - 1];
      RunKeepsInv(s, init);
      TenantsAreIsolated(s, init, tenant);
      StepIsolated(After(s, init), a, tenant);
      var own := Only(acts, tenant);
      if a.request.ctx == Some(tenant) {
        assert own[..|own| - 1] == Only(init, tenant) && own[|own| - 1] == a;
      } else {
        assert own == Only(init, tenant);
      }
    }
  }

  /** Without a tenant context no step reads or writes anything. */
  lemma NoContextNoEffect(s: Store, a: Action)
    requires Inv(s) && a.request.ctx.GetOr("") == ""
    ensures Do(s, a).store == s && (Do(s, a).outcome == Denied(NoContext) || Do(s, a).outcome == Idle)
  {
  }
}
