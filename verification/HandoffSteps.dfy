/**
 One function for each unit of work on the handoff, order and session rows.
 The handoff service's methods are proved to compute these functions, and the
 protocol's properties are proved about them.
 */
module HandoffSteps {
  import opened Wrappers
  import opened Journal
  import opened HandoffModel

  // ---------- lookups ----------

  /** The active case of a session, looking at ids below bound. */
  function FindActive(cases: map<int, Case>, session: int, bound: int): (r: Option<int>)
    ensures r.Some? ==> r.value in cases && cases[r.value].session == session && IsActive(cases[r.value].status)
    ensures r.None? ==> forall id :: 0 <= id < bound && id in cases && cases[id].session == session ==> !IsActive(cases[id].status)
    decreases bound
  {
    if bound <= 0 then None
    else
      var r := FindActive(cases, session, bound - 1);
      if r.None? && bound - 1 in cases && cases[bound - 1].session == session && IsActive(cases[bound - 1].status)
      then Some(bound - 1) else r
  }

  predicate OwnedBy(o: Order, session: int, tenant: int) {
    o.session == session && o.tenant == tenant
  }

  /** The session's latest order by (createdAt, id), looking at ids below bound. */
  function LatestOrder(orders: map<int, Order>, session: int, tenant: int, bound: int): (r: Option<int>)
    ensures r.Some? ==> r.value in orders && 0 <= r.value < bound && OwnedBy(orders[r.value], session, tenant)
    ensures forall id :: 0 <= id < bound && id in orders && OwnedBy(orders[id], session, tenant) ==>
              r.Some? && (orders[id].createdAt < orders[r.value].createdAt
                          || (orders[id].createdAt == orders[r.value].createdAt && id <= r.value))
    decreases bound
  {
    if bound <= 0 then None
    else
      var r := LatestOrder(orders, session, tenant, bound - 1);
      if bound - 1 in orders && OwnedBy(orders[bound - 1], session, tenant)
         && (r.None? || orders[r.value].createdAt <= orders[bound - 1].createdAt)
      then Some(bound - 1) else r
  }

  /** The order of a case, if the case names one that exists in its tenant. */
  function OrderOf(db: Db, c: Case): (r: Option<int>)
    ensures r.Some? ==> r.value in db.orders && c.order == r
  {
    if c.order.Some? && c.order.value in db.orders && db.orders[c.order.value].tenant == c.tenant then c.order else None
  }

  /** A case is visible inside its tenant and, when a session key is given, to that session only. */
  predicate Scoped(db: Db, id: int, tenant: int, key: Option<int>) {
    && id in db.cases && db.cases[id].tenant == tenant
    && (key.Some? ==> key.value in db.sessions && db.sessions[key.value].tenant == tenant && db.cases[id].session == key.value)
  }

  // ---------- writes shared by the units of work ----------

  function AddCaseEvent(db: Db, id: int, e: HandoffEvent): Db {
    db.(caseEvents := Append(db.caseEvents, id, e))
  }

  function AddOrderEvent(db: Db, id: int, e: OrderEvent): Db {
    db.(orderEvents := Append(db.orderEvents, id, e))
  }

  function InvalidateAt(confirmations: map<(int, int), Confirmation>, order: int, version: int): map<(int, int), Confirmation> {
    if (order, version) in confirmations then confirmations[(order, version) := Confirmation(true)] else confirmations
  }

  /** The status is compared and written in one statement; nothing happens on a version mismatch. */
  function SaveOptimistic(db: Db, session: int, expected: int, state: SessionState): Option<Db> {
    if session in db.sessions && db.sessions[session].version == expected
    then Some(db.(sessions := db.sessions[session := db.sessions[session].(version := expected + 1, state := state)]))
    else None
  }

  /** A status move of a case, checked against the status the caller has seen. */
  function ApplyTransition(db: Db, id: int, seen: HandoffStatus, r: ProviderResult, actor: Actor): Result<Db, Error>
    requires id in db.cases
  {
    if r.status !in AllowedTransitions(seen) then Err(InvalidHandoffTransition(seen, r.status))
    else if r.status == Resolved && r.resolution.None? then Err(ResolutionRequired)
    else if r.status == Failed && r.failure.None? then Err(FailureCodeRequired)
    else
      var c := db.cases[id];
      var c1 := c.(status := r.status,
                   failure := if r.status == Failed then r.failure
                              else if r.status == Cancelled then Some(CaseCancelled) else c.failure,
                   resolution := if r.status == Resolved then r.resolution else c.resolution);
      var db1 := db.(cases := db.cases[id := c1]);
      var db2 := if r.status == Resolved && r.resolution.value.draftChanged && OrderOf(db, c).Some?
                 then DraftChanged(db1, c.order.value) else db1;
      Ok(AddCaseEvent(db2, id, Moved(seen, r.status, actor)))
  }

  /** A resolution that changed the draft sends the order back to DRAFT from any status. */
  function DraftChanged(db: Db, oid: int): Db
    requires oid in db.orders
  {
    var o := db.orders[oid];
    AddOrderEvent(db.(orders := db.orders[oid := o.(draftVersion := o.draftVersion + 1, status := Draft, hold := true)]),
                  oid, HandoffDraftChanged(o.status, o.draftVersion + 1))
  }

  // ---------- opening a case ----------

  /** The first half of _create_or_reuse: what the request reads, and the update when a case is active. */
  function UpdateRisk(db: Db, id: int, d: Decision): Db
    requires id in db.cases
  {
    var c := db.cases[id];
    if c.reason == d.reason then db
    else
      var c1 := c.(reason := d.reason, priority := MaxPriority(c.priority, PriorityOf(d.reason)),
                   riskIds := c.riskIds + d.riskIds, blockedActions := c.blockedActions + d.blockedActions);
      AddCaseEvent(db.(cases := db.cases[id := c1]), id, RiskUpdated(c.reason, d.reason))
  }

  /** The second half: insert under the partial unique index, then freeze the latest order. */
  function InsertCase(db: Db, tenant: int, session: int, d: Decision): Outcome<int>
  {
    if FindActive(db.cases, session, db.nextCase).Some? then Outcome(db, Err(UniqueViolation))
    else
      var oid := LatestOrder(db.orders, session, tenant, db.nextOrder);
      var id := db.nextCase;
      var c := Case(tenant, session, oid, Requested, d.reason, PriorityOf(d.reason), d.riskIds, d.blockedActions, None, None);
      var db1 := AddCaseEvent(db.(cases := db.cases[id := c], nextCase := id + 1), id, CaseRequested(d.reason, PriorityOf(d.reason)));
      var db2 := if oid.Some? then Freeze(db1, oid.value, d.reason) else db1;
      Outcome(db2, Ok(id))
  }

  function Freeze(db: Db, oid: int, reason: Reason): Db
    requires oid in db.orders
  {
    var o := db.orders[oid];
    db.(orders := db.orders[oid := o.(hold := true, holdReason := Some(reason))],
        confirmations := InvalidateAt(db.confirmations, oid, o.draftVersion))
  }

  datatype Opened = Opened(id: int, created: bool)

  function CreateOrReuse(db: Db, tenant: int, session: int, d: Decision): Outcome<Opened>
  {
    if session !in db.sessions || db.sessions[session].tenant != tenant then Outcome(db, Err(SessionNotFound))
    else
      var active := FindActive(db.cases, session, db.nextCase);
      if active.Some? then Outcome(UpdateRisk(db, active.value, d), Ok(Opened(active.value, false)))
      else
        var r := InsertCase(db, tenant, session, d);
        match r.result
        case Ok(id) => Outcome(r.db, Ok(Opened(id, true)))
        case Err(e) => Outcome(db, Err(e))
  }

  // ---------- moving a case ----------

  datatype ProviderCall =
    | Assign | Connect
    | Fail(code: FailureCode)
    | Resolve(resolution: Option<Resolution>, safe: bool)

  function ProviderAnswer(call: ProviderCall): ProviderResult {
    match call
    case Assign => ProviderResult(AgentAssigned, None, None)
    case Connect => ProviderResult(AgentConnected, None, None)
    case Fail(code) => ProviderResult(Failed, Some(code), None)
    case Resolve(resolution, _) => ProviderResult(Resolved, None, resolution)
  }

  function MoveCase(db: Db, id: int, r: ProviderResult, actor: Actor): Outcome<()>
    requires id in db.cases
  {
    match ApplyTransition(db, id, db.cases[id].status, r, actor)
    case Ok(db1) => Outcome(db1, Ok(()))
    case Err(e) => Outcome(db, Err(e))
  }

  function ProviderMove(db: Db, tenant: int, id: int, key: Option<int>, call: ProviderCall): Outcome<()>
  {
    if call.Resolve? && !call.safe then Outcome(db, Err(UnsafePayload))
    else if !Scoped(db, id, tenant, key) then Outcome(db, Err(HandoffNotFound))
    else MoveCase(db, id, ProviderAnswer(call), SimulationProvider)
  }

  /** Second unit of work of request_handoff: the summary may fail, then the case is queued. */
  function QueueCase(db: Db, tenant: int, id: int, session: int, summaryBuilt: bool): Outcome<()>
  {
    if !Scoped(db, id, tenant, None) then Outcome(db, Err(HandoffNotFound))
    else if session !in db.sessions || db.sessions[session].tenant != tenant then Outcome(db, Err(SessionNotFound))
    else if !summaryBuilt then Outcome(db, Err(SummaryFailed))
    else MoveCase(db, id, ProviderResult(Pending, None, None), SimulationProvider)
  }

  function MarkSummaryFailure(db: Db, tenant: int, id: int): Outcome<()>
  {
    if !Scoped(db, id, tenant, None) then Outcome(db, Err(HandoffNotFound))
    else if db.cases[id].status != Requested && db.cases[id].status != Pending then Outcome(db, Ok(()))
    else MoveCase(db, id, ProviderResult(Failed, Some(SystemError), None), System)
  }

  /** request_handoff with nothing in between: open or reuse, then queue, then fail the case if queueing failed. */
  function RequestHandoff(db: Db, tenant: int, session: int, d: Decision, summaryBuilt: bool): Outcome<int>
  {
    var start := CreateOrReuse(db, tenant, session, d);
    match start.result
    case Err(e) => Outcome(db, Err(e))
    case Ok(o) =>
      if !o.created then Outcome(start.db, Ok(o.id))
      else
        var queued := QueueCase(start.db, tenant, o.id, session, summaryBuilt);
        if queued.result.Ok? then Outcome(queued.db, Ok(o.id))
        else Outcome(MarkSummaryFailure(start.db, tenant, o.id).db, Ok(o.id))
  }

  // ---------- cancelling a case ----------

  /** What a cancel has read before it tries to claim the case. */
  datatype Ticket = Ticket(id: int, seen: Case, session: int, row: SessionRow)

  function ReadForCancel(db: Db, tenant: int, id: int, key: Option<int>): Result<Ticket, Error>
  {
    if !Scoped(db, id, tenant, key) then Err(HandoffNotFound)
    else
      var sid := db.cases[id].session;
      if sid !in db.sessions || db.sessions[sid].tenant != tenant then Err(HandoffNotFound)
      else Ok(Ticket(id, db.cases[id], sid, db.sessions[sid]))
  }

  /** The conditional update that lets exactly one cancel through. */
  function ClaimCancellation(db: Db, id: int): Option<Db> {
    if id in db.cases && IsActive(db.cases[id].status)
    then Some(db.(cases := db.cases[id := db.cases[id].(status := Cancelled, failure := Some(CaseCancelled))]))
    else None
  }

  function ShouldAdvance(db: Db, oid: Option<int>, state: SessionState): bool
    requires oid.Some? ==> oid.value in db.orders
  {
    (oid.Some? && (oid.value, db.orders[oid.value].draftVersion) in db.confirmations) || state.confirmationValid || state.submitted
  }

  function CancelledOrder(o: Order, advance: bool, sessionVersion: int, reason: Reason): Order
  {
    var explicit := reason == ExplicitHumanRequest;
    var o1 := o.(draftVersion := Max(if advance then o.draftVersion + 1 else o.draftVersion, sessionVersion),
                 status := if o.status == CustomerConfirmed then Draft else o.status);
    if explicit && o.hold && o.holdReason == Some(ExplicitHumanRequest) then o1.(hold := false, holdReason := None)
    else if !explicit then o1.(hold := true, holdReason := Some(reason))
    else o1
  }

  function CancelledState(s: SessionState, version: int, c: Case, id: int, persistence: int): SessionState
  {
    s.(draftVersion := version, confirmationValid := false, submitted := false, submittedOrder := None,
       lifecycle := Draft, stage := "ordering", handoffCase := Some(id), handoffStatus := Cancelled,
       classification := Handoff, reason := Some(c.reason),
       blockedActions := if c.reason == ExplicitHumanRequest then {} else c.blockedActions,
       confirmedFields := {}, unconfirmedFields := s.unconfirmedFields + {"final_order"},
       persistenceVersion := persistence)
  }

  datatype Effects = Effects(db: Db, report: Cancellation)

  /** Confirmation, draft version, hold, session and order journal, all in the claiming transaction. */
  function CancelEffects(db: Db, id: int, c: Case, session: int, row: SessionRow): Result<Effects, Error>
  {
    var explicit := c.reason == ExplicitHumanRequest;
    var oid := OrderOf(db, c);
    var advance := ShouldAdvance(db, oid, row.state);
    var version := if oid.Some? then CancelledOrder(db.orders[oid.value], advance, row.state.draftVersion, c.reason).draftVersion
                   else if advance then row.state.draftVersion + 1 else row.state.draftVersion;
    var state := CancelledState(row.state, version, c, id, row.version + 1);
    var db1 := if oid.Some? then
                 var o := db.orders[oid.value];
                 db.(orders := db.orders[oid.value := CancelledOrder(o, advance, row.state.draftVersion, c.reason)],
                     confirmations := InvalidateAt(db.confirmations, oid.value, o.draftVersion))
               else db;
    match SaveOptimistic(db1, session, row.version, state)
    case None => Err(SessionVersionConflict)
    case Some(db2) =>
      var hold := if oid.Some? then db1.orders[oid.value].hold else !explicit;
      var db3 := if oid.Some? then
                   var o := db.orders[oid.value];
                   var o1 := db1.orders[oid.value];
                   AddOrderEvent(db2, oid.value,
                                 HandoffCancelled(!(explicit && !hold), c.reason, o.status, o1.status,
                                                  o.draftVersion, o1.draftVersion, o.hold, hold))
                 else db2;
      Ok(Effects(db3, Cancellation(explicit && !hold,
                                   oid.Some? && db.orders[oid.value].hold && !hold,
                                   true, true, hold, state.draftVersion, Draft, row.version + 1, false)))
  }

  /** The report of a cancel that finds the case already cancelled. */
  function CurrentCancellation(db: Db, c: Case, row: SessionRow): Cancellation
  {
    var explicit := c.reason == ExplicitHumanRequest;
    var oid := OrderOf(db, c);
    var hold := if oid.Some? then db.orders[oid.value].hold else !explicit;
    var invalid := !row.state.confirmationValid && !row.state.submitted;
    Cancellation(explicit && !hold && row.state.lifecycle == Draft, explicit && oid.Some? && !hold,
                 invalid, invalid, hold, row.state.draftVersion, row.state.lifecycle, row.version, true)
  }

  /** Everything after the read. Case fields are the ones the ticket carries, except after a refresh. */
  function CommitCancel(db: Db, t: Ticket): Outcome<Cancellation>
  {
    if t.seen.status == Cancelled then Outcome(db, Ok(CurrentCancellation(db, t.seen, t.row)))
    else
      match ClaimCancellation(db, t.id)
      case None =>
        if t.id in db.cases && db.cases[t.id].status == Cancelled
        then Outcome(db, Ok(CurrentCancellation(db, db.cases[t.id], t.row)))
        else Outcome(db, Err(InvalidHandoffTransition(if t.id in db.cases then db.cases[t.id].status else t.seen.status, Cancelled)))
      case Some(db1) =>
        match ApplyTransition(db1, t.id, t.seen.status, ProviderResult(Cancelled, Some(CaseCancelled), None), Customer)
        case Err(e) => Outcome(db, Err(e))
        case Ok(db2) =>
          match CancelEffects(db2, t.id, t.seen, t.session, t.row)
          case Err(e) => Outcome(db, Err(e))
          case Ok(effects) => Outcome(effects.db, Ok(effects.report))
  }

  function CancelCase(db: Db, tenant: int, id: int, key: Option<int>): Outcome<Cancellation>
  {
    match ReadForCancel(db, tenant, id, key)
    case Err(e) => Outcome(db, Err(e))
    case Ok(t) => CommitCancel(db, t)
  }

  // ---------- orders and sessions ----------

  /** OrderLifecycleService.transition. */
  function EnterStatus(db: Db, oid: int, target: OrderStatus, merchantFixture: bool): Outcome<()>
  {
    if oid !in db.orders then Outcome(db, Err(OrderNotFound))
    else
      var o := db.orders[oid];
      if o.hold && BlockedByHold(target) then Outcome(db, Err(SafetyHoldActive))
      else if SetByMerchant(target) && (!merchantFixture || !o.synthetic) then Outcome(db, Err(InvalidOrderTransition(o.status, target)))
      else if target !in LifecycleTransitions(o.status) then Outcome(db, Err(InvalidOrderTransition(o.status, target)))
      else Outcome(AddOrderEvent(db.(orders := db.orders[oid := o.(status := target)]), oid, Entered(o.status, target)), Ok(()))
  }

  function ConfirmedState(s: SessionState, oid: int, persistence: int): SessionState {
    s.(submitted := true, submittedOrder := Some(oid), stage := "submitted", lifecycle := CustomerConfirmed,
       confirmationValid := true, persistenceVersion := persistence)
  }

  datatype Prepared = Prepared(db: Db, order: int)

  /** The latest order is reused if it is the draft of this version, else a draft is created. */
  function PrepareDraft(db: Db, tenant: int, session: int, version: int, createdAt: int): Prepared
  {
    var latest := LatestOrder(db.orders, session, tenant, db.nextOrder);
    if latest.Some? && db.orders[latest.value].status == Draft && db.orders[latest.value].draftVersion == version
    then Prepared(AddOrderEvent(db, latest.value, DraftRevalidated(version)), latest.value)
    else
      var oid := db.nextOrder;
      var o := Order(tenant, session, createdAt, Draft, version, false, None, true);
      Prepared(AddOrderEvent(db.(orders := db.orders[oid := o], nextOrder := oid + 1), oid, DraftCreated(version)), oid)
  }

  /** The confirmation row, the status move and the session save; the confirmation is unique per version. */
  function FinishConfirm(db: Db, oid: int, session: int, row: SessionRow, state: SessionState): Result<Db, Error>
  {
    if (oid, state.draftVersion) in db.confirmations then Err(DatabaseWriteFailed)
    else
      var entered := EnterStatus(db.(confirmations := db.confirmations[(oid, state.draftVersion) := Confirmation(false)]),
                                 oid, CustomerConfirmed, false);
      match entered.result
      case Err(e) => Err(e)
      case Ok(_) =>
        match SaveOptimistic(entered.db, session, row.version, ConfirmedState(state, oid, row.version + 1))
        case None => Err(SessionVersionConflict)
        case Some(db1) => Ok(db1)
  }

  /** OrderPersistenceService.confirm_order: the customer confirms the draft the session holds. */
  function ConfirmOrder(db: Db, tenant: int, session: int, state: SessionState, createdAt: int): Outcome<int>
  {
    if session !in db.sessions || db.sessions[session].tenant != tenant then Outcome(db, Err(TenantMismatch))
    else
      var row := db.sessions[session];
      if row.state.draftVersion != state.draftVersion || row.state.items != state.items then Outcome(db, Err(ConfirmationStale))
      else if state.persistenceVersion != 0 && state.persistenceVersion != row.version then Outcome(db, Err(SessionVersionConflict))
      else
        var latest := LatestOrder(db.orders, session, tenant, db.nextOrder);
        if latest.Some? && db.orders[latest.value].hold then Outcome(db, Err(SafetyHoldActive))
        else
          var p := PrepareDraft(db, tenant, session, state.draftVersion, createdAt);
          match FinishConfirm(p.db, p.order, session, row, state)
          case Err(e) => Outcome(db, Err(e))
          case Ok(db1) => Outcome(db1, Ok(p.order))
  }

  /** Withdrawing a confirmation cancels the order. */
  function InvalidateConfirmation(db: Db, tenant: int, oid: int): Outcome<()>
  {
    if oid !in db.orders || db.orders[oid].tenant != tenant then Outcome(db, Err(OrderNotFound))
    else
      var o := db.orders[oid];
      if (oid, o.draftVersion) !in db.confirmations || db.confirmations[(oid, o.draftVersion)].invalidated
      then Outcome(db, Err(ConfirmationStale))
      else
        var db1 := db.(confirmations := InvalidateAt(db.confirmations, oid, o.draftVersion),
                       orders := db.orders[oid := o.(draftVersion := o.draftVersion + 1)]);
        var entered := EnterStatus(db1, oid, OrderCancelled, false);
        match entered.result
        case Err(e) => Outcome(db, Err(e))
        case Ok(_) => entered
  }

  /** PersistentSessionStore.get on an unknown key. */
  function OpenSession(db: Db, tenant: int, session: int, state: SessionState): Outcome<()> {
    if session in db.sessions then Outcome(db, if db.sessions[session].tenant == tenant then Ok(()) else Err(TenantMismatch))
    else Outcome(db.(sessions := db.sessions[session := SessionRow(tenant, 1, state.(persistenceVersion := 1))]), Ok(()))
  }

  /** PersistentSessionStore.set: the end of a conversation turn. */
  function SaveTurn(db: Db, tenant: int, session: int, state: SessionState): Outcome<()> {
    if session !in db.sessions || db.sessions[session].tenant != tenant then Outcome(db, Err(TenantMismatch))
    else
      match SaveOptimistic(db, session, state.persistenceVersion, state.(persistenceVersion := state.persistenceVersion + 1))
      case None => Outcome(db, Err(SessionVersionConflict))
      case Some(db1) => Outcome(db1, Ok(()))
  }

  // ---------- runs ----------

  datatype Step =
    | StepOpenSession(tenant: int, session: int, state: SessionState)
    | StepSaveTurn(tenant: int, session: int, state: SessionState)
    | StepConfirm(tenant: int, session: int, state: SessionState, createdAt: int)
    | StepInvalidate(tenant: int, order: int)
    | StepLifecycle(order: int, target: OrderStatus, merchantFixture: bool)
    | StepRequest(tenant: int, session: int, decision: Decision)
    | StepQueue(tenant: int, id: int, session: int, summaryBuilt: bool)
    | StepSummaryFailure(tenant: int, id: int)
    | StepProvider(tenant: int, id: int, key: Option<int>, call: ProviderCall)
    | StepCancel(tenant: int, id: int, key: Option<int>)

  function Apply(db: Db, s: Step): Db {
    match s
    case StepOpenSession(t, k, state) => OpenSession(db, t, k, state).db
    case StepSaveTurn(t, k, state) => SaveTurn(db, t, k, state).db
    case StepConfirm(t, k, state, at) => ConfirmOrder(db, t, k, state, at).db
    case StepInvalidate(t, o) => InvalidateConfirmation(db, t, o).db
    case StepLifecycle(o, target, fixture) => EnterStatus(db, o, target, fixture).db
    case StepRequest(t, k, d) => CreateOrReuse(db, t, k, d).db
    case StepQueue(t, id, k, built) => QueueCase(db, t, id, k, built).db
    case StepSummaryFailure(t, id) => MarkSummaryFailure(db, t, id).db
    case StepProvider(t, id, key, call) => ProviderMove(db, t, id, key, call).db
    case StepCancel(t, id, key) => CancelCase(db, t, id, key).db
  }

  function Run(db: Db, steps: seq<Step>): Db {
    if steps == [] then db else Apply(Run(db, steps[..|steps| - 1]), steps[|steps| - 1])
  }

  const EmptyDb: Db := Db(map[], [], 1, map[], [], 1, map[], map[])
}
