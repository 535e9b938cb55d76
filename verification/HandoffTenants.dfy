/** No tenant's units of work touch another tenant's rows, over whole runs. */
module HandoffTenants {
  import opened Wrappers
  import opened Journal
  import opened HandoffModel
  import opened HandoffSteps
  import opened HandoffInvariants
  import opened HandoffCancellation
  import opened HandoffEffects

  /** The step is a unit of work of this tenant, on an order of this tenant where it names an order alone. */
  predicate WorksFor(db: Db, s: Step, tenant: int) {
    match s
    case StepLifecycle(oid, _, _) => oid in db.orders && db.orders[oid].tenant == tenant
    case StepOpenSession(t, _, _) => t == tenant
    case StepSaveTurn(t, _, _) => t == tenant
    case StepConfirm(t, _, _, _) => t == tenant
    case StepInvalidate(t, _) => t == tenant
    case StepRequest(t, _, _) => t == tenant
    case StepQueue(t, _, _, _) => t == tenant
    case StepSummaryFailure(t, _) => t == tenant
    case StepProvider(t, _, _, _) => t == tenant
    case StepCancel(t, _, _) => t == tenant
  }

  ghost predicate AllWorkFor(db: Db, steps: seq<Step>, tenant: int) {
    steps == [] || (AllWorkFor(db, steps[..|steps| - 1], tenant)
                    && WorksFor(Run(db, steps[..|steps| - 1]), steps[|steps| - 1], tenant))
  }

  /** Other tenants have the rows they had, and no others: sessions, cases, orders, and the confirmations of those orders. */
  ghost predicate OthersApart(a: Db, b: Db, tenant: int) {
    && (forall k :: k in a.sessions && a.sessions[k].tenant != tenant ==> k in b.sessions && b.sessions[k] == a.sessions[k])
    && (forall id :: id in a.cases && a.cases[id].tenant != tenant ==> id in b.cases && b.cases[id] == a.cases[id])
    && (forall oid :: oid in a.orders && a.orders[oid].tenant != tenant ==> oid in b.orders && b.orders[oid] == a.orders[oid])
    && (forall oid, v :: oid in a.orders && a.orders[oid].tenant != tenant ==>
          ((oid, v) in a.confirmations <==> (oid, v) in b.confirmations)
          && ((oid, v) in a.confirmations ==> b.confirmations[(oid, v)] == a.confirmations[(oid, v)]))
    && (forall k :: k in b.sessions && b.sessions[k].tenant != tenant ==> k in a.sessions && a.sessions[k] == b.sessions[k])
    && (forall id :: id in b.cases && b.cases[id].tenant != tenant ==> id in a.cases && a.cases[id] == b.cases[id])
    && (forall oid :: oid in b.orders && b.orders[oid].tenant != tenant ==> oid in a.orders && a.orders[oid] == b.orders[oid])
  }

  lemma ApartTrans(a: Db, b: Db, c: Db, tenant: int)
    requires OthersApart(a, b, tenant) && OthersApart(b, c, tenant)
    ensures OthersApart(a, c, tenant)
  {
  }

  lemma CancelApart(db: Db, tenant: int, id: int, key: Option<int>)
    requires Linked(db)
    ensures OthersApart(db, CancelCase(db, tenant, id, key).db, tenant)
  {
    var read := ReadForCancel(db, tenant, id, key);
    if read.Ok? {
      if Applied(CommitCancel(db, read.value).result) { AppliedApart(db, tenant, id, key); }
      else { UnappliedCommitChangesNothing(db, read.value); }
    }
  }

  lemma AppliedApart(db: Db, tenant: int, id: int, key: Option<int>)
    requires Linked(db) && Applied(CancelCase(db, tenant, id, key).result)
    ensures OthersApart(db, CancelCase(db, tenant, id, key).db, tenant)
  {
    CaseOrderFound(db, id);
    AppliedCommit(db, ReadForCancel(db, tenant, id, key).value);
    CancelConfirmations(db, tenant, id, key);
    CancelSaves(db, tenant, id, key);
    RowsApart(db, CancelCase(db, tenant, id, key).db, tenant, id);
  }

  /** One case, its session, its order and that order's confirmations are all one tenant's. */
  lemma RowsApart(a: Db, b: Db, tenant: int, id: int)
    requires Linked(a) && id in a.cases && a.cases[id].tenant == tenant && SameTenant(a, id) && id in b.cases
    requires b.cases == a.cases[id := b.cases[id]] && b.cases[id].tenant == tenant
    requires var sid := a.cases[id].session;
             sid in a.sessions && sid in b.sessions && b.sessions == a.sessions[sid := b.sessions[sid]] && b.sessions[sid].tenant == tenant
    requires b.orders.Keys == a.orders.Keys
    requires forall oid :: oid in a.orders && Some(oid) != a.cases[id].order ==> b.orders[oid] == a.orders[oid]
    requires a.cases[id].order.Some? ==> a.cases[id].order.value in b.orders && b.orders[a.cases[id].order.value].tenant == tenant
    requires b.confirmations.Keys == a.confirmations.Keys
    requires forall oid, v :: (oid, v) in a.confirmations && Some(oid) != a.cases[id].order ==> b.confirmations[(oid, v)] == a.confirmations[(oid, v)]
    ensures OthersApart(a, b, tenant)
  {
    forall oid, v | oid in a.orders && a.orders[oid].tenant != tenant
      ensures ((oid, v) in a.confirmations <==> (oid, v) in b.confirmations)
      ensures (oid, v) in a.confirmations ==> b.confirmations[(oid, v)] == a.confirmations[(oid, v)]
    {
      assert (oid, v) in a.confirmations.Keys <==> (oid, v) in b.confirmations.Keys;
    }
  }

  lemma CancelConfirmations(db: Db, tenant: int, id: int, key: Option<int>)
    requires Linked(db) && Applied(CancelCase(db, tenant, id, key).result)
    ensures id in db.cases
    ensures var after := CancelCase(db, tenant, id, key).db;
            && after.confirmations.Keys == db.confirmations.Keys
            && forall oid, v :: (oid, v) in db.confirmations && Some(oid) != db.cases[id].order ==>
                 after.confirmations[(oid, v)] == db.confirmations[(oid, v)]
  {
    CaseOrderFound(db, id);
  }

  lemma MoveApart(db: Db, id: int, r: ProviderResult, actor: Actor)
    requires Linked(db) && id in db.cases
    ensures OthersApart(db, MoveCase(db, id, r, actor).db, db.cases[id].tenant)
  {
    if MoveCase(db, id, r, actor).result.Ok? {
      CaseMoveWrites(db, id, r, actor);
      CaseOrderFound(db, id);
      if db.cases[id].order.Some? { assert db.orders[db.cases[id].order.value].tenant == db.cases[id].tenant; }
    }
  }

  lemma MoveStepApart(db: Db, s: Step, tenant: int)
    requires Linked(db) && WorksFor(db, s, tenant) && (s.StepProvider? || s.StepQueue? || s.StepSummaryFailure?)
    ensures OthersApart(db, Apply(db, s), tenant)
  {
    match s
    case StepProvider(t, c, key, call) =>
      if Scoped(db, c, t, key) { MoveApart(db, c, ProviderAnswer(call), SimulationProvider); }
    case StepQueue(t, c, k, built) =>
      if Scoped(db, c, t, None) { MoveApart(db, c, ProviderResult(Pending, None, None), SimulationProvider); }
    case StepSummaryFailure(t, c) =>
      if Scoped(db, c, t, None) { MoveApart(db, c, ProviderResult(Failed, Some(SystemError), None), System); }
  }

  lemma ConfirmApart(db: Db, tenant: int, session: int, state: SessionState, createdAt: int)
    requires Identified(db)
    ensures OthersApart(db, ConfirmOrder(db, tenant, session, state, createdAt).db, tenant)
  {
    if ConfirmOrder(db, tenant, session, state, createdAt).result.Ok? {
      var r := ConfirmOrder(db, tenant, session, state, createdAt);
      ConfirmedRows(db, tenant, session, state, createdAt);
      ConfirmedApart(db, r.db, r.result.value, session, tenant, state.draftVersion);
    }
  }

  lemma ConfirmedApart(a: Db, b: Db, oid: int, session: int, tenant: int, version: int)
    requires Identified(a) && ConfirmedAs(a, b, oid, session, tenant, version)
    ensures OthersApart(a, b, tenant)
  {
  }

  lemma WidenApart(db: Db, id: int, d: Decision)
    requires id in db.cases
    ensures OthersApart(db, UpdateRisk(db, id, d), db.cases[id].tenant)
  {
  }

  lemma InsertApart(db: Db, tenant: int, session: int, d: Decision)
    requires Identified(db)
    ensures OthersApart(db, InsertCase(db, tenant, session, d).db, tenant)
  {
  }

  lemma RequestApart(db: Db, tenant: int, session: int, d: Decision)
    requires Identified(db) && Linked(db)
    ensures OthersApart(db, CreateOrReuse(db, tenant, session, d).db, tenant)
  {
    if session in db.sessions && db.sessions[session].tenant == tenant {
      var active := FindActive(db.cases, session, db.nextCase);
      if active.Some? { WidenApart(db, active.value, d); } else { InsertApart(db, tenant, session, d); }
    }
  }

  lemma WithdrawApart(db: Db, tenant: int, oid: int)
    ensures OthersApart(db, InvalidateConfirmation(db, tenant, oid).db, tenant)
  {
    WithdrawsIff(db, tenant, oid);
  }

  lemma EnterApart(db: Db, oid: int, target: OrderStatus, merchantFixture: bool)
    requires oid in db.orders
    ensures OthersApart(db, EnterStatus(db, oid, target, merchantFixture).db, db.orders[oid].tenant)
  {
    StatusMovesIff(db, oid, target, merchantFixture);
  }

  lemma SessionApart(db: Db, tenant: int, session: int, state: SessionState)
    ensures OthersApart(db, SaveTurn(db, tenant, session, state).db, tenant)
    ensures OthersApart(db, OpenSession(db, tenant, session, state).db, tenant)
  {
    SavesIff(db, tenant, session, state);
    OpensIff(db, tenant, session, state);
  }

  lemma StepApart(db: Db, s: Step, tenant: int)
    requires Inv(db) && WorksFor(db, s, tenant)
    ensures OthersApart(db, Apply(db, s), tenant)
  {
    match s
    case StepCancel(t, id, key) => CancelApart(db, t, id, key);
    case StepConfirm(t, k, state, at) => ConfirmApart(db, t, k, state, at);
    case StepRequest(t, k, d) => RequestApart(db, t, k, d);
    case StepProvider(_, _, _, _) => MoveStepApart(db, s, tenant);
    case StepQueue(_, _, _, _) => MoveStepApart(db, s, tenant);
    case StepSummaryFailure(_, _) => MoveStepApart(db, s, tenant);
    case StepInvalidate(t, oid) => WithdrawApart(db, t, oid);
    case StepLifecycle(oid, target, fixture) => EnterApart(db, oid, target, fixture);
    case StepSaveTurn(t, k, state) => SessionApart(db, t, k, state);
    case StepOpenSession(t, k, state) => SessionApart(db, t, k, state);
  }

  /** However long one tenant works, every session, case, order and confirmation of every other tenant is as it was. */
  lemma {:induction false} TenantsApart(db: Db, steps: seq<Step>, tenant: int)
    requires Inv(db) && AllWorkFor(db, steps, tenant)
    ensures OthersApart(db, Run(db, steps), tenant)
  {
    if steps != [] {
      var init := steps[..|steps| - 1];
      TenantsApart(db, init, tenant);
      RunKeeps(db, init);
      StepApart(Run(db, init), steps[|steps| - 1], tenant);
      ApartTrans(db, Run(db, init), Run(db, steps), tenant);
    }
  }
}
