/**
 The safety hold over whole runs: a hold placed for any reason but an explicit
 human request survives every step until another case opens on the order, and
 while it stands the order enters no submission status and its session confirms
 nothing. Then, exactly which cancels release a hold.
 */
module HandoffHold {
  import opened Wrappers
  import opened Journal
  import opened HandoffModel
  import opened HandoffSteps
  import opened HandoffInvariants
  import opened HandoffCancellation

  ghost predicate MandatoryHold(db: Db, oid: int) {
    oid in db.orders && db.orders[oid].hold && db.orders[oid].holdReason.Some? && db.orders[oid].holdReason.value != ExplicitHumanRequest
  }

  /** The order is mandatorily held and is what the session would confirm next. */
  ghost predicate Frozen(db: Db, oid: int, session: int, tenant: int) {
    MandatoryHold(db, oid) && LatestOrder(db.orders, session, tenant, db.nextOrder) == Some(oid)
  }

  /** The step opens a case on this order. */
  predicate OpensOn(db: Db, s: Step, oid: int) {
    && s.StepRequest?
    && CreateOrReuse(db, s.tenant, s.session, s.decision).result.Ok?
    && CreateOrReuse(db, s.tenant, s.session, s.decision).result.value.created
    && LatestOrder(db.orders, s.session, s.tenant, db.nextOrder) == Some(oid)
  }

  predicate SomeStepOpensOn(db: Db, steps: seq<Step>, oid: int) {
    if steps == [] then false
    else SomeStepOpensOn(db, steps[..|steps| - 1], oid) || OpensOn(Run(db, steps[..|steps| - 1]), steps[|steps| - 1], oid)
  }

  /** No step that opens no case on a mandatorily held order releases it or moves it into a blocked status. */
  lemma StepRespectsHold(db: Db, s: Step, oid: int)
    requires Identified(db) && MandatoryHold(db, oid) && !OpensOn(db, s, oid)
    ensures MandatoryHold(Apply(db, s), oid)
    ensures BlockedByHold(Apply(db, s).orders[oid].status) ==> db.orders[oid].status == Apply(db, s).orders[oid].status
  {
    match s
    case StepConfirm(t, k, state, at) => ConfirmRespectsHold(db, t, k, state, at, oid);
    case StepCancel(t, id, key) =>
      var read := ReadForCancel(db, t, id, key);
      if read.Ok? {
        if Applied(CommitCancel(db, read.value).result) { CancelRespectsHold(db, read.value, oid); }
        else { UnappliedCommitChangesNothing(db, read.value); }
      }
    case StepRequest(t, k, d) =>
    case StepLifecycle(o, target, fixture) => EnterRespectsHold(db, o, target, fixture, oid);
    case StepInvalidate(t, o) => InvalidateRespectsHold(db, t, o, oid);
    case _ =>
  }

  lemma EnterRespectsHold(db: Db, o: int, target: OrderStatus, fixture: bool, oid: int)
    requires MandatoryHold(db, oid)
    ensures var after := EnterStatus(db, o, target, fixture).db;
            && MandatoryHold(after, oid)
            && (BlockedByHold(after.orders[oid].status) ==> db.orders[oid].status == after.orders[oid].status)
  {
  }

  lemma InvalidateRespectsHold(db: Db, t: int, o: int, oid: int)
    requires MandatoryHold(db, oid)
    ensures var after := InvalidateConfirmation(db, t, o).db;
            && MandatoryHold(after, oid)
            && (BlockedByHold(after.orders[oid].status) ==> db.orders[oid].status == after.orders[oid].status)
  {
  }

  lemma ConfirmRespectsHold(db: Db, t: int, k: int, state: SessionState, at: int, oid: int)
    requires Identified(db) && MandatoryHold(db, oid)
    ensures var after := ConfirmOrder(db, t, k, state, at).db;
            && MandatoryHold(after, oid)
            && (BlockedByHold(after.orders[oid].status) ==> db.orders[oid].status == after.orders[oid].status)
  {
    if ConfirmOrder(db, t, k, state, at).result.Ok? {
      PreparedRows(db, t, k, state.draftVersion, at);
      var p := PrepareDraft(db, t, k, state.draftVersion, at);
      FinishedRows(p.db, p.order, k, db.sessions[k], state);
    }
  }

  lemma CancelRespectsHold(db: Db, t: Ticket, oid: int)
    requires MandatoryHold(db, oid) && Applied(CommitCancel(db, t).result)
    ensures MandatoryHold(CommitCancel(db, t).db, oid)
    ensures var status := CommitCancel(db, t).db.orders[oid].status;
            BlockedByHold(status) ==> db.orders[oid].status == status
  {
  }

  /** A confirmed order is another session's, so the frozen session's latest order stays; its own confirmation is refused. */
  lemma ConfirmedLeavesLatest(a: Db, b: Db, added: int, k: int, t: int, version: int, oid: int, session: int, tenant: int)
    requires Identified(a) && Frozen(a, oid, session, tenant) && ConfirmedAs(a, b, added, k, t, version)
    ensures LatestOrder(b.orders, session, tenant, b.nextOrder) == Some(oid)
  {
    assert !(k == session && t == tenant);
    LatestFrame(a.orders, b.orders, session, tenant, a.nextOrder);
  }

  lemma ConfirmKeepsLatest(db: Db, t: int, k: int, state: SessionState, at: int, oid: int, session: int, tenant: int)
    requires Identified(db) && Frozen(db, oid, session, tenant) && ConfirmOrder(db, t, k, state, at).result.Ok?
    ensures var after := ConfirmOrder(db, t, k, state, at).db;
            LatestOrder(after.orders, session, tenant, after.nextOrder) == Some(oid)
  {
    var r := ConfirmOrder(db, t, k, state, at);
    ConfirmedRows(db, t, k, state, at);
    ConfirmedLeavesLatest(db, r.db, r.result.value, k, t, state.draftVersion, oid, session, tenant);
  }

  /** The step neither adds an order to a frozen session nor changes what its latest order is. */
  lemma StepKeepsFrozen(db: Db, s: Step, oid: int, session: int, tenant: int)
    requires Inv(db) && Frozen(db, oid, session, tenant) && !OpensOn(db, s, oid)
    ensures Frozen(Apply(db, s), oid, session, tenant)
  {
    StepRespectsHold(db, s, oid);
    if s.StepConfirm? && ConfirmOrder(db, s.tenant, s.session, s.state, s.createdAt).result.Ok? {
      ConfirmKeepsLatest(db, s.tenant, s.session, s.state, s.createdAt, oid, session, tenant);
    } else {
      OwnersKept(db, s);
      LatestFrame(db.orders, Apply(db, s).orders, session, tenant, db.nextOrder);
    }
  }

  /** Every step but a successful confirmation keeps the order table's owners. */
  lemma OwnersKept(db: Db, s: Step)
    requires s.StepConfirm? ==> !ConfirmOrder(db, s.tenant, s.session, s.state, s.createdAt).result.Ok?
    ensures Apply(db, s).nextOrder == db.nextOrder && Apply(db, s).orders.Keys == db.orders.Keys
    ensures forall oid :: oid in db.orders ==> SameOwner(db.orders[oid], Apply(db, s).orders[oid])
  {
    match s
    case StepCancel(t, id, key) =>
      var read := ReadForCancel(db, t, id, key);
      if read.Ok? { CommitKeepsOwners(db, read.value); }
    case StepProvider(t, id, key, call) =>
      if Scoped(db, id, t, key) { MoveKeepsOwners(db, id, ProviderAnswer(call), SimulationProvider); }
    case StepRequest(t, k, d) =>
    case _ =>
  }

  lemma MoveKeepsOwners(db: Db, id: int, r: ProviderResult, actor: Actor)
    requires id in db.cases
    ensures var after := MoveCase(db, id, r, actor).db;
            && after.nextOrder == db.nextOrder && after.orders.Keys == db.orders.Keys
            && forall oid :: oid in db.orders ==> SameOwner(db.orders[oid], after.orders[oid])
  {
  }

  lemma CommitKeepsOwners(db: Db, t: Ticket)
    ensures var after := CommitCancel(db, t).db;
            && after.nextOrder == db.nextOrder && after.orders.Keys == db.orders.Keys
            && forall oid :: oid in db.orders ==> SameOwner(db.orders[oid], after.orders[oid])
  {
  }

  lemma {:induction false} RunKeepsFrozen(db: Db, steps: seq<Step>, oid: int, session: int, tenant: int)
    requires Inv(db) && Frozen(db, oid, session, tenant) && !SomeStepOpensOn(db, steps, oid)
    ensures Frozen(Run(db, steps), oid, session, tenant)
    ensures var status := Run(db, steps).orders[oid].status;
            BlockedByHold(status) ==> db.orders[oid].status == status
  {
    if steps != [] {
      var init := steps[..|steps| - 1];
      RunKeepsFrozen(db, init, oid, session, tenant);
      RunKeeps(db, init);
      StepKeepsFrozen(Run(db, init), steps[|steps| - 1], oid, session, tenant);
      StepRespectsHold(Run(db, init), steps[|steps| - 1], oid);
    }
  }

  lemma OpeningFreezes(db: Db, tenant: int, session: int, d: Decision, oid: int)
    requires Inv(db) && d.reason != ExplicitHumanRequest && OpensOn(db, StepRequest(tenant, session, d), oid)
    ensures var start := Apply(db, StepRequest(tenant, session, d));
            Inv(start) && Frozen(start, oid, session, tenant) && oid in db.orders && start.orders[oid].status == db.orders[oid].status
  {
    StepKeeps(db, StepRequest(tenant, session, d));
    LatestFrame(db.orders, Apply(db, StepRequest(tenant, session, d)).orders, session, tenant, db.nextOrder);
  }

  lemma FrozenRefuses(db: Db, oid: int, session: int, tenant: int, state: SessionState, at: int)
    requires Frozen(db, oid, session, tenant)
    ensures ConfirmOrder(db, tenant, session, state, at).result.Err?
  {
  }

  /**
   A case opens on an order for a reason other than an explicit human request.
   Whatever runs next, until another case opens on that order it stays held, it
   is in a submission status only if it was there when the case opened, and its
   session cannot confirm anything.
   */
  lemma MandatoryHoldSurvives(db: Db, tenant: int, session: int, d: Decision, steps: seq<Step>, oid: int)
    requires Inv(db) && d.reason != ExplicitHumanRequest
    requires OpensOn(db, StepRequest(tenant, session, d), oid)
    requires !SomeStepOpensOn(Apply(db, StepRequest(tenant, session, d)), steps, oid)
    ensures var end := Run(Apply(db, StepRequest(tenant, session, d)), steps);
            && MandatoryHold(end, oid)
            && (BlockedByHold(end.orders[oid].status) ==> end.orders[oid].status == db.orders[oid].status)
            && (forall state, at :: ConfirmOrder(end, tenant, session, state, at).result.Err?)
  {
    var start := Apply(db, StepRequest(tenant, session, d));
    OpeningFreezes(db, tenant, session, d, oid);
    RunKeepsFrozen(start, steps, oid, session, tenant);
    forall state, at ensures ConfirmOrder(Run(start, steps), tenant, session, state, at).result.Err? {
      FrozenRefuses(Run(start, steps), oid, session, tenant, state, at);
    }
  }

  /** An active case that froze an order keeps its session from confirming, whatever its reason. */
  lemma ActiveCaseBlocksConfirmation(db: Db, id: int, state: SessionState, createdAt: int)
    requires Inv(db) && id in db.cases && IsActive(db.cases[id].status) && db.cases[id].order.Some?
    ensures ConfirmOrder(db, db.cases[id].tenant, db.cases[id].session, state, createdAt).result.Err?
  {
    assert HeldFor(db, db.cases[id].order.value, OpeningReason(Entries(db.caseEvents, id)));
  }

  /**
   A cancel releases the order exactly when the case was opened for an explicit
   human request and that is also its latest reason; what was reported in
   between does not matter.
   */
  lemma CancelReleasesExactly(db: Db, tenant: int, id: int, key: Option<int>)
    requires Inv(db) && Applied(CancelCase(db, tenant, id, key).result) && db.cases[id].order.Some?
    ensures var r := CancelCase(db, tenant, id, key);
            var oid := db.cases[id].order.value;
            var released := OpeningReason(Entries(db.caseEvents, id)) == Some(ExplicitHumanRequest) && db.cases[id].reason == ExplicitHumanRequest;
            && oid in db.orders && oid in r.db.orders && db.orders[oid].hold
            && (!r.db.orders[oid].hold <==> released)
            && (r.result.value.safetyHoldCleared <==> released) && (r.result.value.mayContinueDraft <==> released)
            && (r.result.value.safetyHoldActive <==> !released)
            && (!released ==>
                  (r.db.orders[oid].holdReason == if db.cases[id].reason == ExplicitHumanRequest
                                                  then OpeningReason(Entries(db.caseEvents, id)) else Some(db.cases[id].reason)))
  {
    CaseOrderFound(db, id);
    assert HeldFor(db, db.cases[id].order.value, OpeningReason(Entries(db.caseEvents, id)));
  }

  /**
   After a cancel of a case with an order, confirming the session's own state
   succeeds exactly when the report lets the draft continue; it then reuses the
   order if that is back in DRAFT and opens a new one otherwise.
   */
  lemma ReconfirmAfterCancel(db: Db, tenant: int, id: int, key: Option<int>, createdAt: int)
    requires Inv(db) && Applied(CancelCase(db, tenant, id, key).result) && db.cases[id].order.Some?
    ensures var r := CancelCase(db, tenant, id, key);
            var sid := db.cases[id].session;
            var oid := db.cases[id].order.value;
            && sid in r.db.sessions && oid in r.db.orders
            && ConfirmOrder(r.db, tenant, sid, r.db.sessions[sid].state, createdAt).result ==
               if !r.result.value.mayContinueDraft then Err(SafetyHoldActive)
               else if r.db.orders[oid].status == Draft then Ok(oid) else Ok(r.db.nextOrder)
  {
    var r := CancelCase(db, tenant, id, key);
    var sid := db.cases[id].session;
    var oid := db.cases[id].order.value;
    CancelCaseKeeps(db, tenant, id, key);
    AfterCancel(db, tenant, id, key);
    CancelReleasesExactly(db, tenant, id, key);
    var state := r.db.sessions[sid].state;
    if r.result.value.mayContinueDraft {
      FreshDraftConfirms(r.db, tenant, sid, state, createdAt, oid);
    } else {
      HeldDraftIsRefused(r.db, tenant, sid, state, createdAt, oid);
    }
  }

  /** What a later confirmation of the cancelled case's session will read. */
  lemma AfterCancel(db: Db, tenant: int, id: int, key: Option<int>)
    requires Inv(db) && Applied(CancelCase(db, tenant, id, key).result) && db.cases[id].order.Some?
    ensures var r := CancelCase(db, tenant, id, key);
            var sid := db.cases[id].session;
            var oid := db.cases[id].order.value;
            && sid in r.db.sessions && r.db.sessions[sid].tenant == tenant && oid in r.db.orders
            && r.db.sessions[sid].state.persistenceVersion == r.db.sessions[sid].version
            && r.db.orders[oid].draftVersion == r.db.sessions[sid].state.draftVersion
            && (oid, r.db.orders[oid].draftVersion) !in r.db.confirmations
            && LatestOrder(r.db.orders, sid, tenant, r.db.nextOrder) == Some(oid)
  {
    var r := CancelCase(db, tenant, id, key);
    var oid := db.cases[id].order.value;
    VersionsAfterCancel(db, tenant, id, key);
    OwnersKept(db, StepCancel(tenant, id, key));
    LatestFrame(db.orders, r.db.orders, db.cases[id].session, tenant, db.nextOrder);
    assert HeldFor(db, oid, OpeningReason(Entries(db.caseEvents, id)));
  }

  lemma HeldDraftIsRefused(db: Db, tenant: int, session: int, state: SessionState, createdAt: int, oid: int)
    requires session in db.sessions && db.sessions[session].tenant == tenant
    requires state == db.sessions[session].state && state.persistenceVersion == db.sessions[session].version
    requires LatestOrder(db.orders, session, tenant, db.nextOrder) == Some(oid) && db.orders[oid].hold
    ensures ConfirmOrder(db, tenant, session, state, createdAt).result == Err(SafetyHoldActive)
  {
  }

  lemma FreshDraftConfirms(db: Db, tenant: int, session: int, state: SessionState, createdAt: int, oid: int)
    requires Inv(db) && session in db.sessions && db.sessions[session].tenant == tenant
    requires state == db.sessions[session].state && state.persistenceVersion == db.sessions[session].version
    requires LatestOrder(db.orders, session, tenant, db.nextOrder) == Some(oid) && !db.orders[oid].hold
    requires db.orders[oid].draftVersion == state.draftVersion && (oid, state.draftVersion) !in db.confirmations
    ensures ConfirmOrder(db, tenant, session, state, createdAt).result ==
              if db.orders[oid].status == Draft then Ok(oid) else Ok(db.nextOrder)
  {
    var p := PrepareDraft(db, tenant, session, state.draftVersion, createdAt);
    PreparedRows(db, tenant, session, state.draftVersion, createdAt);
    assert (p.order, state.draftVersion) !in p.db.confirmations;
    assert FinishConfirm(p.db, p.order, session, db.sessions[session], state).Ok?;
  }

  /**
   A mandatory risk reported between two explicit requests raises the priority
   and stays among the case's risks, and yet the cancel releases the order.
   */
  lemma MandatoryReportDoesNotHold(db: Db, id: int, mandatory: Decision, again: Decision)
    requires Inv(db) && id in db.cases && IsActive(db.cases[id].status) && db.cases[id].order.Some?
    requires OpeningReason(Entries(db.caseEvents, id)) == Some(ExplicitHumanRequest) && db.cases[id].reason == ExplicitHumanRequest
    requires mandatory.reason != ExplicitHumanRequest && again.reason == ExplicitHumanRequest
    ensures var c := db.cases[id];
            var reported := Apply(db, StepRequest(c.tenant, c.session, mandatory));
            var end := Apply(reported, StepRequest(c.tenant, c.session, again));
            && id in end.cases && mandatory.riskIds <= end.cases[id].riskIds
            && Rank(PriorityOf(mandatory.reason)) <= Rank(end.cases[id].priority)
            && Applied(CancelCase(reported, c.tenant, id, None).result)
            && CancelCase(reported, c.tenant, id, None).result.value.safetyHoldActive
            && Applied(CancelCase(end, c.tenant, id, None).result)
            && !CancelCase(end, c.tenant, id, None).result.value.safetyHoldActive
  {
    var c := db.cases[id];
    var reported := UpdateRisk(db, id, mandatory);
    ReuseUpdatesRisk(db, id, mandatory);
    RiskJournaled(db, id, mandatory);
    var end := UpdateRisk(reported, id, again);
    ReuseUpdatesRisk(reported, id, again);
    RiskJournaled(reported, id, again);
    ReportedHold(reported, id);
    ReportedHold(end, id);
  }

  /** A request for a session with an active case is a risk update of that case. */
  lemma ReuseUpdatesRisk(db: Db, id: int, d: Decision)
    requires Inv(db) && id in db.cases && IsActive(db.cases[id].status)
    ensures Apply(db, StepRequest(db.cases[id].tenant, db.cases[id].session, d)) == UpdateRisk(db, id, d)
  {
    var active := FindActive(db.cases, db.cases[id].session, db.nextCase);
    assert 0 <= id < db.nextCase;
    assert active.Some? && active.value == id;
  }

  lemma RiskJournaled(db: Db, id: int, d: Decision)
    requires Inv(db) && id in db.cases && IsActive(db.cases[id].status) && db.cases[id].reason != d.reason
    ensures Inv(UpdateRisk(db, id, d))
    ensures OpeningReason(Entries(UpdateRisk(db, id, d).caseEvents, id)) == OpeningReason(Entries(db.caseEvents, id))
  {
    UpdateRiskKeeps(db, id, d);
    var e := RiskUpdated(db.cases[id].reason, d.reason);
    assert Describes(db, id, Entries(db.caseEvents, id));
    AppendExtends(db.caseEvents, id, e);
    ReplaySnoc(Entries(db.caseEvents, id), e);
  }

  lemma ReportedHold(db: Db, id: int)
    requires Inv(db) && id in db.cases && IsActive(db.cases[id].status) && db.cases[id].order.Some?
    requires OpeningReason(Entries(db.caseEvents, id)) == Some(ExplicitHumanRequest)
    ensures var r := CancelCase(db, db.cases[id].tenant, id, None).result;
            Applied(r) && (r.value.safetyHoldActive <==> db.cases[id].reason != ExplicitHumanRequest)
  {
    CancelTrichotomy(db, db.cases[id].tenant, id, None);
    CancelReleasesExactly(db, db.cases[id].tenant, id, None);
  }

  /**
   An undisturbed request ends with one active case queued, or failed if its
   summary could not be built; either way the session's latest order is on hold
   for the request's reason and its current confirmation is withdrawn.
   */
  lemma RequestEndsQueuedOrFailed(db: Db, tenant: int, session: int, d: Decision, summaryBuilt: bool)
    requires Inv(db) && session in db.sessions && db.sessions[session].tenant == tenant
    requires FindActive(db.cases, session, db.nextCase).None?
    ensures var r := RequestHandoff(db, tenant, session, d, summaryBuilt);
            && r.result == Ok(db.nextCase) && db.nextCase in r.db.cases
            && r.db.cases[db.nextCase].status == (if summaryBuilt then Pending else Failed)
            && (!summaryBuilt ==> r.db.cases[db.nextCase].failure == Some(SystemError))
            && var oid := LatestOrder(db.orders, session, tenant, db.nextOrder);
            && r.db.cases[db.nextCase].order == oid
            && (oid.Some? ==>
                  && oid.value in r.db.orders && r.db.orders[oid.value] == db.orders[oid.value].(hold := true, holdReason := Some(d.reason))
                  && ((oid.value, db.orders[oid.value].draftVersion) in r.db.confirmations ==>
                        r.db.confirmations[(oid.value, db.orders[oid.value].draftVersion)].invalidated))
  {
    var start := CreateOrReuse(db, tenant, session, d);
    assert start.result == Ok(Opened(db.nextCase, true));
    InsertedRows(db, tenant, session, d);
    assert Scoped(start.db, db.nextCase, tenant, None);
  }
}
