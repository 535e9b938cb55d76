/**
 What each unit of work writes, column by column, and exactly when it succeeds:
 order status moves, case moves, reports, cancels, confirmations and session
 saves. Then what a case gathers over a whole run of reports, and that this is
 what a cancel leaves in the session.
 */
module HandoffEffects {
  import opened Wrappers
  import opened Journal
  import opened HandoffModel
  import opened HandoffSteps
  import opened HandoffInvariants
  import opened HandoffCancellation

  // ---------- the status of an order ----------

  /** The status moves of an order, pair by pair. */
  predicate OrderMayEnter(from: OrderStatus, to: OrderStatus) {
    match from
    case Draft => to.CustomerConfirmed? || to.OrderCancelled?
    case CustomerConfirmed => to.SubmissionStarted? || to.OrderCancelled?
    case SubmissionStarted => to.MerchantPending? || to.SubmissionFailed? || to.OrderCancelled?
    case MerchantPending => to.MerchantAccepted? || to.MerchantRejected? || to.OrderCancelled?
    case MerchantAccepted => to.Completed? || to.OrderCancelled?
    case MerchantRejected => to.OrderCancelled?
    case SubmissionFailed => to.OrderCancelled?
    case OrderCancelled => false
    case Completed => false
  }

  /**
   An order enters a status if and only if the pair is allowed, the order is not on hold
   for a submission status, and a status only the merchant sets comes from the fixture for
   a synthetic order; then the status changes, one event is written, and nothing else.
   */
  lemma StatusMovesIff(db: Db, oid: int, target: OrderStatus, merchantFixture: bool)
    requires oid in db.orders
    ensures var o := db.orders[oid];
            var r := EnterStatus(db, oid, target, merchantFixture);
            var held := o.hold && (target.SubmissionStarted? || target.MerchantPending? || target.MerchantAccepted?);
            var byMerchant := target.MerchantPending? || target.MerchantAccepted? || target.MerchantRejected?;
            && (r.result == Ok(()) <==> !held && (byMerchant ==> merchantFixture && o.synthetic) && OrderMayEnter(o.status, target))
            && (r.result == Err(SafetyHoldActive) <==> held)
            && (r.result.Err? && !held ==> r.result == Err(InvalidOrderTransition(o.status, target)))
            && (r.result.Err? ==> r.db == db)
            && (r.result.Ok? ==> r.db == db.(orders := db.orders[oid := o.(status := target)],
                                             orderEvents := Append(db.orderEvents, oid, Entered(o.status, target))))
  {
  }

  // ---------- the status of a case ----------

  /** The status moves of a case, pair by pair. */
  predicate CaseMayEnter(from: HandoffStatus, to: HandoffStatus) {
    match from
    case NotRequired => to.Requested?
    case Requested => to.Pending? || to.Failed? || to.Cancelled?
    case Pending => to.AgentAssigned? || to.Failed? || to.Cancelled?
    case AgentAssigned => to.AgentConnected? || to.Failed? || to.Cancelled?
    case AgentConnected => to.Resolved? || to.Failed? || to.Cancelled?
    case Resolved => false
    case Failed => false
    case Cancelled => false
  }

  /** The status, the failure or resolution that comes with it, and nothing else of the row. */
  ghost predicate CaseMoved(a: Case, b: Case, r: ProviderResult) {
    && b.tenant == a.tenant && b.session == a.session && b.order == a.order && b.status == r.status
    && b.reason == a.reason && b.priority == a.priority && b.riskIds == a.riskIds && b.blockedActions == a.blockedActions
    && b.failure == (if r.status.Failed? then r.failure else if r.status.Cancelled? then Some(CaseCancelled) else a.failure)
    && b.resolution == (if r.status.Resolved? then r.resolution else a.resolution)
  }

  /** A resolution that changed the draft sends the order back to draft, one version on, and on hold for the old reason. */
  ghost predicate OrderSentBack(a: Order, b: Order) {
    && b.status.Draft? && b.draftVersion == a.draftVersion + 1 && b.hold && b.holdReason == a.holdReason
    && SameOwner(a, b) && b.synthetic == a.synthetic
  }

  ghost predicate SendsBack(db: Db, id: int, r: ProviderResult)
    requires id in db.cases
  {
    r.status.Resolved? && r.resolution.Some? && r.resolution.value.draftChanged && OrderOf(db, db.cases[id]).Some?
  }

  /** A case moves if and only if the pair is allowed and a resolution or failure comes with what it needs. */
  lemma CaseMovesIff(db: Db, id: int, r: ProviderResult, actor: Actor)
    requires id in db.cases
    ensures var status := db.cases[id].status;
            && (MoveCase(db, id, r, actor).result.Ok?
                <==> CaseMayEnter(status, r.status) && (r.status.Resolved? ==> r.resolution.Some?) && (r.status.Failed? ==> r.failure.Some?))
            && (!CaseMayEnter(status, r.status) ==> MoveCase(db, id, r, actor).result == Err(InvalidHandoffTransition(status, r.status)))
            && (MoveCase(db, id, r, actor).result.Err? ==> MoveCase(db, id, r, actor).db == db)
  {
  }

  lemma CaseMoveWrites(db: Db, id: int, r: ProviderResult, actor: Actor)
    requires id in db.cases && MoveCase(db, id, r, actor).result.Ok?
    ensures var after := MoveCase(db, id, r, actor).db;
            var c := db.cases[id];
            && id in after.cases && CaseMoved(c, after.cases[id], r) && after.cases == db.cases[id := after.cases[id]]
            && after.caseEvents == Append(db.caseEvents, id, Moved(c.status, r.status, actor))
            && after.sessions == db.sessions && after.confirmations == db.confirmations
            && (if SendsBack(db, id, r) then
                  && c.order.Some? && c.order.value in db.orders && c.order.value in after.orders
                  && OrderSentBack(db.orders[c.order.value], after.orders[c.order.value])
                  && after.orders == db.orders[c.order.value := after.orders[c.order.value]]
                  && after.orderEvents == Append(db.orderEvents, c.order.value,
                                                 HandoffDraftChanged(db.orders[c.order.value].status, db.orders[c.order.value].draftVersion + 1))
                else after.orders == db.orders && after.orderEvents == db.orderEvents)
  {
  }

  /** What a provider call moves a case to. */
  ghost predicate Asks(call: ProviderCall, r: ProviderResult) {
    match call
    case Assign => r.status.AgentAssigned? && r.failure.None? && r.resolution.None?
    case Connect => r.status.AgentConnected? && r.failure.None? && r.resolution.None?
    case Fail(code) => r.status.Failed? && r.failure == Some(code) && r.resolution.None?
    case Resolve(resolution, _) => r.status.Resolved? && r.failure.None? && r.resolution == resolution
  }

  /** The case is in the tenant and, if a session is named, in that session of the tenant. */
  ghost predicate Visible(db: Db, id: int, tenant: int, key: Option<int>) {
    && id in db.cases && db.cases[id].tenant == tenant
    && (key.Some? ==> key.value in db.sessions && db.sessions[key.value].tenant == tenant && db.cases[id].session == key.value)
  }

  /** A provider call moves a visible case to what it asks for; an unsafe resolution is refused before the case is looked at. */
  lemma ProviderMoves(db: Db, tenant: int, id: int, key: Option<int>, call: ProviderCall, r: ProviderResult)
    requires Asks(call, r)
    ensures ProviderMove(db, tenant, id, key, call)
         == if call.Resolve? && !call.safe then Outcome(db, Err(UnsafePayload))
            else if !Visible(db, id, tenant, key) then Outcome(db, Err(HandoffNotFound))
            else MoveCase(db, id, r, SimulationProvider)
  {
  }

  /** Queueing needs the case, the session and the summary; failing it afterwards touches only a case still requested or pending. */
  lemma QueueingMoves(db: Db, tenant: int, id: int, session: int, summaryBuilt: bool)
    ensures QueueCase(db, tenant, id, session, summaryBuilt)
         == if !Visible(db, id, tenant, None) then Outcome(db, Err(HandoffNotFound))
            else if session !in db.sessions || db.sessions[session].tenant != tenant then Outcome(db, Err(SessionNotFound))
            else if !summaryBuilt then Outcome(db, Err(SummaryFailed))
            else MoveCase(db, id, ProviderResult(Pending, None, None), SimulationProvider)
    ensures MarkSummaryFailure(db, tenant, id)
         == if !Visible(db, id, tenant, None) then Outcome(db, Err(HandoffNotFound))
            else if db.cases[id].status.Requested? || db.cases[id].status.Pending?
                 then MoveCase(db, id, ProviderResult(Failed, Some(SystemError), None), System)
            else Outcome(db, Ok(()))
  {
  }

  // ---------- reports ----------

  predicate Urgent(reason: Reason) {
    match reason
    case SevereAllergy | CrossContamination | AbuseOrSecurity => true
    case _ => false
  }

  predicate Pressing(reason: Reason) {
    match reason
    case Complaint | RefundRequest | PaymentDispute | RegulatedItem | SystemFailure => true
    case _ => false
  }

  /** Critical when something urgent was reported, high when something pressing was, else normal. */
  ghost predicate PriorityFits(p: Priority, reports: seq<Decision>) {
    && (p.Critical? <==> exists k :: 0 <= k < |reports| && Urgent(reports[k].reason))
    && (!p.Critical? ==> (p.High? <==> exists k :: 0 <= k < |reports| && Pressing(reports[k].reason)))
    && !p.Low?
  }

  /** The step opens the case, or reports a new reason on it while it is active. */
  ghost predicate Reports(db: Db, s: Step, id: int) {
    && s.StepRequest? && s.session in db.sessions && db.sessions[s.session].tenant == s.tenant
    && if id in db.cases then
         db.cases[id].session == s.session && IsActive(db.cases[id].status) && db.cases[id].reason != s.decision.reason
       else
         id == db.nextCase && forall k :: k in db.cases && db.cases[k].session == s.session ==> !IsActive(db.cases[k].status)
  }

  /** Everything reported on the case so far, in order. */
  ghost function Reported(steps: seq<Step>, id: int): seq<Decision> {
    if steps == [] then []
    else
      var init := steps[..|steps| - 1];
      Reported(init, id) + if Reports(Run(EmptyDb, init), steps[|steps| - 1], id) then [steps[|steps| - 1].decision] else []
  }

  /** The case holds every risk and every blocked action reported on it, its latest reason and its highest priority. */
  ghost predicate Gathers(c: Case, reports: seq<Decision>) {
    && reports != [] && c.reason == reports[|reports| - 1].reason && PriorityFits(c.priority, reports)
    && (forall x :: x in c.riskIds <==> exists k :: 0 <= k < |reports| && x in reports[k].riskIds)
    && (forall x :: x in c.blockedActions <==> exists k :: 0 <= k < |reports| && x in reports[k].blockedActions)
  }

  predicate SameReport(a: Case, b: Case) {
    a.reason == b.reason && a.priority == b.priority && a.riskIds == b.riskIds && a.blockedActions == b.blockedActions
  }

  lemma FirstReport(c: Case, d: Decision)
    requires c.reason == d.reason && c.priority == PriorityOf(d.reason) && c.riskIds == d.riskIds && c.blockedActions == d.blockedActions
    ensures Gathers(c, [d])
  {
    var reports := [d];
    assert reports[0] == d;
  }

  lemma NextReport(a: Case, b: Case, reports: seq<Decision>, d: Decision)
    requires Gathers(a, reports) && b.reason == d.reason && b.priority == MaxPriority(a.priority, PriorityOf(d.reason))
    requires b.riskIds == a.riskIds + d.riskIds && b.blockedActions == a.blockedActions + d.blockedActions
    ensures Gathers(b, reports + [d])
  {
    var all := reports + [d];
    var n := |reports|;
    assert all[n] == d && forall k :: 0 <= k < n ==> all[k] == reports[k];
    forall x ensures (exists k :: 0 <= k < |all| && x in all[k].riskIds) <==> (exists k :: 0 <= k < n && x in reports[k].riskIds) || x in d.riskIds {
      if x in d.riskIds { assert x in all[n].riskIds; }
      if k :| 0 <= k < n && x in reports[k].riskIds { assert x in all[k].riskIds; }
    }
    forall x ensures (exists k :: 0 <= k < |all| && x in all[k].blockedActions)
                <==> (exists k :: 0 <= k < n && x in reports[k].blockedActions) || x in d.blockedActions {
      if x in d.blockedActions { assert x in all[n].blockedActions; }
      if k :| 0 <= k < n && x in reports[k].blockedActions { assert x in all[k].blockedActions; }
    }
    PriorityGrows(a.priority, reports, d);
  }

  lemma PriorityGrows(p: Priority, reports: seq<Decision>, d: Decision)
    requires PriorityFits(p, reports)
    ensures PriorityFits(MaxPriority(p, PriorityOf(d.reason)), reports + [d])
  {
    var all := reports + [d];
    var n := |reports|;
    assert all[n] == d && forall k :: 0 <= k < n ==> all[k] == reports[k];
    if k :| 0 <= k < n && Urgent(reports[k].reason) { assert Urgent(all[k].reason); }
    if k :| 0 <= k < n && Pressing(reports[k].reason) { assert Pressing(all[k].reason); }
    if Urgent(d.reason) { assert Urgent(all[n].reason); }
    if Pressing(d.reason) { assert Pressing(all[n].reason); }
  }

  /** A step that is no report leaves what the case has gathered. */
  lemma OthersKeepReports(db: Db, s: Step, id: int)
    requires Inv(db) && !s.StepRequest? && id in Apply(db, s).cases
    ensures id in db.cases && SameReport(db.cases[id], Apply(db, s).cases[id])
  {
    match s
    case StepConfirm(t, k, state, at) =>
      if ConfirmOrder(db, t, k, state, at).result.Ok? { ConfirmedRows(db, t, k, state, at); }
    case StepCancel(t, c, key) => CancelKeepsReports(db, t, c, key, id);
    case StepProvider(t, c, key, call) => MoveStepsKeepReports(db, s, id);
    case StepQueue(t, c, k, built) => MoveStepsKeepReports(db, s, id);
    case StepSummaryFailure(t, c) => MoveStepsKeepReports(db, s, id);
    case _ =>
  }

  lemma MoveStepsKeepReports(db: Db, s: Step, id: int)
    requires (s.StepProvider? || s.StepQueue? || s.StepSummaryFailure?) && id in Apply(db, s).cases
    ensures id in db.cases && SameReport(db.cases[id], Apply(db, s).cases[id])
  {
    match s
    case StepProvider(t, c, key, call) =>
      if Scoped(db, c, t, key) { MoveKeepsReports(db, c, ProviderAnswer(call), SimulationProvider, id); }
    case StepQueue(t, c, k, built) =>
      if Scoped(db, c, t, None) { MoveKeepsReports(db, c, ProviderResult(Pending, None, None), SimulationProvider, id); }
    case StepSummaryFailure(t, c) =>
      if Scoped(db, c, t, None) { MoveKeepsReports(db, c, ProviderResult(Failed, Some(SystemError), None), System, id); }
  }

  lemma CancelKeepsReports(db: Db, tenant: int, c: int, key: Option<int>, id: int)
    requires id in CancelCase(db, tenant, c, key).db.cases
    ensures id in db.cases && SameReport(db.cases[id], CancelCase(db, tenant, c, key).db.cases[id])
  {
    var read := ReadForCancel(db, tenant, c, key);
    if read.Ok? {
      if Applied(CommitCancel(db, read.value).result) { AppliedCommit(db, read.value); }
      else { UnappliedCommitChangesNothing(db, read.value); }
    }
  }

  lemma MoveKeepsReports(db: Db, c: int, r: ProviderResult, actor: Actor, id: int)
    requires c in db.cases && id in MoveCase(db, c, r, actor).db.cases
    ensures id in db.cases && SameReport(db.cases[id], MoveCase(db, c, r, actor).db.cases[id])
  {
    if MoveCase(db, c, r, actor).result.Ok? { CaseMoveWrites(db, c, r, actor); }
  }

  /** What a request does to the active case of its session. */
  lemma ReportWidens(db: Db, s: Step, id: int)
    requires Inv(db) && Reports(db, s, id) && id in db.cases
    ensures var after := Apply(db, s);
            && id in after.cases && after.cases == db.cases[id := after.cases[id]]
            && after.cases[id] == db.cases[id].(reason := s.decision.reason,
                                                priority := MaxPriority(db.cases[id].priority, PriorityOf(s.decision.reason)),
                                                riskIds := db.cases[id].riskIds + s.decision.riskIds,
                                                blockedActions := db.cases[id].blockedActions + s.decision.blockedActions)
  {
    var active := FindActive(db.cases, s.session, db.nextCase);
    assert 0 <= id < db.nextCase;
    assert active.Some? && active.value == id;
  }

  lemma NoneActive(cases: map<int, Case>, session: int, bound: int)
    requires forall k :: k in cases && cases[k].session == session ==> !IsActive(cases[k].status)
    ensures FindActive(cases, session, bound).None?
  {
  }

  lemma ReportOpens(db: Db, s: Step, id: int)
    requires Inv(db) && Reports(db, s, id) && id !in db.cases
    ensures var after := Apply(db, s);
            && id in after.cases && after.cases == db.cases[id := after.cases[id]]
            && after.cases[id] == Case(s.tenant, s.session, LatestOrder(db.orders, s.session, s.tenant, db.nextOrder), Requested,
                                       s.decision.reason, PriorityOf(s.decision.reason), s.decision.riskIds, s.decision.blockedActions,
                                       None, None)
  {
    NoneActive(db.cases, s.session, db.nextCase);
  }

  /** A request that reports nothing new on the case leaves what it has gathered. */
  lemma RequestKeepsReports(db: Db, s: Step, id: int)
    requires Inv(db) && s.StepRequest? && !Reports(db, s, id) && id in Apply(db, s).cases
    ensures id in db.cases && SameReport(db.cases[id], Apply(db, s).cases[id])
  {
    if s.session in db.sessions && db.sessions[s.session].tenant == s.tenant {
      var active := FindActive(db.cases, s.session, db.nextCase);
      if active.Some? {
        assert Apply(db, s) == UpdateRisk(db, active.value, s.decision);
      } else {
        InsertedRows(db, s.tenant, s.session, s.decision);
        forall k | k in db.cases ensures 0 <= k < db.nextCase {}
      }
    }
  }

  lemma StepGathers(db: Db, s: Step, id: int, reports: seq<Decision>)
    requires Inv(db) && id in Apply(db, s).cases
    requires if id in db.cases then Gathers(db.cases[id], reports) else reports == []
    ensures Gathers(Apply(db, s).cases[id], reports + if Reports(db, s, id) then [s.decision] else [])
  {
    if Reports(db, s, id) {
      if id in db.cases {
        ReportWidens(db, s, id);
        NextReport(db.cases[id], Apply(db, s).cases[id], reports, s.decision);
      } else {
        ReportOpens(db, s, id);
        FirstReport(Apply(db, s).cases[id], s.decision);
        assert reports + [s.decision] == [s.decision];
      }
    } else {
      if s.StepRequest? { RequestKeepsReports(db, s, id); } else { OthersKeepReports(db, s, id); }
      assert reports + [] == reports;
    }
  }

  lemma {:induction false} NothingReported(steps: seq<Step>, id: int)
    ensures id !in Run(EmptyDb, steps).cases ==> Reported(steps, id) == []
  {
    if steps != [] {
      var init := steps[..|steps| - 1];
      EmptyHolds();
      RunKeeps(EmptyDb, init);
      NothingReported(init, id);
      var db := Run(EmptyDb, init);
      if id in db.cases || Reports(db, steps[|steps| - 1], id) { CasesStay(db, steps[|steps| - 1], id); }
    }
  }

  lemma CasesStay(db: Db, s: Step, id: int)
    requires Inv(db) && (id in db.cases || Reports(db, s, id))
    ensures id in Apply(db, s).cases
  {
    if Reports(db, s, id) {
      if id in db.cases { ReportWidens(db, s, id); } else { ReportOpens(db, s, id); }
    } else if s.StepCancel? {
      CancelKeepsCases(db, s.tenant, s.id, s.key, id);
    } else if s.StepProvider? || s.StepQueue? || s.StepSummaryFailure? {
      MoveStepsKeepCases(db, s, id);
    } else {
      OtherStepsKeepCases(db, s, id);
    }
  }

  lemma CancelKeepsCases(db: Db, tenant: int, c: int, key: Option<int>, id: int)
    requires id in db.cases
    ensures id in CancelCase(db, tenant, c, key).db.cases
  {
    var read := ReadForCancel(db, tenant, c, key);
    if read.Ok? {
      if Applied(CommitCancel(db, read.value).result) { AppliedCommit(db, read.value); }
      else { UnappliedCommitChangesNothing(db, read.value); }
    }
  }

  lemma MoveStepsKeepCases(db: Db, s: Step, id: int)
    requires (s.StepProvider? || s.StepQueue? || s.StepSummaryFailure?) && id in db.cases
    ensures id in Apply(db, s).cases
  {
  }

  lemma OtherStepsKeepCases(db: Db, s: Step, id: int)
    requires Identified(db) && id in db.cases && !s.StepCancel? && !s.StepProvider? && !s.StepQueue? && !s.StepSummaryFailure?
    ensures id in Apply(db, s).cases
  {
    if s.StepConfirm? && ConfirmOrder(db, s.tenant, s.session, s.state, s.createdAt).result.Ok? {
      ConfirmedRows(db, s.tenant, s.session, s.state, s.createdAt);
    }
  }

  /**
   In every reachable state a case holds exactly the risks and blocked actions that
   were reported on it, the reason reported last and the highest priority reported.
   */
  lemma {:induction false} CaseGathers(steps: seq<Step>, id: int)
    requires id in Run(EmptyDb, steps).cases
    ensures Gathers(Run(EmptyDb, steps).cases[id], Reported(steps, id))
  {
    var init := steps[..|steps| - 1];
    var db := Run(EmptyDb, init);
    EmptyHolds();
    RunKeeps(EmptyDb, init);
    if id in db.cases { CaseGathers(init, id); } else { NothingReported(init, id); }
    StepGathers(db, steps[|steps| - 1], id, Reported(init, id));
  }

  // ---------- a cancel ----------

  /** The version bump a cancel owes: a confirmation exists at the order's version, or the session counts as confirmed or submitted. */
  ghost predicate OwesNewVersion(db: Db, oid: Option<int>, s: SessionState) {
    || (oid.Some? && oid.value in db.orders && (oid.value, db.orders[oid.value].draftVersion) in db.confirmations)
    || s.confirmationValid || s.submitted
  }

  /** The session a cancel of the case leaves, column by column. */
  ghost predicate SessionCancelled(db: Db, id: int, a: SessionRow, b: SessionRow)
    requires id in db.cases
  {
    var c := db.cases[id];
    var s := b.state;
    && b.tenant == a.tenant && b.version == a.version + 1 && s.persistenceVersion == b.version
    && s.items == a.state.items
    && !s.confirmationValid && !s.submitted && s.submittedOrder.None? && s.lifecycle.Draft? && s.stage == "ordering"
    && s.handoffCase == Some(id) && s.handoffStatus.Cancelled? && s.classification.Handoff? && s.reason == Some(c.reason)
    && (c.reason.ExplicitHumanRequest? ==> s.blockedActions == {})
    && (!c.reason.ExplicitHumanRequest? ==> s.blockedActions == c.blockedActions)
    && s.confirmedFields == {} && (forall f :: f in s.unconfirmedFields <==> f in a.state.unconfirmedFields || f == "final_order")
  }

  /** A cancel that does the work leaves the session told of it, and blocking what the case blocked unless the customer had only asked for a person. */
  lemma CancelSaves(db: Db, tenant: int, id: int, key: Option<int>)
    requires Applied(CancelCase(db, tenant, id, key).result)
    ensures id in db.cases
    ensures var after := CancelCase(db, tenant, id, key).db;
            var sid := db.cases[id].session;
            && sid in db.sessions && sid in after.sessions && after.sessions == db.sessions[sid := after.sessions[sid]]
            && SessionCancelled(db, id, db.sessions[sid], after.sessions[sid])
  {
  }

  /** The draft versions a cancel leaves: one on if it owes that, and never below the session's. */
  lemma CancelVersions(db: Db, tenant: int, id: int, key: Option<int>)
    requires Linked(db) && Applied(CancelCase(db, tenant, id, key).result)
    ensures id in db.cases
    ensures var after := CancelCase(db, tenant, id, key).db;
            var c := db.cases[id];
            && c.session in db.sessions && c.session in after.sessions
            && var s, s' := db.sessions[c.session].state, after.sessions[c.session].state;
            var bump := if OwesNewVersion(db, c.order, s) then 1 else 0;
            && (c.order.None? ==> s'.draftVersion == s.draftVersion + bump)
            && (c.order.Some? ==>
                  && c.order.value in db.orders && c.order.value in after.orders
                  && after.orders[c.order.value].draftVersion == s'.draftVersion == Max(db.orders[c.order.value].draftVersion + bump, s.draftVersion)
                  && after.orders[c.order.value].status
                     == (if db.orders[c.order.value].status.CustomerConfirmed? then Draft else db.orders[c.order.value].status)
                  && SameOwner(db.orders[c.order.value], after.orders[c.order.value])
                  && after.orders == db.orders[c.order.value := after.orders[c.order.value]])
  {
    CaseOrderFound(db, id);
  }

  /** What the order journal and the customer are told of a cancel: the order before and after, and whether it is still held. */
  lemma CancelTells(db: Db, tenant: int, id: int, key: Option<int>)
    requires Linked(db) && Applied(CancelCase(db, tenant, id, key).result)
    ensures id in db.cases
    ensures var r := CancelCase(db, tenant, id, key);
            var c := db.cases[id];
            var report := r.result.value;
            && c.session in r.db.sessions
            && report.draftVersion == r.db.sessions[c.session].state.draftVersion
            && report.persistenceVersion == r.db.sessions[c.session].version
            && report.lifecycle.Draft? && report.confirmationRemainsInvalid && report.requiresNewConfirmation && !report.idempotentReplay
            && (report.mayContinueDraft <==> c.reason.ExplicitHumanRequest? && !report.safetyHoldActive)
            && match c.order
               case None => r.db.orderEvents == db.orderEvents && r.db.orders == db.orders && !report.safetyHoldCleared
                            && (report.safetyHoldActive <==> !c.reason.ExplicitHumanRequest?)
               case Some(oid) =>
                 && oid in db.orders && oid in r.db.orders && report.safetyHoldActive == r.db.orders[oid].hold
                 && (report.safetyHoldCleared <==> db.orders[oid].hold && !r.db.orders[oid].hold)
                 && r.db.orderEvents == Append(db.orderEvents, oid,
                      HandoffCancelled(!report.mayContinueDraft, c.reason, db.orders[oid].status, r.db.orders[oid].status,
                                       db.orders[oid].draftVersion, r.db.orders[oid].draftVersion, db.orders[oid].hold, r.db.orders[oid].hold))
  {
    CaseOrderFound(db, id);
  }

  /** What cancelling a cancelled case again reports, however much later: how things are now. */
  lemma ReplayTells(db: Db, tenant: int, id: int, key: Option<int>)
    requires Linked(db) && Visible(db, id, tenant, key) && db.cases[id].status.Cancelled?
    ensures var r := CancelCase(db, tenant, id, key);
            var c := db.cases[id];
            && r.db == db && r.result.Ok? && c.session in db.sessions
            && var report := r.result.value;
            var row := db.sessions[c.session];
            var held := (if c.order.Some? && c.order.value in db.orders then db.orders[c.order.value].hold else !c.reason.ExplicitHumanRequest?);
            && report.safetyHoldActive == held
            && (report.mayContinueDraft <==> c.reason.ExplicitHumanRequest? && !held && row.state.lifecycle.Draft?)
            && (report.safetyHoldCleared <==> c.reason.ExplicitHumanRequest? && c.order.Some? && !held)
            && (report.confirmationRemainsInvalid <==> !row.state.confirmationValid && !row.state.submitted)
            && (report.requiresNewConfirmation <==> report.confirmationRemainsInvalid)
            && report.draftVersion == row.state.draftVersion && report.lifecycle == row.state.lifecycle
            && report.persistenceVersion == row.version && report.idempotentReplay
  {
    CaseOrderFound(db, id);
  }

  /** The session blocks everything any report blocked, or nothing if the last one was an explicit request. */
  ghost predicate BlocksReported(blocked: set<string>, reports: seq<Decision>) {
    reports != [] &&
    forall x :: x in blocked
           <==> !reports[|reports| - 1].reason.ExplicitHumanRequest? && exists k :: 0 <= k < |reports| && x in reports[k].blockedActions
  }

  /** What the session of a case blocks, if it has one. */
  function BlockedFor(db: Db, sid: int): set<string> {
    if sid in db.sessions then db.sessions[sid].state.blockedActions else {}
  }

  lemma CancelBlocks(db: Db, tenant: int, id: int, key: Option<int>, reports: seq<Decision>)
    requires Applied(CancelCase(db, tenant, id, key).result) && id in db.cases && Gathers(db.cases[id], reports)
    ensures db.cases[id].session in CancelCase(db, tenant, id, key).db.sessions
    ensures BlocksReported(BlockedFor(CancelCase(db, tenant, id, key).db, db.cases[id].session), reports)
  {
    CancelSaves(db, tenant, id, key);
  }

  lemma CancelFindsCase(db: Db, tenant: int, id: int, key: Option<int>)
    requires Applied(CancelCase(db, tenant, id, key).result)
    ensures id in db.cases
  {
  }

  /** After a run and a cancel the session blocks everything any report on the case blocked, or nothing after an explicit request. */
  lemma CancelBlocksWhatWasReported(steps: seq<Step>, tenant: int, id: int, key: Option<int>)
    requires Applied(CancelCase(Run(EmptyDb, steps), tenant, id, key).result)
    ensures id in Run(EmptyDb, steps).cases
    ensures Run(EmptyDb, steps).cases[id].session in CancelCase(Run(EmptyDb, steps), tenant, id, key).db.sessions
    ensures BlocksReported(BlockedFor(CancelCase(Run(EmptyDb, steps), tenant, id, key).db, Run(EmptyDb, steps).cases[id].session),
                           Reported(steps, id))
  {
    CancelFindsCase(Run(EmptyDb, steps), tenant, id, key);
    CaseGathers(steps, id);
    CancelBlocks(Run(EmptyDb, steps), tenant, id, key, Reported(steps, id));
  }

  // ---------- confirming ----------

  /** The session a confirmation leaves: as it was given, and submitted. */
  ghost predicate SessionConfirmed(a: SessionRow, state: SessionState, b: SessionRow, oid: int) {
    && b.tenant == a.tenant && b.version == a.version + 1
    && b.state.submitted && b.state.submittedOrder == Some(oid) && b.state.stage == "submitted" && b.state.confirmationValid
    && b.state.lifecycle.CustomerConfirmed? && b.state.persistenceVersion == b.version
    && b.state == state.(submitted := true, submittedOrder := Some(oid), stage := b.state.stage, confirmationValid := true,
                         lifecycle := b.state.lifecycle, persistenceVersion := b.version)
  }

  /** The order that is confirmed: the session's latest if it is the draft of this version, else a new one. */
  ghost predicate OrderConfirmed(db: Db, tenant: int, session: int, version: int, createdAt: int, oid: int, o: Order) {
    && o.status.CustomerConfirmed? && o.draftVersion == version && !o.hold
    && if oid in db.orders
       then LatestOrder(db.orders, session, tenant, db.nextOrder) == Some(oid) && db.orders[oid].status.Draft?
            && o == db.orders[oid].(status := CustomerConfirmed)
       else oid == db.nextOrder && o == Order(tenant, session, createdAt, CustomerConfirmed, version, false, None, true)
  }

  lemma ConfirmWrites(db: Db, tenant: int, session: int, state: SessionState, createdAt: int)
    requires Identified(db) && ConfirmOrder(db, tenant, session, state, createdAt).result.Ok?
    ensures var r := ConfirmOrder(db, tenant, session, state, createdAt);
            var oid := r.result.value;
            var prepared := if oid in db.orders then DraftRevalidated(state.draftVersion) else DraftCreated(state.draftVersion);
            && session in db.sessions && db.sessions[session].tenant == tenant && session in r.db.sessions
            && SessionConfirmed(db.sessions[session], state, r.db.sessions[session], oid)
            && r.db.sessions == db.sessions[session := r.db.sessions[session]]
            && oid in r.db.orders && OrderConfirmed(db, tenant, session, state.draftVersion, createdAt, oid, r.db.orders[oid])
            && r.db.orders == db.orders[oid := r.db.orders[oid]]
            && (oid, state.draftVersion) !in db.confirmations
            && r.db.confirmations == db.confirmations[(oid, state.draftVersion) := Confirmation(false)]
            && r.db.orderEvents == Append(Append(db.orderEvents, oid, prepared), oid, Entered(Draft, CustomerConfirmed))
            && r.db.cases == db.cases && r.db.caseEvents == db.caseEvents
  {
    ConfirmEvents(db, tenant, session, state, createdAt);
    ConfirmedRows(db, tenant, session, state, createdAt);
    var p := PrepareDraft(db, tenant, session, state.draftVersion, createdAt);
    FinishedRows(p.db, p.order, session, db.sessions[session], state);
  }

  lemma ConfirmEvents(db: Db, tenant: int, session: int, state: SessionState, createdAt: int)
    requires Identified(db) && ConfirmOrder(db, tenant, session, state, createdAt).result.Ok?
    ensures var r := ConfirmOrder(db, tenant, session, state, createdAt);
            var oid := r.result.value;
            var prepared := if oid in db.orders then DraftRevalidated(state.draftVersion) else DraftCreated(state.draftVersion);
            r.db.orderEvents == Append(Append(db.orderEvents, oid, prepared), oid, Entered(Draft, CustomerConfirmed))
  {
  }

  ghost predicate MayConfirm(db: Db, tenant: int, session: int, state: SessionState) {
    && session in db.sessions && db.sessions[session].tenant == tenant
    && db.sessions[session].state.draftVersion == state.draftVersion && db.sessions[session].state.items == state.items
    && (state.persistenceVersion == 0 || state.persistenceVersion == db.sessions[session].version)
    && var latest := LatestOrder(db.orders, session, tenant, db.nextOrder);
    (latest.Some? ==>
       && !db.orders[latest.value].hold
       && (db.orders[latest.value].status.Draft? && db.orders[latest.value].draftVersion == state.draftVersion ==>
             (latest.value, state.draftVersion) !in db.confirmations))
  }

  /**
   An order is confirmed if and only if the draft the customer saw is the one stored, nobody
   saved in between, the latest order is not held, and its version was never confirmed.
   */
  lemma ConfirmsIff(db: Db, tenant: int, session: int, state: SessionState, createdAt: int)
    requires Identified(db) && ConfirmationsBounded(db)
    ensures ConfirmOrder(db, tenant, session, state, createdAt).result.Ok? <==> MayConfirm(db, tenant, session, state)
  {
    var p := PrepareDraft(db, tenant, session, state.draftVersion, createdAt);
    PreparedRows(db, tenant, session, state.draftVersion, createdAt);
    assert (db.nextOrder, state.draftVersion) !in db.confirmations;
  }

  // ---------- withdrawing a confirmation, saving a turn ----------

  /** A confirmation is withdrawn if it stands and the order can still be cancelled; the order is then cancelled, one version on. */
  lemma WithdrawsIff(db: Db, tenant: int, oid: int)
    ensures var r := InvalidateConfirmation(db, tenant, oid);
            && (r.result.Ok? <==>
                  && oid in db.orders && db.orders[oid].tenant == tenant
                  && (oid, db.orders[oid].draftVersion) in db.confirmations && !db.confirmations[(oid, db.orders[oid].draftVersion)].invalidated
                  && !db.orders[oid].status.OrderCancelled? && !db.orders[oid].status.Completed?)
            && (r.result.Err? ==> r.db == db)
            && (r.result.Ok? ==>
                  var o := db.orders[oid];
                  r.db == db.(orders := db.orders[oid := o.(status := OrderCancelled, draftVersion := o.draftVersion + 1)],
                              confirmations := db.confirmations[(oid, o.draftVersion) := Confirmation(true)],
                              orderEvents := Append(db.orderEvents, oid, Entered(o.status, OrderCancelled))))
  {
  }

  /** A turn is saved if and only if the session is the tenant's and at the version the turn has read; only that row changes. */
  lemma SavesIff(db: Db, tenant: int, session: int, state: SessionState)
    ensures var r := SaveTurn(db, tenant, session, state);
            && (r.result.Ok? <==> session in db.sessions && db.sessions[session].tenant == tenant
                                  && db.sessions[session].version == state.persistenceVersion)
            && (r.result.Err? ==> r.db == db)
            && (r.result.Ok? ==>
                  var row := db.sessions[session];
                  r.db == db.(sessions := db.sessions[session := SessionRow(row.tenant, row.version + 1,
                                                                            state.(persistenceVersion := row.version + 1))]))
  {
  }

  /** Opening a session creates it at version 1, or finds the tenant's own; another tenant's is refused. */
  lemma OpensIff(db: Db, tenant: int, session: int, state: SessionState)
    ensures var r := OpenSession(db, tenant, session, state);
            && (r.result.Ok? <==> session in db.sessions ==> db.sessions[session].tenant == tenant)
            && (session in db.sessions ==> r.db == db)
            && (session !in db.sessions ==>
                  r.db == db.(sessions := db.sessions[session := SessionRow(tenant, 1, state.(persistenceVersion := 1))]))
  {
  }

  /** Why a confirmation is refused: whose session it is, what the customer saw, the version, and then the hold. */
  lemma ConfirmErrors(db: Db, tenant: int, session: int, state: SessionState, createdAt: int)
    requires Identified(db)
    ensures var r := ConfirmOrder(db, tenant, session, state, createdAt);
            var latest := LatestOrder(db.orders, session, tenant, db.nextOrder);
            && (r.result.Err? ==> r.db == db)
            && (r.result == Err(TenantMismatch) <==> !(session in db.sessions && db.sessions[session].tenant == tenant))
            && (r.result == Err(ConfirmationStale) <==>
                  session in db.sessions && db.sessions[session].tenant == tenant
                  && (db.sessions[session].state.draftVersion != state.draftVersion || db.sessions[session].state.items != state.items))
            && (r.result == Err(SafetyHoldActive) ==> latest.Some? && db.orders[latest.value].hold)
            && (latest.Some? && db.orders[latest.value].hold && r.result.Err? ==>
                  r.result.error in {TenantMismatch, ConfirmationStale, SessionVersionConflict, SafetyHoldActive})
  {
    if session in db.sessions {
      PreparedRows(db, tenant, session, state.draftVersion, createdAt);
    }
  }
}
