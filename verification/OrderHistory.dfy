/**
 The life of one order over whole runs: the statuses it has entered since it was
 last a draft, and an event journal that replays to its status.
 */
module OrderHistory {
  import opened Wrappers
  import opened Journal
  import opened HandoffModel
  import opened HandoffSteps
  import opened HandoffInvariants
  import opened HandoffCancellation

  // ---------- the path since the last draft ----------

  /** A status the order entered, and whether it was on hold at that moment. */
  datatype Entry = Entry(status: OrderStatus, held: bool)

  /** The statuses entered since the order was last a draft (or did not exist). */
  function PathSinceDraft(steps: seq<Step>, oid: int): seq<Entry>
  {
    if steps == [] then []
    else
      var init := steps[..|steps| - 1];
      var before := Run(EmptyDb, init);
      var after := Run(EmptyDb, steps);
      var path := PathSinceDraft(init, oid);
      if oid !in after.orders then []
      else
        var now := after.orders[oid];
        if oid in before.orders && before.orders[oid].status == now.status then path
        else if now.status == Draft then [] else path + [Entry(now.status, now.hold)]
  }

  /** The only way from a draft to each status, cancellation aside. */
  function Spine(s: OrderStatus): seq<OrderStatus> {
    match s
    case Draft => []
    case CustomerConfirmed => [CustomerConfirmed]
    case SubmissionStarted => [CustomerConfirmed, SubmissionStarted]
    case SubmissionFailed => [CustomerConfirmed, SubmissionStarted, SubmissionFailed]
    case MerchantPending => [CustomerConfirmed, SubmissionStarted, MerchantPending]
    case MerchantRejected => [CustomerConfirmed, SubmissionStarted, MerchantPending, MerchantRejected]
    case MerchantAccepted => [CustomerConfirmed, SubmissionStarted, MerchantPending, MerchantAccepted]
    case Completed => [CustomerConfirmed, SubmissionStarted, MerchantPending, MerchantAccepted, Completed]
    case OrderCancelled => []
  }

  function Statuses(path: seq<Entry>): (r: seq<OrderStatus>)
    ensures |r| == |path|
  {
    seq(|path|, i requires 0 <= i < |path| => path[i].status)
  }

  /** The status from which an order was cancelled, if it was. */
  ghost predicate LegalPath(path: seq<Entry>, status: OrderStatus)
  {
    && (forall i :: 0 <= i < |path| && BlockedByHold(path[i].status) ==> !path[i].held)
    && (if status == OrderCancelled
        then exists from :: from != OrderCancelled && from != Completed && Statuses(path) == Spine(from) + [OrderCancelled]
        else Statuses(path) == Spine(status))
  }

  /** A step leaves an order's status, resets it to draft, or follows the lifecycle table past no hold. */
  ghost predicate LegalMove(a: Order, b: Order) {
    || b.status == a.status
    || b.status == Draft
    || (b.status in LifecycleTransitions(a.status) && (BlockedByHold(b.status) ==> !a.hold && !b.hold))
  }

  lemma StepMoves(db: Db, s: Step, oid: int)
    requires Identified(db)
    ensures oid in db.orders ==> oid in Apply(db, s).orders && LegalMove(db.orders[oid], Apply(db, s).orders[oid])
    ensures oid !in db.orders && oid in Apply(db, s).orders ==> Apply(db, s).orders[oid].status == CustomerConfirmed
  {
    match s
    case StepConfirm(t, k, state, at) => ConfirmMoves(db, t, k, state, at, oid);
    case StepCancel(t, id, key) =>
      var read := ReadForCancel(db, t, id, key);
      if read.Ok? { CommitMoves(db, read.value, oid); }
    case StepProvider(t, id, key, call) =>
      if Scoped(db, id, t, key) { CaseMoves(db, id, ProviderAnswer(call), SimulationProvider, oid); }
    case StepQueue(t, id, k, built) =>
      if Scoped(db, id, t, None) { CaseMoves(db, id, ProviderResult(Pending, None, None), SimulationProvider, oid); }
    case StepSummaryFailure(t, id) =>
      if Scoped(db, id, t, None) { CaseMoves(db, id, ProviderResult(Failed, Some(SystemError), None), System, oid); }
    case StepRequest(t, k, d) =>
    case _ =>
  }

  lemma ConfirmMoves(db: Db, tenant: int, session: int, state: SessionState, at: int, oid: int)
    requires Identified(db)
    ensures var after := ConfirmOrder(db, tenant, session, state, at).db;
            && (oid in db.orders ==> oid in after.orders && LegalMove(db.orders[oid], after.orders[oid]))
            && (oid !in db.orders && oid in after.orders ==> after.orders[oid].status == CustomerConfirmed)
  {
    if ConfirmOrder(db, tenant, session, state, at).result.Ok? {
      PreparedRows(db, tenant, session, state.draftVersion, at);
      var p := PrepareDraft(db, tenant, session, state.draftVersion, at);
      FinishedRows(p.db, p.order, session, db.sessions[session], state);
    }
  }

  lemma CaseMoves(db: Db, id: int, r: ProviderResult, actor: Actor, oid: int)
    requires id in db.cases
    ensures var after := MoveCase(db, id, r, actor).db;
            && after.orders.Keys == db.orders.Keys
            && (oid in db.orders ==> LegalMove(db.orders[oid], after.orders[oid]))
  {
  }

  lemma CommitMoves(db: Db, t: Ticket, oid: int)
    ensures oid in db.orders ==> oid in CommitCancel(db, t).db.orders && LegalMove(db.orders[oid], CommitCancel(db, t).db.orders[oid])
    ensures CommitCancel(db, t).db.orders.Keys == db.orders.Keys
  {
  }

  lemma PathGrows(path: seq<Entry>, from: OrderStatus, e: Entry)
    requires LegalPath(path, from) && e.status in LifecycleTransitions(from) && (BlockedByHold(e.status) ==> !e.held)
    ensures LegalPath(path + [e], e.status)
  {
    assert Statuses(path + [e]) == Statuses(path) + [e.status];
    assert from != OrderCancelled && from != Completed;
  }

  /**
   In every run, the statuses an order has entered since it was last a draft are
   exactly the ones the lifecycle table leads through, so at most five; an
   accepted or completed order passed confirmation, submission and the merchant
   in that order, and entered none of the held-back statuses while on hold.
   */
  lemma {:induction false} PathIsLegal(steps: seq<Step>, oid: int)
    requires oid in Run(EmptyDb, steps).orders
    ensures LegalPath(PathSinceDraft(steps, oid), Run(EmptyDb, steps).orders[oid].status)
    ensures |PathSinceDraft(steps, oid)| <= 5
  {
    var init := steps[..|steps| - 1];
    var before := Run(EmptyDb, init);
    var now := Run(EmptyDb, steps).orders[oid];
    EmptyHolds();
    RunKeeps(EmptyDb, init);
    StepMoves(before, steps[|steps| - 1], oid);
    if oid in before.orders {
      PathIsLegal(init, oid);
      var was := before.orders[oid];
      if now.status != was.status && now.status != Draft {
        PathGrows(PathSinceDraft(init, oid), was.status, Entry(now.status, now.hold));
      }
    } else {
      NoPathYet(init, oid);
      PathGrows([], Draft, Entry(now.status, now.hold));
    }
    SpineLength(PathSinceDraft(steps, oid), now.status);
  }

  lemma SpineLength(path: seq<Entry>, status: OrderStatus)
    requires LegalPath(path, status)
    ensures |path| <= 5
  {
    assert |Statuses(path)| == |path|;
  }

  lemma NoPathYet(steps: seq<Step>, oid: int)
    requires oid !in Run(EmptyDb, steps).orders
    ensures PathSinceDraft(steps, oid) == []
  {
  }

  // ---------- the order journal ----------

  /** The status an order journal describes; None if it is not a legal history. */
  function ReplayOrder(entries: seq<OrderEvent>): Option<OrderStatus>
  {
    if entries == [] then None
    else
      var before := ReplayOrder(entries[..|entries| - 1]);
      match entries[|entries| - 1]
      case DraftCreated(_) => if |entries| == 1 then Some(Draft) else None
      case DraftRevalidated(_) => if before == Some(Draft) then before else None
      case Entered(previous, status) => if before == Some(previous) && status in LifecycleTransitions(previous) then Some(status) else None
      case HandoffDraftChanged(previous, _) => if before == Some(previous) then Some(Draft) else None
      case HandoffCancelled(_, _, previous, status, _, _, _, _) =>
        if before == Some(previous) && (status == previous || (previous == CustomerConfirmed && status == Draft)) then Some(status) else None
  }

  ghost predicate OrdersJournaled(db: Db) {
    && Numbered(db.orderEvents)
    && (forall oid :: oid in db.orders ==> ReplayOrder(Entries(db.orderEvents, oid)) == Some(db.orders[oid].status))
    && (forall oid :: oid !in db.orders ==> Entries(db.orderEvents, oid) == [])
  }

  /** One order changes with one event that explains its new status. */
  lemma OrderJournalGrows(a: Db, b: Db, oid: int, e: OrderEvent)
    requires OrdersJournaled(a) && oid in a.orders && b.orders.Keys == a.orders.Keys
    requires forall other :: other in a.orders && other != oid ==> b.orders[other].status == a.orders[other].status
    requires b.orderEvents == Append(a.orderEvents, oid, e)
    requires match e
             case DraftCreated(_) => false
             case DraftRevalidated(_) => a.orders[oid].status == Draft && b.orders[oid].status == Draft
             case Entered(previous, status) => a.orders[oid].status == previous && b.orders[oid].status == status && status in LifecycleTransitions(previous)
             case HandoffDraftChanged(previous, _) => a.orders[oid].status == previous && b.orders[oid].status == Draft
             case HandoffCancelled(_, _, previous, status, _, _, _, _) =>
               a.orders[oid].status == previous && b.orders[oid].status == status
               && (status == previous || (previous == CustomerConfirmed && status == Draft))
    ensures OrdersJournaled(b)
  {
    AppendExtends(a.orderEvents, oid, e);
    var was := Entries(a.orderEvents, oid);
    assert (was + [e])[..|was + [e]| - 1] == was;
  }

  lemma OrdersUntouched(a: Db, b: Db)
    requires OrdersJournaled(a) && b.orders.Keys == a.orders.Keys && b.orderEvents == a.orderEvents
    requires forall oid :: oid in a.orders ==> b.orders[oid].status == a.orders[oid].status
    ensures OrdersJournaled(b)
  {
  }

  lemma NewOrderJournal(a: Db, b: Db, oid: int, e: OrderEvent)
    requires OrdersJournaled(a) && oid !in a.orders && b.orders.Keys == a.orders.Keys + {oid}
    requires forall other :: other in a.orders ==> b.orders[other].status == a.orders[other].status
    requires b.orderEvents == Append(a.orderEvents, oid, e) && e.DraftCreated? && b.orders[oid].status == Draft
    ensures OrdersJournaled(b)
  {
    AppendExtends(a.orderEvents, oid, e);
    assert Entries(b.orderEvents, oid) == [] + [e] == [e];
  }

  lemma EnterJournals(db: Db, oid: int, target: OrderStatus, fixture: bool)
    requires OrdersJournaled(db)
    ensures OrdersJournaled(EnterStatus(db, oid, target, fixture).db)
  {
    var r := EnterStatus(db, oid, target, fixture);
    if r.result.Ok? { OrderJournalGrows(db, r.db, oid, Entered(db.orders[oid].status, target)); }
  }

  /** A status move touches an order only when a resolution changed its draft. */
  lemma MovedOrders(db: Db, id: int, seen: HandoffStatus, r: ProviderResult, actor: Actor)
    requires id in db.cases && ApplyTransition(db, id, seen, r, actor).Ok?
    ensures var after := ApplyTransition(db, id, seen, r, actor).value;
            var oid := OrderOf(db, db.cases[id]);
            if r.status == Resolved && r.resolution.value.draftChanged && oid.Some? then
              && oid.value in db.orders && after.orders == db.orders[oid.value := after.orders[oid.value]]
              && after.orders[oid.value].status == Draft
              && after.orderEvents == Append(db.orderEvents, oid.value,
                                             HandoffDraftChanged(db.orders[oid.value].status, db.orders[oid.value].draftVersion + 1))
            else after.orders == db.orders && after.orderEvents == db.orderEvents
  {
  }

  lemma MoveJournals(db: Db, id: int, r: ProviderResult, actor: Actor)
    requires OrdersJournaled(db) && id in db.cases
    ensures OrdersJournaled(MoveCase(db, id, r, actor).db)
  {
    var seen := db.cases[id].status;
    if ApplyTransition(db, id, seen, r, actor).Ok? {
      var after := ApplyTransition(db, id, seen, r, actor).value;
      var oid := OrderOf(db, db.cases[id]);
      MovedOrders(db, id, seen, r, actor);
      if r.status == Resolved && r.resolution.value.draftChanged && oid.Some? {
        OrderJournalGrows(db, after, oid.value, HandoffDraftChanged(db.orders[oid.value].status, db.orders[oid.value].draftVersion + 1));
      } else {
        OrdersUntouched(db, after);
      }
    }
  }

  lemma CancelledRows(db: Db, t: Ticket)
    requires Applied(CommitCancel(db, t).result)
    ensures var after := CommitCancel(db, t).db;
            if OrderOf(db, t.seen).Some? then
              var oid := OrderOf(db, t.seen).value;
              && after.orders == db.orders[oid := after.orders[oid]]
              && (after.orders[oid].status == if db.orders[oid].status == CustomerConfirmed then Draft else db.orders[oid].status)
              && |after.orderEvents| == |db.orderEvents| + 1
              && var e := after.orderEvents[|db.orderEvents|].entry;
              && after.orderEvents == Append(db.orderEvents, oid, e)
              && e.HandoffCancelled? && e.previous == db.orders[oid].status && e.status == after.orders[oid].status
            else after.orders == db.orders && after.orderEvents == db.orderEvents
  {
  }

  lemma CancelJournals(db: Db, t: Ticket)
    requires OrdersJournaled(db)
    ensures OrdersJournaled(CommitCancel(db, t).db)
  {
    var after := CommitCancel(db, t);
    if Applied(after.result) {
      CancelledRows(db, t);
      if OrderOf(db, t.seen).Some? {
        OrderJournalGrows(db, after.db, OrderOf(db, t.seen).value, after.db.orderEvents[|db.orderEvents|].entry);
      }
    } else {
      UnappliedCommitChangesNothing(db, t);
    }
  }

  lemma PrepareJournals(db: Db, tenant: int, session: int, version: int, at: int)
    requires Identified(db) && OrdersJournaled(db)
    ensures OrdersJournaled(PrepareDraft(db, tenant, session, version, at).db)
  {
    var p := PrepareDraft(db, tenant, session, version, at);
    if p.order in db.orders { OrderJournalGrows(db, p.db, p.order, DraftRevalidated(version)); }
    else { NewOrderJournal(db, p.db, p.order, DraftCreated(version)); }
  }

  lemma FinishJournals(db: Db, oid: int, session: int, row: SessionRow, state: SessionState)
    requires OrdersJournaled(db) && FinishConfirm(db, oid, session, row, state).Ok?
    ensures OrdersJournaled(FinishConfirm(db, oid, session, row, state).value)
  {
    var confirmed := db.(confirmations := db.confirmations[(oid, state.draftVersion) := Confirmation(false)]);
    OrdersUntouched(db, confirmed);
    EnterJournals(confirmed, oid, CustomerConfirmed, false);
    OrdersUntouched(EnterStatus(confirmed, oid, CustomerConfirmed, false).db, FinishConfirm(db, oid, session, row, state).value);
  }

  lemma ConfirmIs(db: Db, tenant: int, session: int, state: SessionState, at: int)
    requires ConfirmOrder(db, tenant, session, state, at).result.Ok?
    ensures var p := PrepareDraft(db, tenant, session, state.draftVersion, at);
            && session in db.sessions && FinishConfirm(p.db, p.order, session, db.sessions[session], state).Ok?
            && ConfirmOrder(db, tenant, session, state, at).db == FinishConfirm(p.db, p.order, session, db.sessions[session], state).value
  {
  }

  lemma ConfirmJournals(db: Db, tenant: int, session: int, state: SessionState, at: int)
    requires Identified(db) && OrdersJournaled(db)
    ensures OrdersJournaled(ConfirmOrder(db, tenant, session, state, at).db)
  {
    if ConfirmOrder(db, tenant, session, state, at).result.Ok? {
      var p := PrepareDraft(db, tenant, session, state.draftVersion, at);
      ConfirmIs(db, tenant, session, state, at);
      PrepareJournals(db, tenant, session, state.draftVersion, at);
      FinishJournals(p.db, p.order, session, db.sessions[session], state);
    }
  }

  lemma InvalidateJournals(db: Db, tenant: int, oid: int)
    requires OrdersJournaled(db)
    ensures OrdersJournaled(InvalidateConfirmation(db, tenant, oid).db)
  {
    if InvalidateConfirmation(db, tenant, oid).result.Ok? {
      var o := db.orders[oid];
      var withdrawn := db.(confirmations := InvalidateAt(db.confirmations, oid, o.draftVersion),
                           orders := db.orders[oid := o.(draftVersion := o.draftVersion + 1)]);
      OrdersUntouched(db, withdrawn);
      EnterJournals(withdrawn, oid, OrderCancelled, false);
    }
  }

  lemma RequestJournals(db: Db, tenant: int, session: int, d: Decision)
    requires OrdersJournaled(db)
    ensures OrdersJournaled(CreateOrReuse(db, tenant, session, d).db)
  {
    OrdersUntouched(db, CreateOrReuse(db, tenant, session, d).db);
  }

  lemma CancelCaseJournals(db: Db, tenant: int, id: int, key: Option<int>)
    requires OrdersJournaled(db)
    ensures OrdersJournaled(CancelCase(db, tenant, id, key).db)
  {
    var read := ReadForCancel(db, tenant, id, key);
    if read.Ok? { CancelJournals(db, read.value); }
  }

  lemma ProviderJournals(db: Db, tenant: int, id: int, key: Option<int>, call: ProviderCall)
    requires OrdersJournaled(db)
    ensures OrdersJournaled(ProviderMove(db, tenant, id, key, call).db)
  {
    if Scoped(db, id, tenant, key) { MoveJournals(db, id, ProviderAnswer(call), SimulationProvider); }
  }

  lemma QueueJournals(db: Db, tenant: int, id: int, session: int, built: bool)
    requires OrdersJournaled(db)
    ensures OrdersJournaled(QueueCase(db, tenant, id, session, built).db)
  {
    if Scoped(db, id, tenant, None) { MoveJournals(db, id, ProviderResult(Pending, None, None), SimulationProvider); }
  }

  lemma FailureJournals(db: Db, tenant: int, id: int)
    requires OrdersJournaled(db)
    ensures OrdersJournaled(MarkSummaryFailure(db, tenant, id).db)
  {
    if Scoped(db, id, tenant, None) { MoveJournals(db, id, ProviderResult(Failed, Some(SystemError), None), System); }
  }

  lemma SessionJournals(db: Db, tenant: int, session: int, state: SessionState)
    requires OrdersJournaled(db)
    ensures OrdersJournaled(OpenSession(db, tenant, session, state).db) && OrdersJournaled(SaveTurn(db, tenant, session, state).db)
  {
    OrdersUntouched(db, OpenSession(db, tenant, session, state).db);
    OrdersUntouched(db, SaveTurn(db, tenant, session, state).db);
  }

  lemma StepJournals(db: Db, s: Step)
    requires Identified(db) && OrdersJournaled(db)
    ensures OrdersJournaled(Apply(db, s))
  {
    match s
    case StepConfirm(t, k, state, at) => ConfirmJournals(db, t, k, state, at);
    case StepInvalidate(t, oid) => InvalidateJournals(db, t, oid);
    case StepLifecycle(oid, target, fixture) => EnterJournals(db, oid, target, fixture);
    case StepCancel(t, id, key) => CancelCaseJournals(db, t, id, key);
    case StepProvider(t, id, key, call) => ProviderJournals(db, t, id, key, call);
    case StepQueue(t, id, k, built) => QueueJournals(db, t, id, k, built);
    case StepSummaryFailure(t, id) => FailureJournals(db, t, id);
    case StepRequest(t, k, d) => RequestJournals(db, t, k, d);
    case StepSaveTurn(t, k, state) => SessionJournals(db, t, k, state);
    case StepOpenSession(t, k, state) => SessionJournals(db, t, k, state);
  }

  /** In every reachable state each order's journal is numbered 1..n and replays to the order's status. */
  lemma {:induction false} ReachableOrders(steps: seq<Step>)
    ensures OrdersJournaled(Run(EmptyDb, steps))
  {
    if steps != [] {
      var init := steps[..|steps| - 1];
      EmptyHolds();
      RunKeeps(EmptyDb, init);
      ReachableOrders(init);
      StepJournals(Run(EmptyDb, init), steps[|steps| - 1]);
    }
  }
}
