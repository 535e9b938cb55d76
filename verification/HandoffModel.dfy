/**
 The rows that the handoff, order and session services share, and the tables
 that guard them: handoff statuses, reasons and priorities, order statuses.
 */
module HandoffModel {
  import opened Wrappers
  import opened Journal

  datatype HandoffStatus =
    | NotRequired | Requested | Pending | AgentAssigned | AgentConnected
    | Resolved | Failed | Cancelled

  predicate IsActive(s: HandoffStatus) {
    s == Requested || s == Pending || s == AgentAssigned || s == AgentConnected
  }

  function AllowedTransitions(s: HandoffStatus): set<HandoffStatus> {
    match s
    case NotRequired => {Requested}
    case Requested => {Pending, Failed, Cancelled}
    case Pending => {AgentAssigned, Failed, Cancelled}
    case AgentAssigned => {AgentConnected, Failed, Cancelled}
    case AgentConnected => {Resolved, Failed, Cancelled}
    case Resolved => {}
    case Failed => {}
    case Cancelled => {}
  }

  datatype Reason =
    | ExplicitHumanRequest | SevereAllergy | CrossContamination | RepeatedMisunderstanding
    | AmbiguousItem | AmbiguousQuantity | UnverifiedAddress | PriceUnavailable | MenuDataMissing
    | Complaint | RefundRequest | PaymentDispute | RejectedByMerchant | MerchantTimeout
    | SystemFailure | LanguageUnsupported | AbuseOrSecurity | RegulatedItem

  datatype Priority = Low | Normal | High | Critical

  function PriorityOf(reason: Reason): Priority {
    if reason in {SevereAllergy, CrossContamination, AbuseOrSecurity} then Critical
    else if reason in {Complaint, RefundRequest, PaymentDispute, RegulatedItem, SystemFailure} then High
    else Normal
  }

  function Rank(p: Priority): int {
    match p case Low => 0 case Normal => 1 case High => 2 case Critical => 3
  }

  function MaxPriority(current: Priority, candidate: Priority): Priority {
    if Rank(current) >= Rank(candidate) then current else candidate
  }

  datatype FailureCode =
    | NoAgentAvailable | QueueTimeout | AssignmentFailed | ConnectionFailed | CaseCancelled | SystemError

  datatype Actor = Customer | Orchestrator | SimulationProvider | System

  datatype OrderStatus =
    | Draft | CustomerConfirmed | SubmissionStarted | MerchantPending | MerchantAccepted
    | MerchantRejected | SubmissionFailed | OrderCancelled | Completed

  function LifecycleTransitions(s: OrderStatus): set<OrderStatus> {
    match s
    case Draft => {CustomerConfirmed, OrderCancelled}
    case CustomerConfirmed => {SubmissionStarted, OrderCancelled}
    case SubmissionStarted => {MerchantPending, SubmissionFailed, OrderCancelled}
    case MerchantPending => {MerchantAccepted, MerchantRejected, OrderCancelled}
    case MerchantAccepted => {Completed, OrderCancelled}
    case MerchantRejected => {OrderCancelled}
    case SubmissionFailed => {OrderCancelled}
    case OrderCancelled => {}
    case Completed => {}
  }

  /** The statuses a safety hold keeps an order from entering. */
  predicate BlockedByHold(s: OrderStatus) {
    s == SubmissionStarted || s == MerchantPending || s == MerchantAccepted
  }

  predicate SetByMerchant(s: OrderStatus) {
    s == MerchantPending || s == MerchantAccepted || s == MerchantRejected
  }

  // An empty resolution dictionary is the absence of a resolution.
  datatype Resolution = Resolution(code: string, draftChanged: bool)

  datatype ProviderResult = ProviderResult(status: HandoffStatus, failure: Option<FailureCode>, resolution: Option<Resolution>)

  datatype HandoffEvent =
    | CaseRequested(reason: Reason, priority: Priority)
    | RiskUpdated(previousReason: Reason, reason: Reason)
    | Moved(from: HandoffStatus, to: HandoffStatus, actor: Actor)

  datatype OrderEvent =
    | DraftCreated(version: int)
    | DraftRevalidated(version: int)
    | Entered(previous: OrderStatus, status: OrderStatus)
    | HandoffDraftChanged(previous: OrderStatus, version: int)
    | HandoffCancelled(holdRetained: bool, reason: Reason, previous: OrderStatus, status: OrderStatus,
                       previousVersion: int, version: int, previousHold: bool, hold: bool)

  datatype Case = Case(
    tenant: int, session: int, order: Option<int>,
    status: HandoffStatus, reason: Reason, priority: Priority,
    riskIds: set<string>, blockedActions: set<string>,
    failure: Option<FailureCode>, resolution: Option<Resolution>)

  datatype Order = Order(
    tenant: int, session: int, createdAt: int,
    status: OrderStatus, draftVersion: int,
    hold: bool, holdReason: Option<Reason>, synthetic: bool)

  datatype Confirmation = Confirmation(invalidated: bool)

  datatype Classification = AutoDraft | Confirm | Handoff | Refuse

  // items stands for every key of the session state that the handoff never writes.
  datatype SessionState = SessionState(
    items: seq<string>,
    draftVersion: int, confirmationValid: bool, submitted: bool, submittedOrder: Option<int>,
    lifecycle: OrderStatus, stage: string,
    handoffCase: Option<int>, handoffStatus: HandoffStatus,
    classification: Classification, reason: Option<Reason>, blockedActions: set<string>,
    confirmedFields: set<string>, unconfirmedFields: set<string>,
    persistenceVersion: int)

  datatype SessionRow = SessionRow(tenant: int, version: int, state: SessionState)

  datatype Db = Db(
    cases: map<int, Case>, caseEvents: seq<Row<HandoffEvent>>, nextCase: int,
    orders: map<int, Order>, orderEvents: seq<Row<OrderEvent>>, nextOrder: int,
    confirmations: map<(int, int), Confirmation>,
    sessions: map<int, SessionRow>)

  datatype Error =
    | HandoffNotFound | SessionNotFound | OrderNotFound | TenantMismatch
    | InvalidHandoffTransition(from: HandoffStatus, to: HandoffStatus)
    | InvalidOrderTransition(current: OrderStatus, target: OrderStatus)
    | ResolutionRequired | FailureCodeRequired | UnsafePayload | SummaryFailed
    | SessionVersionConflict | UniqueViolation | DatabaseWriteFailed
    | SafetyHoldActive | ConfirmationStale

  /** What one unit of work leaves behind; an error leaves the tables as they were. */
  datatype Outcome<+T> = Outcome(db: Db, result: Result<T, Error>)

  datatype Decision = Decision(reason: Reason, riskIds: set<string>, blockedActions: set<string>)

  datatype Cancellation = Cancellation(
    mayContinueDraft: bool, safetyHoldCleared: bool, confirmationRemainsInvalid: bool,
    requiresNewConfirmation: bool, safetyHoldActive: bool, draftVersion: int,
    lifecycle: OrderStatus, persistenceVersion: int, idempotentReplay: bool)

  function Max(a: int, b: int): int { if a >= b then a else b }
}
