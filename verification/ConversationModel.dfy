/**
 The conversation state and what each agent proposes to change in it. The message's
 interpretation and the results of menu, order and delivery look-ups are inputs.
 */
module ConversationModel {
  import opened Wrappers

  datatype Line = Line(item: int, quantity: nat, detail: string)

  datatype Fulfilment = Delivery | Pickup

  datatype Stage = Ordering | Confirming | CollectingAddress | CollectingPhone | SubmittedStage

  datatype Lifecycle = DraftOrder | CustomerConfirmed

  /** What a later confirm would execute. */
  datatype Pending =
    | AddItems(names: seq<string>)
    | RemoveCategory(category: string)
    | ClearAll
    | Conditional(proposal: int)
    | PickCandidate(candidates: seq<string>)

  /** The five fields a rollback can restore. */
  datatype Field = OrderField | AddressField | PhoneField | SubmittedField | OrderIdField

  datatype Five = Five(order: seq<Line>, address: Option<string>, phone: Option<string>, submitted: bool, orderId: Option<string>)

  /** A recorded mutation: which fields changed, and all five as they were. */
  datatype Snapshot = Snapshot(changed: set<Field>, before: Five, confirmed: bool)

  /** The last field stands for what was viewed, mentioned, preferred and recommended. */
  datatype State = State(
    draftVersion: int, lifecycle: Lifecycle, confirmationValid: bool, stage: Stage,
    order: seq<Line>, fulfilment: Fulfilment, address: Option<string>, candidate: Option<string>, phone: Option<string>,
    submitted: bool, orderId: Option<string>,
    pending: Option<Pending>, snapshot: Option<Snapshot>, snapshotConfirmed: bool, context: int)

  const FreshState := State(1, DraftOrder, false, Ordering, [], Delivery, None, None, None, false, None, None, None, false, 0)

  /** The keys an agent sets; None leaves the field alone. */
  datatype Patch = Patch(
    order: Option<seq<Line>>, fulfilment: Option<Fulfilment>, address: Option<Option<string>>, candidate: Option<Option<string>>,
    phone: Option<Option<string>>, stage: Option<Stage>, pending: Option<Option<Pending>>, submitted: Option<string>,
    dropSnapshot: bool, context: Option<int>)

  const NoPatch := Patch(None, None, None, None, None, None, None, None, false, None)

  function Or<T>(update: Option<T>, current: T): T {
    if update.Some? then update.value else current
  }

  function Patched(s: State, p: Patch): State {
    s.(order := Or(p.order, s.order), fulfilment := Or(p.fulfilment, s.fulfilment), address := Or(p.address, s.address),
       candidate := Or(p.candidate, s.candidate), phone := Or(p.phone, s.phone), stage := Or(p.stage, s.stage),
       pending := Or(p.pending, s.pending), context := Or(p.context, s.context),
       submitted := s.submitted || p.submitted.Some?, orderId := if p.submitted.Some? then p.submitted else s.orderId,
       lifecycle := if p.submitted.Some? then CustomerConfirmed else s.lifecycle,
       confirmationValid := s.confirmationValid || p.submitted.Some?,
       snapshot := if p.dropSnapshot then None else s.snapshot,
       snapshotConfirmed := s.snapshotConfirmed && !p.dropSnapshot)
  }

  /** A text field that is set to something. */
  predicate Given(text: Option<string>) {
    text.Some? && text.value != ""
  }

  // ---------- intents ----------

  datatype Intent =
    | AskMenu | AskCategory | AskCategoryGroup | AskAvailability | AskPrice | AskOption | AskIngredient | AskAllergen | AskOrderSummary
    | AskEta | AskFee | AskDeliverability | Smalltalk | RejectRequest | HoldOrder
    | AskRecommendation | AskRecommendationByCategory | AskRanked | AskByPreference | AskByBudget | AskBySpeed
    | OrderFood | OrderMultiple | OrderCategory | OrderCategoryGroup | RepeatLast | SelectRecommendation | OrderByPreference
    | UpdateOption | UpdateQuantity | RemoveItem | RemoveCategoryItems | ReplaceItem | ClearOrder
    | ProvideFulfilment | ProvideAddress | ProvidePhone | ConfirmAddress | RejectAddress | ReplaceAddress | ConditionalFulfilment
    | ContextCorrection | ConditionalOrder | ConfirmOrder | Cancel | CancelAmbiguous | Fallback | Unknown

  predicate NoMutation(i: Intent) {
    i in {AskMenu, AskCategory, AskCategoryGroup, AskAvailability, AskPrice, AskOption, AskIngredient, AskAllergen, AskOrderSummary,
          AskEta, AskFee, AskDeliverability, Smalltalk, RejectRequest, HoldOrder}
  }

  predicate Recommends(i: Intent) {
    i in {AskRecommendation, AskRecommendationByCategory, AskRanked, AskByPreference, AskByBudget, AskBySpeed}
  }

  predicate KeepsAddressCandidate(i: Intent) {
    i in {ConfirmAddress, RejectAddress, ReplaceAddress, Smalltalk, Fallback}
  }

  /**
   What look-ups and parsers answered for a message. The order operation is any function
   from the order it is given to the order it returns.
   */
  datatype Lookup = Lookup(
    found: bool, count: nat, names: seq<string>, category: string, operation: seq<Line> -> seq<Line>,
    address: Option<string>, phone: Option<string>, pickup: bool, proposal: int, orderId: string, context: Option<int>)

  datatype Interpretation =
    | Single(intent: Intent, lookup: Lookup)
    | Composite(children: seq<Interpretation>)

  // ---------- the agents ----------

  datatype Handler = SubmitOrder | ClearOrderHandler | OtherHandler

  datatype Action = Action(handler: Handler, patch: Patch)

  function Does(p: Patch): Action {
    Action(OtherHandler, p)
  }

  /** Ordering while a clear is pending starts from an empty order. */
  function RestartOrder(s: State): seq<Line> {
    if s.pending == Some(ClearAll) then [] else s.order
  }

  predicate StalePending(s: State) {
    s.pending.Some? && (s.pending.value.ClearAll? || s.pending.value.PickCandidate?)
  }

  function ClearStale(s: State, p: Patch): Patch {
    if StalePending(s) then p.(pending := Some(None)) else p
  }

  function Ordered(s: State, r: Lookup): Patch {
    ClearStale(s, NoPatch.(order := Some(r.operation(RestartOrder(s))), stage := Some(Ordering), context := r.context))
  }

  function Changed(s: State, r: Lookup): Patch {
    NoPatch.(order := Some(r.operation(s.order)), context := r.context)
  }

  function OrderAgent(s: State, i: Intent, r: Lookup): Action {
    match i
    case OrderFood | OrderMultiple | SelectRecommendation => Does(if r.found then Ordered(s, r) else NoPatch)
    case OrderByPreference => Does(if r.found then Ordered(s, r).(stage := None) else NoPatch)
    case OrderCategory =>
      Does(if r.count == 0 then NoPatch
           else if r.count > 3 then NoPatch.(pending := Some(Some(AddItems(r.names))), context := r.context)
           else Ordered(s, r))
    case OrderCategoryGroup =>
      Does(if r.count == 0 then NoPatch else NoPatch.(pending := Some(Some(AddItems(r.names))), context := r.context))
    case RepeatLast => Does(if s.order != [] && r.found then ClearStale(s, Changed(s, r)) else NoPatch)
    case UpdateQuantity | ReplaceItem => Does(if r.found then ClearStale(s, Changed(s, r)) else NoPatch)
    case UpdateOption =>
      Does(if s.order == [] then NoPatch.(context := r.context) else if r.found then Changed(s, r) else NoPatch)
    case RemoveItem =>
      Does(if r.found then NoPatch.(order := Some(r.operation(s.order))) else NoPatch.(context := r.context))
    case RemoveCategoryItems =>
      Does(if r.count == 0 then NoPatch.(context := r.context)
           else if r.count > 1 then NoPatch.(pending := Some(Some(RemoveCategory(r.category))))
           else NoPatch.(order := Some(r.operation(s.order))))
    case _ =>
      Action(ClearOrderHandler,
             NoPatch.(order := Some([]), pending := Some(None), stage := Some(Ordering), dropSnapshot := true, context := r.context))
  }

  function SetAddress(s: State, address: Option<string>): Patch {
    NoPatch.(address := Some(address), candidate := Some(None), stage := Some(if Given(s.phone) then Confirming else CollectingPhone))
  }

  function ProvidedAddress(s: State, address: Option<string>): Patch {
    if Given(address) then SetAddress(s, address) else NoPatch
  }

  function DeliveryAgent(s: State, i: Intent, r: Lookup): Action {
    match i
    case ConfirmAddress => Does(if s.candidate.Some? then SetAddress(s, s.candidate) else NoPatch)
    case RejectAddress => Does(NoPatch.(candidate := Some(None), stage := Some(CollectingAddress)))
    case ProvideFulfilment =>
      Does(if r.pickup then NoPatch.(fulfilment := Some(Pickup), stage := Some(Confirming), address := Some(None))
           else NoPatch.(fulfilment := Some(Delivery), stage := Some(CollectingAddress)))
    case ReplaceAddress =>
      Does(if s.candidate.Some? || s.stage == CollectingAddress then ProvidedAddress(s, r.address)
           else if !Given(r.address) then NoPatch
           else NoPatch.(candidate := Some(r.address), context := r.context))
    case ProvideAddress => Does(ProvidedAddress(s, r.address))
    case ProvidePhone => Does(NoPatch.(phone := Some(r.phone), stage := Some(Confirming)))
    case _ =>
      Does(if !Given(r.address) then NoPatch.(stage := Some(CollectingAddress)) else NoPatch.(candidate := Some(r.address)))
  }

  function ContextAgent(r: Lookup): Action {
    var p := NoPatch.(candidate := Some(None), stage := Some(Ordering));
    Does(if r.names != [] && r.found then p.(pending := Some(Some(PickCandidate(r.names)))) else p)
  }

  /** What a confirm executes: the pending action, or the submission. */
  function ConfirmationAgent(s: State, r: Lookup): Action {
    if s.submitted || Given(s.orderId) then Does(NoPatch)
    else if s.pending.Some? && !s.pending.value.PickCandidate? then Does(ConfirmedPatch(s, s.pending.value, r))
    else if s.order == [] then Does(NoPatch)
    else if s.fulfilment == Delivery && !Given(s.address) then Does(NoPatch.(stage := Some(CollectingAddress)))
    else if s.fulfilment == Delivery && !Given(s.phone) then Does(NoPatch.(stage := Some(CollectingPhone)))
    else Action(SubmitOrder, NoPatch.(submitted := Some(r.orderId), stage := Some(SubmittedStage)))
  }

  function ConfirmedPatch(s: State, pending: Pending, r: Lookup): Patch {
    match pending
    case AddItems(_) =>
      NoPatch.(order := Some(if r.found then r.operation(s.order) else s.order), pending := Some(None), stage := Some(Ordering))
    case RemoveCategory(_) => NoPatch.(order := Some(r.operation(s.order)), pending := Some(None))
    case Conditional(_) =>
      if !r.found then NoPatch.(pending := Some(None))
      else NoPatch.(order := Some(r.operation(s.order)), pending := Some(None), stage := Some(Ordering), context := r.context)
    case _ => NoPatch.(order := Some([]), pending := Some(None), stage := Some(Ordering), dropSnapshot := true)
  }

  function CancelAction(s: State, r: Lookup): Action {
    if s.pending.Some? then Does(NoPatch.(pending := Some(None)))
    else if s.order != [] then Does(NoPatch.(pending := Some(Some(ClearAll))))
    else Does(NoPatch.(pending := Some(None), context := r.context))
  }

  datatype Agent = MenuDesk | RecommendationDesk | OrderDesk | DeliveryDesk | ContextDesk | ConfirmationDesk | ConditionalDesk
                 | CancelDesk | CancelAmbiguousDesk | NoDesk

  /** Which agent answers an intent. */
  function AgentOf(i: Intent): Agent {
    match i
    case AskCategory | AskCategoryGroup => MenuDesk
    case AskRecommendation | AskRecommendationByCategory | AskRanked | AskByPreference | AskByBudget | AskBySpeed => RecommendationDesk
    case OrderFood | OrderMultiple | OrderCategory | OrderCategoryGroup | RepeatLast | SelectRecommendation | OrderByPreference
       | UpdateOption | UpdateQuantity | RemoveItem | RemoveCategoryItems | ReplaceItem | ClearOrder => OrderDesk
    case ProvideFulfilment | ProvideAddress | ProvidePhone | ConfirmAddress | RejectAddress | ReplaceAddress | ConditionalFulfilment
       | AskEta | AskFee | AskDeliverability => DeliveryDesk
    case ContextCorrection => ContextDesk
    case ConfirmOrder => ConfirmationDesk
    case ConditionalOrder => ConditionalDesk
    case Cancel => CancelDesk
    case CancelAmbiguous => CancelAmbiguousDesk
    case _ => NoDesk
  }

  /** What the agent for an intent proposes. Menu questions and small talk propose nothing but a change of topic. */
  function Dispatch(s: State, i: Intent, r: Lookup): Action {
    match AgentOf(i)
    case MenuDesk => Does(NoPatch.(context := r.context))
    case RecommendationDesk => Does(NoPatch.(context := r.context))
    case OrderDesk => OrderAgent(s, i, r)
    case DeliveryDesk => DeliveryAgent(s, i, r)
    case ContextDesk => ContextAgent(r)
    case ConfirmationDesk => ConfirmationAgent(s, r)
    case ConditionalDesk => Does(NoPatch.(pending := Some(Some(Conditional(r.proposal))), context := r.context))
    case CancelDesk => CancelAction(s, r)
    case CancelAmbiguousDesk => Does(NoPatch.(pending := Some(None)))
    case NoDesk => Does(NoPatch)
  }

  /** A read-only intent may not change the order, the address or the phone. */
  predicate Allowed(s: State, i: Intent, p: Patch) {
    NoMutation(i) ==>
      && (p.order.Some? ==> p.order.value == s.order)
      && (p.address.Some? ==> p.address.value == s.address)
      && (p.phone.Some? ==> p.phone.value == s.phone)
  }
}
