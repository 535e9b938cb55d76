/**
 What a message leaves in each field, read field by field where the agents are read
 intent by intent; what a turn does to it; and what a new order starts with.
 */
module ConversationEffects {
  import opened Wrappers
  import opened ConversationModel
  import opened ConversationTurns
  import opened ConversationProperties
  import opened ConversationRollback

  // ---------- field by field ----------

  /** There is a text, and it is not empty. */
  predicate Filled(text: Option<string>) {
    text.Some? && |text.value| > 0
  }

  /** The message puts dishes into the order. */
  predicate Orders(i: Intent, r: Lookup) {
    match i
    case OrderFood | OrderMultiple | SelectRecommendation | OrderByPreference => r.found
    case OrderCategory => 0 < r.count <= 3
    case _ => false
  }

  /** The message changes the dishes that are there. */
  predicate Edits(s: State, i: Intent, r: Lookup) {
    match i
    case RepeatLast | UpdateOption => s.order != [] && r.found
    case UpdateQuantity | ReplaceItem | RemoveItem => r.found
    case RemoveCategoryItems => r.count == 1
    case _ => false
  }

  /** A confirm carries out what is pending, unless that is a choice between dishes. */
  predicate Executes(s: State, i: Intent) {
    i.ConfirmOrder? && !s.submitted && !Filled(s.orderId) && s.pending.Some? && !s.pending.value.PickCandidate?
  }

  /** A confirm with nothing to carry out submits an order that is complete. */
  predicate Submits(s: State, i: Intent) {
    && i.ConfirmOrder? && !s.submitted && !Filled(s.orderId) && (s.pending.None? || s.pending.value.PickCandidate?)
    && s.order != [] && (s.fulfilment.Pickup? || (Filled(s.address) && Filled(s.phone)))
  }

  /** Dishes named while a clear is pending start from an empty order. */
  function OrderLeft(s: State, i: Intent, r: Lookup): seq<Line> {
    if Orders(i, r) then r.operation(if s.pending == Some(ClearAll) then [] else s.order)
    else if Edits(s, i, r) then r.operation(s.order)
    else if i.ClearOrder? then []
    else if !Executes(s, i) then s.order
    else if s.pending.value.ClearAll? then []
    else if s.pending.value.RemoveCategory? || r.found then r.operation(s.order)
    else s.order
  }

  /** The message gives an address that becomes the order's at once. */
  predicate SettlesAddress(s: State, i: Intent, r: Lookup) {
    match i
    case ProvideAddress => Filled(r.address)
    case ReplaceAddress => (s.candidate.Some? || s.stage.CollectingAddress?) && Filled(r.address)
    case _ => false
  }

  /** The message asks about an address, or offers one to be confirmed first. */
  predicate AboutAddress(s: State, i: Intent) {
    match i
    case ConditionalFulfilment | AskEta | AskFee | AskDeliverability => true
    case ReplaceAddress => s.candidate.None? && !s.stage.CollectingAddress?
    case _ => false
  }

  function AddressLeft(s: State, i: Intent, r: Lookup): Option<string> {
    if i.ConfirmAddress? && s.candidate.Some? then s.candidate
    else if SettlesAddress(s, i, r) then r.address
    else if i.ProvideFulfilment? && r.pickup then None
    else s.address
  }

  function CandidateLeft(s: State, i: Intent, r: Lookup): Option<string> {
    if AboutAddress(s, i) && Filled(r.address) then r.address
    else if SettlesAddress(s, i, r) || i.ConfirmAddress? || i.RejectAddress? || i.ContextCorrection? then None
    else s.candidate
  }

  /** Ordering, repeating, counting and replacing withdraw a pending clear or choice; changing an option or removing does not. */
  predicate WithdrawsOffer(s: State, i: Intent, r: Lookup) {
    (Orders(i, r) || (Edits(s, i, r) && (i.RepeatLast? || i.UpdateQuantity? || i.ReplaceItem?)))
    && s.pending.Some? && (s.pending.value.ClearAll? || s.pending.value.PickCandidate?)
  }

  function PendingLeft(s: State, i: Intent, r: Lookup): Option<Pending> {
    if (i.OrderCategory? && r.count > 3) || (i.OrderCategoryGroup? && r.count > 0) then Some(AddItems(r.names))
    else if i.RemoveCategoryItems? && r.count > 1 then Some(RemoveCategory(r.category))
    else if i.ConditionalOrder? then Some(Conditional(r.proposal))
    else if i.ContextCorrection? && r.names != [] && r.found then Some(PickCandidate(r.names))
    else if i.Cancel? && s.pending.None? && s.order != [] then Some(ClearAll)
    else if i.ClearOrder? || i.Cancel? || i.CancelAmbiguous? || Executes(s, i) || WithdrawsOffer(s, i, r) then None
    else s.pending
  }

  function StageLeft(s: State, i: Intent, r: Lookup): Stage {
    if (Orders(i, r) && !i.OrderByPreference?) || i.ClearOrder? || i.ContextCorrection? then Ordering
    else if Executes(s, i) then
      (if s.pending.value.AddItems? || s.pending.value.ClearAll? || (s.pending.value.Conditional? && r.found) then Ordering else s.stage)
    else if Submits(s, i) then SubmittedStage
    else if i.ConfirmOrder? && !s.submitted && !Filled(s.orderId) && s.order != [] then
      (if !Filled(s.address) then CollectingAddress else CollectingPhone)
    else if SettlesAddress(s, i, r) || (i.ConfirmAddress? && s.candidate.Some?) then
      (if Filled(s.phone) then Confirming else CollectingPhone)
    else if i.ProvidePhone? || (i.ProvideFulfilment? && r.pickup) then Confirming
    else if i.RejectAddress? || i.ProvideFulfilment? then CollectingAddress
    else if AboutAddress(s, i) && !i.ReplaceAddress? && !Filled(r.address) then CollectingAddress
    else s.stage
  }

  /** The state with every field as the message leaves it. */
  ghost predicate Left(s: State, i: Intent, r: Lookup, s': State) {
    && s'.order == OrderLeft(s, i, r)
    && s'.fulfilment == (if i.ProvideFulfilment? then (if r.pickup then Pickup else Delivery) else s.fulfilment)
    && s'.address == AddressLeft(s, i, r) && s'.candidate == CandidateLeft(s, i, r)
    && s'.phone == (if i.ProvidePhone? then r.phone else s.phone)
    && s'.pending == PendingLeft(s, i, r) && s'.stage == StageLeft(s, i, r)
    && s'.submitted == (s.submitted || Submits(s, i)) && s'.orderId == (if Submits(s, i) then Some(r.orderId) else s.orderId)
  }

  lemma OrderingLeaves(s: State, i: Intent, r: Lookup)
    requires i.OrderFood? || i.OrderMultiple?
    ensures Left(s, i, r, Patched(s, OrderAgent(s, i, r).patch))
  {
  }

  lemma SelectingLeaves(s: State, i: Intent, r: Lookup)
    requires i.SelectRecommendation? || i.OrderByPreference?
    ensures Left(s, i, r, Patched(s, OrderAgent(s, i, r).patch))
  {
  }

  lemma CategoryLeaves(s: State, i: Intent, r: Lookup)
    requires i.OrderCategory? || i.OrderCategoryGroup?
    ensures Left(s, i, r, Patched(s, OrderAgent(s, i, r).patch))
  {
  }

  lemma CountingLeaves(s: State, i: Intent, r: Lookup)
    requires i.RepeatLast? || i.UpdateQuantity? || i.ReplaceItem?
    ensures Left(s, i, r, Patched(s, OrderAgent(s, i, r).patch))
  {
  }

  lemma EditingLeaves(s: State, i: Intent, r: Lookup)
    requires i.UpdateOption? || i.RemoveItem?
    ensures Left(s, i, r, Patched(s, OrderAgent(s, i, r).patch))
  {
  }

  lemma RemovingLeaves(s: State, i: Intent, r: Lookup)
    requires i.RemoveCategoryItems? || i.ClearOrder?
    ensures Left(s, i, r, Patched(s, OrderAgent(s, i, r).patch))
  {
  }

  lemma OrderDeskLeaves(s: State, i: Intent, r: Lookup)
    requires AgentOf(i).OrderDesk?
    ensures Left(s, i, r, Patched(s, Dispatch(s, i, r).patch))
  {
    match i
    case OrderCategory | OrderCategoryGroup => CategoryLeaves(s, i, r);
    case SelectRecommendation | OrderByPreference => SelectingLeaves(s, i, r);
    case RepeatLast | UpdateQuantity | ReplaceItem => CountingLeaves(s, i, r);
    case UpdateOption | RemoveItem => EditingLeaves(s, i, r);
    case RemoveCategoryItems | ClearOrder => RemovingLeaves(s, i, r);
    case _ => OrderingLeaves(s, i, r);
  }

  lemma AddressLeaves(s: State, i: Intent, r: Lookup)
    requires i.ReplaceAddress? || i.ProvideAddress?
    ensures Left(s, i, r, Patched(s, DeliveryAgent(s, i, r).patch))
  {
  }

  lemma CandidateLeaves(s: State, i: Intent, r: Lookup)
    requires i.ConfirmAddress? || i.RejectAddress?
    ensures Left(s, i, r, Patched(s, DeliveryAgent(s, i, r).patch))
  {
  }

  lemma FulfilmentLeaves(s: State, i: Intent, r: Lookup)
    requires i.ProvideFulfilment? || i.ProvidePhone?
    ensures Left(s, i, r, Patched(s, DeliveryAgent(s, i, r).patch))
  {
  }

  lemma AskingLeaves(s: State, i: Intent, r: Lookup)
    requires i.ConditionalFulfilment? || i.AskEta? || i.AskFee? || i.AskDeliverability?
    ensures Left(s, i, r, Patched(s, DeliveryAgent(s, i, r).patch))
  {
  }

  lemma DeliveryDeskLeaves(s: State, i: Intent, r: Lookup)
    requires AgentOf(i).DeliveryDesk?
    ensures Left(s, i, r, Patched(s, Dispatch(s, i, r).patch))
  {
    match i
    case ConfirmAddress | RejectAddress => CandidateLeaves(s, i, r);
    case ReplaceAddress | ProvideAddress => AddressLeaves(s, i, r);
    case ProvideFulfilment | ProvidePhone => FulfilmentLeaves(s, i, r);
    case _ => AskingLeaves(s, i, r);
  }

  lemma ConfirmationDeskLeaves(s: State, r: Lookup)
    ensures Left(s, ConfirmOrder, r, Patched(s, Dispatch(s, ConfirmOrder, r).patch))
  {
  }

  /** The message is none that changes anything but the topic. */
  predicate Plain(s: State, i: Intent, r: Lookup) {
    && !Orders(i, r) && !Edits(s, i, r) && !SettlesAddress(s, i, r) && !AboutAddress(s, i)
    && !i.OrderCategory? && !i.OrderCategoryGroup? && !i.RemoveCategoryItems? && !i.ClearOrder? && !i.ConfirmOrder?
    && !i.ConfirmAddress? && !i.RejectAddress? && !i.ProvideFulfilment? && !i.ProvidePhone?
    && !i.ContextCorrection? && !i.ConditionalOrder? && !i.Cancel? && !i.CancelAmbiguous?
  }

  lemma TalkIsPlain(s: State, i: Intent, r: Lookup)
    requires AgentOf(i).MenuDesk? || AgentOf(i).RecommendationDesk? || AgentOf(i).NoDesk?
    ensures Plain(s, i, r)
  {
  }

  lemma NothingLeft(s: State, i: Intent, r: Lookup, p: Patch)
    requires Plain(s, i, r)
    requires p == NoPatch.(context := p.context)
    ensures Left(s, i, r, Patched(s, p))
  {
  }

  lemma TalkingLeaves(s: State, i: Intent, r: Lookup)
    requires AgentOf(i).MenuDesk? || AgentOf(i).RecommendationDesk? || AgentOf(i).NoDesk?
    ensures Left(s, i, r, Patched(s, Dispatch(s, i, r).patch))
  {
    TalkIsPlain(s, i, r);
    NothingLeft(s, i, r, Dispatch(s, i, r).patch);
  }

  lemma PendingChanged(s: State, i: Intent, r: Lookup, p: Patch)
    requires i.ConditionalOrder? || i.Cancel? || i.CancelAmbiguous?
    requires p == NoPatch.(pending := p.pending, context := p.context) && Or(p.pending, s.pending) == PendingLeft(s, i, r)
    ensures Left(s, i, r, Patched(s, p))
  {
  }

  lemma CancellingLeaves(s: State, i: Intent, r: Lookup)
    requires i.ConditionalOrder? || i.Cancel? || i.CancelAmbiguous?
    ensures Left(s, i, r, Patched(s, Dispatch(s, i, r).patch))
  {
    PendingChanged(s, i, r, Dispatch(s, i, r).patch);
  }

  lemma CorrectingLeaves(s: State, r: Lookup)
    ensures Left(s, ContextCorrection, r, Patched(s, Dispatch(s, ContextCorrection, r).patch))
  {
  }

  lemma DispatchLeaves(s: State, i: Intent, r: Lookup)
    ensures Left(s, i, r, Patched(s, Dispatch(s, i, r).patch))
  {
    match AgentOf(i)
    case OrderDesk => OrderDeskLeaves(s, i, r);
    case DeliveryDesk => DeliveryDeskLeaves(s, i, r);
    case ConfirmationDesk => ConfirmationDeskLeaves(s, r);
    case MenuDesk | RecommendationDesk | NoDesk => TalkingLeaves(s, i, r);
    case ContextDesk => CorrectingLeaves(s, r);
    case _ => CancellingLeaves(s, i, r);
  }

  /** No agent's patch for a read-only intent is ever refused. */
  lemma NothingIsRefused(s: State, i: Intent, r: Lookup)
    ensures Allowed(s, i, Dispatch(s, i, r).patch)
  {
    if AgentOf(i).DeliveryDesk? && NoMutation(i) {
      var p := DeliveryAgent(s, i, r).patch;
      assert p.order.None? && p.address.None? && p.phone.None?;
    }
  }

  /** A child of a composite message leaves every field as the message does on its own. */
  lemma ExecuteLeaves(s: State, i: Intent, r: Lookup)
    ensures Left(s, i, r, Execute(s, Single(i, r)))
  {
    DispatchLeaves(s, i, r);
    NothingIsRefused(s, i, r);
  }

  // ---------- a turn ----------

  /** The intents that ask, chat or put off. */
  predicate OnlyTalks(i: Intent) {
    match i
    case AskMenu | AskCategory | AskCategoryGroup | AskAvailability | AskPrice | AskOption | AskIngredient | AskAllergen
       | AskOrderSummary | AskEta | AskFee | AskDeliverability | Smalltalk | RejectRequest | HoldOrder => true
    case _ => false
  }

  /** Talking, asking for a recommendation or not being understood drops a proposed clear. */
  predicate ChangesSubject(i: Intent) {
    match i
    case AskRecommendation | AskRecommendationByCategory | AskRanked | AskByPreference | AskByBudget | AskBySpeed | Fallback => true
    case _ => OnlyTalks(i)
  }

  /** What a message finds pending: a clear until the subject changes, a choice until it is passed over, other proposals to answer at once. */
  predicate Outlives(p: Pending, t: Turn) {
    match p
    case ClearAll => !(t.said.Single? && ChangesSubject(t.said.intent))
    case PickCandidate(_) => !(t.movesOn && t.said.Single? && OnlyTalks(t.said.intent))
    case _ => t.said.Single? && (t.said.intent.ConfirmOrder? || t.said.intent.Cancel? || t.said.intent.CancelAmbiguous?)
  }

  predicate KeepsCandidate(t: Turn) {
    t.said.Single? &&
    match t.said.intent
    case ConfirmAddress | RejectAddress | ReplaceAddress | Smalltalk | Fallback => true
    case _ => false
  }

  /** What the agents see of a turn. */
  function Found(s: State, t: Turn): State {
    s.(pending := if s.pending.Some? && Outlives(s.pending.value, t) then s.pending else None,
       candidate := if KeepsCandidate(t) then s.candidate else None)
  }

  lemma PreparedFinds(s: State, t: Turn)
    ensures Prepared(s, t) == Found(s, t)
  {
    if t.said.Single? { IntentsAre(t.said.intent); }
    PreparedOnlyClears(s, t);
    assert Prepared(s, t).pending == Found(s, t).pending;
    assert Prepared(s, t).candidate == Found(s, t).candidate;
  }

  lemma IntentsAre(i: Intent)
    ensures NoMutation(i) == OnlyTalks(i) && (NoMutation(i) || i.Fallback? || Recommends(i)) == ChangesSubject(i)
    ensures KeepsAddressCandidate(i)
        == (i.ConfirmAddress? || i.RejectAddress? || i.ReplaceAddress? || i.Smalltalk? || i.Fallback?)
  {
  }

  lemma RecordLeaves(before: State, s: State, i: Intent, r: Lookup, s1: State, confirmed: bool)
    requires Left(s, i, r, s1)
    ensures Left(s, i, r, RecordSnapshot(before, s1, confirmed))
  {
    RecordKeeps(before, s1, confirmed);
  }

  lemma AnswerLeaves(before: State, s: State, i: Intent, r: Lookup, disowns: bool)
    requires !RollsBack(s, i, disowns)
    ensures Left(s, i, r, Answer(before, s, i, r, disowns))
  {
    var a := Dispatch(s, i, r);
    DispatchLeaves(s, i, r);
    NothingIsRefused(s, i, r);
    AnswerRecords(before, s, i, r, disowns);
    RecordLeaves(before, s, i, r, Patched(s, a.patch), a.handler.SubmitOrder?);
  }

  /**
   After a turn with a single message that takes nothing back, every field is what the
   message leaves of the state it found: stale proposals withdrawn, an unconfirmed
   address candidate dropped unless the message is about it.
   */
  lemma TurnLeaves(s: State, t: Turn)
    requires !Locked(s) && t.said.Single? && !RollsBack(s, t.said.intent, t.disowns)
    ensures Left(Found(s, t), t.said.intent, t.said.lookup, Take(s, t))
  {
    PreparedFinds(s, t);
    AnswerLeaves(s, Prepared(s, t), t.said.intent, t.said.lookup, t.disowns);
    AdvanceKeeps(s, Answered(s, t));
  }

  lemma {:induction false} ExecuteAllSnoc(s: State, said: seq<Interpretation>, last: Interpretation)
    ensures ExecuteAll(s, said + [last]) == Execute(ExecuteAll(s, said), last)
    decreases |said|
  {
    if said == [] {
      assert [last][1..] == [] && said + [last] == [last];
      assert ExecuteAll(Execute(s, last), []) == Execute(s, last);
    } else {
      assert (said + [last])[1..] == said[1..] + [last];
      ExecuteAllSnoc(Execute(s, said[0]), said[1..], last);
    }
  }

  /** The last child of a composite message leaves every field as the message does on its own, after the children before it. */
  lemma CompositeLeaves(s: State, said: seq<Interpretation>, i: Intent, r: Lookup)
    ensures Left(ExecuteAll(s, said), i, r, ExecuteAll(s, said + [Single(i, r)]))
  {
    ExecuteAllSnoc(s, said, Single(i, r));
    ExecuteLeaves(ExecuteAll(s, said), i, r);
  }

  // ---------- a new order ----------

  /** A new order after a submitted one starts with nothing of it. */
  lemma NewOrderStartsClean(s: State, t: Turn)
    requires Locked(s) && t.command.NewOrderCommand?
    ensures var s' := Take(s, t);
            && s'.order == [] && s'.fulfilment.Delivery? && s'.address.None? && s'.candidate.None? && s'.phone.None?
            && s'.pending.None? && s'.snapshot.None? && !s'.snapshotConfirmed && s'.stage.Ordering? && s'.draftVersion == 1
            && !s'.submitted && s'.orderId.None? && !s'.confirmationValid && s'.lifecycle.DraftOrder? && !Locked(s')
  {
  }

  /** Whatever was submitted, confirming right after starting a new order submits nothing and orders nothing. */
  lemma ConfirmAfterNewOrder(turns: seq<Turn>, begin: Turn, confirm: Turn)
    requires Locked(Run(FreshState, turns)) && begin.command.NewOrderCommand?
    requires confirm.said.Single? && confirm.said.intent.ConfirmOrder?
    ensures var s := Run(FreshState, turns + [begin, confirm]); !s.submitted && s.orderId.None? && s.order == [] && s.draftVersion == 1
  {
    var begun := turns + [begin];
    assert begun[..|begun| - 1] == turns;
    assert turns + [begin, confirm] == begun + [confirm] && (begun + [confirm])[..|begun + [confirm]| - 1] == begun;
    var s := Run(FreshState, begun);
    NewOrderStartsClean(Run(FreshState, turns), begin);
    TurnLeaves(s, confirm);
    VersionMoves(s, confirm);
  }
}
