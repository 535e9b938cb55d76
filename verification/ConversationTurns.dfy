/** One turn of the conversation, and runs of turns. */
module ConversationTurns {
  import opened Wrappers
  import opened ConversationModel

  /** How a message reads once the order is submitted. */
  datatype Command = NewOrderCommand | OtherCommand

  /**
   A turn: the interpretation, whether the message disowns the last change, whether it
   moves on from an ambiguous dish, and how it reads to a submitted order.
   */
  datatype Turn = Turn(said: Interpretation, disowns: bool, movesOn: bool, command: Command)

  predicate Locked(s: State) {
    s.submitted || Given(s.orderId)
  }

  // ---------- stale pending state ----------

  function TopIntent(t: Turn): Option<Intent> {
    if t.said.Single? then Some(t.said.intent) else None
  }

  /** Asking, chatting or not being understood withdraws a proposed clear. */
  predicate WithdrawsClear(i: Option<Intent>) {
    i.Some? && (NoMutation(i.value) || i.value.Fallback? || Recommends(i.value))
  }

  predicate Expires(p: Pending, i: Option<Intent>) {
    if i.Some? && (i.value.ConfirmOrder? || i.value.Cancel? || i.value.CancelAmbiguous?) then false
    else if p.ClearAll? then WithdrawsClear(i)
    else p.AddItems? || p.RemoveCategory? || p.Conditional?
  }

  /** The state the agents see: contextual and expiry clean-up done. */
  function Prepared(s: State, t: Turn): State {
    var i := TopIntent(t);
    var s1 := if t.movesOn && i.Some? && NoMutation(i.value) && s.pending.Some? && s.pending.value.PickCandidate?
              then s.(pending := None) else s;
    var s2 := if s1.pending.Some? && Expires(s1.pending.value, i) then s1.(pending := None) else s1;
    if s2.candidate.Some? && !(i.Some? && KeepsAddressCandidate(i.value)) then s2.(candidate := None) else s2
  }

  // ---------- snapshots and rollback ----------

  function FiveOf(s: State): Five {
    Five(s.order, s.address, s.phone, s.submitted, s.orderId)
  }

  function ChangedFields(a: Five, b: Five): set<Field> {
    (if a.order != b.order then {OrderField} else {}) + (if a.address != b.address then {AddressField} else {})
    + (if a.phone != b.phone then {PhoneField} else {}) + (if a.submitted != b.submitted then {SubmittedField} else {})
    + (if a.orderId != b.orderId then {OrderIdField} else {})
  }

  function RecordSnapshot(before: State, s: State, confirmed: bool): State {
    var changed := ChangedFields(FiveOf(before), FiveOf(s));
    if changed == {} then s
    else if before.order != [] && s.order == [] then s.(snapshot := None, snapshotConfirmed := false)
    else s.(snapshot := Some(Snapshot(changed, FiveOf(before), confirmed)), snapshotConfirmed := confirmed)
  }

  predicate CanRollBack(s: State) {
    s.snapshot.Some? && !s.snapshot.value.confirmed && s.snapshot.value.changed != {}
  }

  function RollBack(s: State, shot: Snapshot): State {
    var b := shot.before;
    s.(order := if OrderField in shot.changed then b.order else s.order,
       address := if AddressField in shot.changed then b.address else s.address,
       phone := if PhoneField in shot.changed then b.phone else s.phone,
       submitted := if SubmittedField in shot.changed then b.submitted else s.submitted,
       orderId := if OrderIdField in shot.changed then b.orderId else s.orderId,
       snapshot := None, snapshotConfirmed := false, pending := None)
  }

  // ---------- executing an interpretation ----------

  /** A child of a composite message: dispatched, validated and applied at once. */
  function Execute(s: State, said: Interpretation): State
    decreases said, 0
  {
    match said
    case Single(i, r) =>
      var p := Dispatch(s, i, r).patch;
      if Allowed(s, i, p) then Patched(s, p) else s
    case Composite(children) => ExecuteAll(s, children)
  }

  function ExecuteAll(s: State, said: seq<Interpretation>): State
    decreases said, 1
  {
    if said == [] then s else ExecuteAll(Execute(s, said[0]), said[1..])
  }

  /** A single intent at the top level, with its rollback or snapshot. */
  function Answer(before: State, s: State, i: Intent, r: Lookup, disowns: bool): State {
    var a := Dispatch(s, i, r);
    if !Allowed(s, i, a.patch) then s
    else
      var applied := Patched(s, a.patch);
      if i.ConditionalOrder? then applied
      else if i.ContextCorrection? && disowns && CanRollBack(applied) then RollBack(applied, applied.snapshot.value)
      else if a.handler.ClearOrderHandler? then applied
      else RecordSnapshot(before, applied, a.handler.SubmitOrder?)
  }

  predicate SameMaterial(a: State, b: State) {
    a.order == b.order && a.fulfilment == b.fulfilment && a.address == b.address && a.phone == b.phone
  }

  function AdvanceVersion(before: State, s: State): State {
    if !SameMaterial(before, s) && !s.submitted
    then s.(draftVersion := if before.draftVersion + 1 > s.draftVersion then before.draftVersion + 1 else s.draftVersion,
            confirmationValid := false, lifecycle := DraftOrder)
    else s
  }

  function Answered(s: State, t: Turn): State {
    match t.said
    case Single(i, r) => Answer(s, Prepared(s, t), i, r, t.disowns)
    case Composite(children) => RecordSnapshot(s, ExecuteAll(Prepared(s, t), children), false)
  }

  function Take(s: State, t: Turn): State {
    if Locked(s) then (if t.command.NewOrderCommand? then FreshState else s)
    else AdvanceVersion(s, Answered(s, t))
  }

  function Run(s: State, turns: seq<Turn>): State
    decreases |turns|
  {
    if turns == [] then s else Take(Run(s, turns[..|turns| - 1]), turns[|turns| - 1])
  }
}
