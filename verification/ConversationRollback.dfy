/** Taking back the last change restores exactly what it changed. */
module ConversationRollback {
  import opened Wrappers
  import opened ConversationModel
  import opened ConversationTurns
  import opened ConversationProperties

  /** The snapshot of a state records the difference to the state it was taken from. */
  ghost predicate LiveSnapshot(s: State) {
    s.snapshot.Some? ==>
      s.snapshot.value.changed != {} && s.snapshot.value.changed == ChangedFields(s.snapshot.value.before, FiveOf(s))
  }

  // ---------- which turns forget the snapshot ----------

  /** Executing the interpretation clears the order, and with it what could be taken back. */
  function Forgets(s: State, said: Interpretation): bool
    decreases said, 0
  {
    match said
    case Single(i, r) => Dispatch(s, i, r).patch.dropSnapshot
    case Composite(children) => AnyForgets(s, children)
  }

  function AnyForgets(s: State, said: seq<Interpretation>): bool
    decreases said, 1
  {
    said != [] && (Forgets(s, said[0]) || AnyForgets(Execute(s, said[0]), said[1..]))
  }

  predicate TurnForgets(s: State, t: Turn) {
    !Locked(s) && Forgets(Prepared(s, t), t.said)
  }

  lemma OnlyClearsForget(s: State, i: Intent, r: Lookup)
    ensures Dispatch(s, i, r).patch.dropSnapshot <==>
            i.ClearOrder? || (i.ConfirmOrder? && s.pending == Some(ClearAll) && !Locked(s))
    ensures Dispatch(s, i, r).handler.ClearOrderHandler? <==> i.ClearOrder?
    ensures Dispatch(s, i, r).patch.dropSnapshot ==> !NoMutation(i)
  {
    if AgentOf(i).OrderDesk? { OrderAgentForgets(s, i, r); }
    if AgentOf(i).DeliveryDesk? { DeliveryAgentForgets(s, i, r); }
  }

  lemma OrderAgentForgets(s: State, i: Intent, r: Lookup)
    requires AgentOf(i).OrderDesk?
    ensures OrderAgent(s, i, r).patch.dropSnapshot <==> i.ClearOrder?
    ensures OrderAgent(s, i, r).handler.ClearOrderHandler? <==> i.ClearOrder?
  {
  }

  lemma DeliveryAgentForgets(s: State, i: Intent, r: Lookup)
    ensures !DeliveryAgent(s, i, r).patch.dropSnapshot && DeliveryAgent(s, i, r).handler.OtherHandler?
  {
  }

  lemma {:induction false} ExecuteSnapshot(s: State, said: Interpretation)
    ensures Execute(s, said).snapshot == if Forgets(s, said) then None else s.snapshot
    decreases said, 0
  {
    match said
    case Single(i, r) => OnlyClearsForget(s, i, r);
    case Composite(children) => ExecuteAllSnapshot(s, children);
  }

  lemma {:induction false} ExecuteAllSnapshot(s: State, said: seq<Interpretation>)
    ensures ExecuteAll(s, said).snapshot == if AnyForgets(s, said) then None else s.snapshot
    decreases said, 1
  {
    if said != [] {
      ExecuteSnapshot(s, said[0]);
      ExecuteAllSnapshot(Execute(s, said[0]), said[1..]);
    }
  }

  // ---------- a single message ----------

  predicate RollsBack(s: State, i: Intent, disowns: bool) {
    i.ContextCorrection? && disowns && CanRollBack(s)
  }

  lemma ContextPatch(r: Lookup)
    ensures var p := ContextAgent(r).patch;
      p.order.None? && p.fulfilment.None? && p.address.None? && p.phone.None? && p.submitted.None? && !p.dropSnapshot
  {
  }

  /** A correction that may roll back does, on top of its own patch. */
  lemma AnswerRollsBack(before: State, s: State, i: Intent, r: Lookup, disowns: bool)
    requires RollsBack(s, i, disowns)
    ensures Answer(before, s, i, r, disowns) == RollBack(Patched(s, ContextAgent(r).patch), s.snapshot.value)
  {
    ContextPatch(r);
  }

  /** Any other message is recorded, unless it clears, is refused or is a conditional order. */
  lemma AnswerRecords(before: State, s: State, i: Intent, r: Lookup, disowns: bool)
    requires !RollsBack(s, i, disowns)
    ensures var a := Dispatch(s, i, r);
      Answer(before, s, i, r, disowns) ==
      if !Allowed(s, i, a.patch) then s
      else if i.ConditionalOrder? || a.handler.ClearOrderHandler? then Patched(s, a.patch)
      else RecordSnapshot(before, Patched(s, a.patch), a.handler.SubmitOrder?)
  {
    if i.ContextCorrection? { ContextPatch(r); }
  }

  lemma RollBackChanges(s: State, shot: Snapshot)
    requires shot.changed != {} && shot.changed == ChangedFields(shot.before, FiveOf(s))
    ensures FiveOf(RollBack(s, shot)) == shot.before && shot.before != FiveOf(s)
  {
  }

  lemma SingleQuiet(before: State, s: State, i: Intent, r: Lookup, disowns: bool)
    requires LiveSnapshot(s) && FiveOf(before) == FiveOf(s)
    requires FiveOf(Answer(before, s, i, r, disowns)) == FiveOf(s)
    ensures Answer(before, s, i, r, disowns).snapshot == if Dispatch(s, i, r).patch.dropSnapshot then None else s.snapshot
    ensures !RollsBack(s, i, disowns)
  {
    if RollsBack(s, i, disowns) {
      AnswerRollsBack(before, s, i, r, disowns);
      ContextPatch(r);
      RollBackChanges(Patched(s, ContextAgent(r).patch), s.snapshot.value);
    } else {
      AnswerRecords(before, s, i, r, disowns);
      OnlyClearsForget(s, i, r);
    }
  }

  // ---------- turns that leave the five fields alone ----------

  lemma QuietTurn(s: State, t: Turn)
    requires !Locked(s) && LiveSnapshot(s) && FiveOf(Take(s, t)) == FiveOf(s)
    ensures Take(s, t).snapshot == if TurnForgets(s, t) then None else s.snapshot
    ensures LiveSnapshot(Take(s, t))
  {
    var prepared := Prepared(s, t);
    PreparedOnlyClears(s, t);
    AdvanceKeeps(s, Answered(s, t));
    match t.said
    case Single(i, r) => SingleQuiet(s, prepared, i, r, t.disowns);
    case Composite(children) => ExecuteAllSnapshot(prepared, children);
  }

  ghost predicate Quiet(s: State, turns: seq<Turn>) {
    forall k :: 0 <= k <= |turns| ==> FiveOf(Run(s, turns[..k])) == FiveOf(s)
  }

  ghost predicate Sometime(p: (seq<Turn>, Turn) -> bool, turns: seq<Turn>) {
    exists k :: 0 <= k < |turns| && p(turns[..k], turns[k])
  }

  lemma SometimeExtends(p: (seq<Turn>, Turn) -> bool, turns: seq<Turn>)
    requires turns != []
    ensures Sometime(p, turns) <==> Sometime(p, turns[..|turns| - 1]) || p(turns[..|turns| - 1], turns[|turns| - 1])
  {
    var n := |turns| - 1;
    var init := turns[..n];
    assert forall k :: 0 <= k < n ==> init[..k] == turns[..k];
    if Sometime(p, init) {
      var k :| 0 <= k < n && p(init[..k], init[k]);
      assert p(turns[..k], turns[k]);
    }
  }

  function ForgetsAfter(s: State): (seq<Turn>, Turn) -> bool {
    (past, t) => TurnForgets(Run(s, past), t)
  }

  /** Some turn cleared the order on the way, which on an already empty order changes none of the five fields. */
  ghost predicate Forgotten(s: State, turns: seq<Turn>) {
    Sometime(ForgetsAfter(s), turns)
  }

  lemma QuietPrefix(s: State, turns: seq<Turn>)
    requires turns != [] && Quiet(s, turns)
    ensures Quiet(s, turns[..|turns| - 1]) && FiveOf(Run(s, turns)) == FiveOf(s)
  {
    var init := turns[..|turns| - 1];
    assert turns[..|turns|] == turns;
    forall k | 0 <= k <= |init| ensures FiveOf(Run(s, init[..k])) == FiveOf(s) {
      assert init[..k] == turns[..k];
    }
  }

  lemma {:induction false} QuietRun(s: State, turns: seq<Turn>)
    requires !Locked(s) && LiveSnapshot(s) && Quiet(s, turns)
    ensures !Locked(Run(s, turns)) && FiveOf(Run(s, turns)) == FiveOf(s) && LiveSnapshot(Run(s, turns))
    ensures Run(s, turns).snapshot == if Forgotten(s, turns) then None else s.snapshot
    decreases |turns|
  {
    if turns != [] {
      var init := turns[..|turns| - 1];
      QuietPrefix(s, turns);
      QuietRun(s, init);
      QuietTurn(Run(s, init), turns[|turns| - 1]);
      SometimeExtends(ForgetsAfter(s), turns);
    }
  }

  // ---------- taking back the last change ----------

  /** A message that disowns the last change. */
  function Correction(r: Lookup, movesOn: bool): Turn {
    Turn(Single(ContextCorrection, r), true, movesOn, OtherCommand)
  }

  /**
   An unconfirmed change of a draft: not itself a rollback, a single clear or a submission, and
   not emptying the order. A confirm that executes what was proposed is one of them.
   */
  ghost predicate Mutates(s: State, t: Turn) {
    && !Locked(s) && FiveOf(Take(s, t)) != FiveOf(s) && !(s.order != [] && Take(s, t).order == [])
    && (t.said.Single? ==>
          && !t.said.intent.ClearOrder? && !RollsBack(s, t.said.intent, t.disowns)
          && !Dispatch(Prepared(s, t), t.said.intent, t.said.lookup).handler.SubmitOrder?)
  }

  lemma RecordedBefore(before: State, s: State)
    requires FiveOf(s) != FiveOf(before) && !(before.order != [] && s.order == [])
    ensures var s' := RecordSnapshot(before, s, false);
      s'.snapshot == Some(Snapshot(ChangedFields(FiveOf(before), FiveOf(s)), FiveOf(before), false)) && FiveOf(s') == FiveOf(s)
  {
  }

  lemma ConditionalChangesNothing(before: State, s: State, r: Lookup, disowns: bool)
    ensures FiveOf(Answer(before, s, ConditionalOrder, r, disowns)) == FiveOf(s)
  {
  }

  lemma SingleMutationRecorded(before: State, s: State, i: Intent, r: Lookup, disowns: bool)
    requires FiveOf(before) == FiveOf(s) && !RollsBack(s, i, disowns) && !i.ClearOrder?
    requires !Dispatch(s, i, r).handler.SubmitOrder?
    requires var s' := Answer(before, s, i, r, disowns);
      FiveOf(s') != FiveOf(s) && !(before.order != [] && s'.order == [])
    ensures var s' := Answer(before, s, i, r, disowns);
      s'.snapshot == Some(Snapshot(ChangedFields(FiveOf(before), FiveOf(s')), FiveOf(before), false))
  {
    AnswerRecords(before, s, i, r, disowns);
    OnlyClearsForget(s, i, r);
    if i.ConditionalOrder? {
      ConditionalChangesNothing(before, s, r, disowns);
    } else {
      RecordKeeps(before, Patched(s, Dispatch(s, i, r).patch), false);
      RecordedBefore(before, Patched(s, Dispatch(s, i, r).patch));
    }
  }

  lemma MutationRecorded(s: State, t: Turn)
    requires Mutates(s, t)
    ensures Take(s, t).snapshot == Some(Snapshot(ChangedFields(FiveOf(s), FiveOf(Take(s, t))), FiveOf(s), false))
    ensures LiveSnapshot(Take(s, t))
  {
    var prepared := Prepared(s, t);
    PreparedOnlyClears(s, t);
    AdvanceKeeps(s, Answered(s, t));
    match t.said
    case Single(i, r) => SingleMutationRecorded(s, prepared, i, r, t.disowns);
    case Composite(children) =>
      RecordKeeps(s, ExecuteAll(prepared, children), false);
      RecordedBefore(s, ExecuteAll(prepared, children));
  }

  lemma CorrectionAnswer(before: State, s: State, r: Lookup)
    requires LiveSnapshot(s)
    ensures var s' := Answer(before, s, ContextCorrection, r, true);
      CanRollBack(s) ==>
        FiveOf(s') == s.snapshot.value.before && s'.fulfilment == s.fulfilment && s'.snapshot.None?
        && s'.pending.None? && s'.candidate.None? && s'.stage.Ordering?
  {
    if CanRollBack(s) {
      AnswerRollsBack(before, s, ContextCorrection, r, true);
      ContextPatch(r);
      RollBackChanges(Patched(s, ContextAgent(r).patch), s.snapshot.value);
    }
  }

  lemma RecordNothing(before: State, s: State, confirmed: bool)
    requires FiveOf(before) == FiveOf(s)
    ensures RecordSnapshot(before, s, confirmed) == s
  {
  }

  lemma CorrectionRecorded(before: State, s: State, r: Lookup)
    requires !CanRollBack(s)
    ensures Answer(before, s, ContextCorrection, r, true) == RecordSnapshot(before, Patched(s, ContextAgent(r).patch), false)
  {
    var a := ContextAgent(r);
    assert Dispatch(s, ContextCorrection, r) == a && a.handler.OtherHandler?;
    AnswerRecords(before, s, ContextCorrection, r, true);
  }

  lemma CorrectionPatchKeeps(s: State, r: Lookup)
    ensures var applied := Patched(s, ContextAgent(r).patch);
      FiveOf(applied) == FiveOf(s) && applied.fulfilment == s.fulfilment && applied.snapshot == s.snapshot
  {
    ContextPatch(r);
  }

  lemma CorrectionDoesNothing(before: State, s: State, r: Lookup)
    requires !CanRollBack(s) && FiveOf(before) == FiveOf(s)
    ensures var s' := Answer(before, s, ContextCorrection, r, true);
      FiveOf(s') == FiveOf(s) && s'.fulfilment == s.fulfilment && s'.snapshot == s.snapshot
  {
    CorrectionRecorded(before, s, r);
    CorrectionPatchKeeps(s, r);
    RecordNothing(before, Patched(s, ContextAgent(r).patch), false);
  }

  /** Something was recorded, and not as confirmed. */
  ghost predicate Undoable(s: State) {
    s.snapshot.Some? && !s.snapshot.value.confirmed && s.snapshot.value.changed != {}
  }

  /** A correction restores the recorded fields but not the fulfilment type, or does nothing when there is nothing to take back. */
  lemma CorrectionRestores(s: State, r: Lookup, movesOn: bool)
    requires !Locked(s) && LiveSnapshot(s)
    ensures var s' := Take(s, Correction(r, movesOn));
      && FiveOf(s') == (if Undoable(s) then s.snapshot.value.before else FiveOf(s))
      && s'.fulfilment == s.fulfilment && s'.snapshot == (if Undoable(s) then None else s.snapshot)
      && (Undoable(s) ==> s'.pending.None? && s'.candidate.None? && s'.stage.Ordering?)
  {
    var t := Correction(r, movesOn);
    PreparedOnlyClears(s, t);
    AdvanceKeeps(s, Answered(s, t));
    if CanRollBack(s) {
      CorrectionAnswer(s, Prepared(s, t), r);
    } else {
      CorrectionDoesNothing(s, Prepared(s, t), r);
    }
  }

  /** Emptying an order leaves nothing to take back, whatever emptied it. */
  lemma EmptyingForgets(s: State, t: Turn)
    requires !Locked(s) && s.order != [] && Take(s, t).order == []
    ensures Take(s, t).snapshot.None?
  {
    var prepared := Prepared(s, t);
    PreparedOnlyClears(s, t);
    AdvanceKeeps(s, Answered(s, t));
    match t.said
    case Single(i, r) => EmptyingAnswer(s, prepared, i, r, t.disowns);
    case Composite(children) => EmptyRecord(s, ExecuteAll(prepared, children), false);
  }

  lemma EmptyRecord(before: State, s: State, confirmed: bool)
    requires before.order != [] && RecordSnapshot(before, s, confirmed).order == []
    ensures RecordSnapshot(before, s, confirmed).snapshot.None?
  {
    RecordKeeps(before, s, confirmed);
  }

  lemma EmptyingAnswer(before: State, s: State, i: Intent, r: Lookup, disowns: bool)
    requires before.order == s.order != [] && Answer(before, s, i, r, disowns).order == []
    ensures Answer(before, s, i, r, disowns).snapshot.None?
  {
    if RollsBack(s, i, disowns) {
      AnswerRollsBack(before, s, i, r, disowns);
    } else {
      AnswerRecords(before, s, i, r, disowns);
      OnlyClearsForget(s, i, r);
      var a := Dispatch(s, i, r);
      if i.ConditionalOrder? {
        ConditionalChangesNothing(before, s, r, disowns);
      } else if Allowed(s, i, a.patch) && !a.handler.ClearOrderHandler? {
        EmptyRecord(before, Patched(s, a.patch), a.handler.SubmitOrder?);
      }
    }
  }

  lemma {:induction false} LockedIsQuiet(s: State, turns: seq<Turn>)
    requires Settled(s) && Locked(s) && Quiet(s, turns)
    ensures Run(s, turns) == s
    decreases |turns|
  {
    if turns != [] {
      QuietPrefix(s, turns);
      LockedIsQuiet(s, turns[..|turns| - 1]);
    }
  }

  lemma ChangedFieldsOf(a: Five, b: Five)
    ensures ChangedFields(a, b) == {} <==> a == b
  {
    if a != b {
      assert OrderField in ChangedFields(a, b) || AddressField in ChangedFields(a, b) || PhoneField in ChangedFields(a, b)
          || SubmittedField in ChangedFields(a, b) || OrderIdField in ChangedFields(a, b);
    }
  }

  /**
   After an unconfirmed change and any turns that leave the five fields alone, a
   correction restores all five if and only if the change did not submit the order and
   no turn in between cleared it (which, the order being empty by then, changed nothing visible).
   */
  lemma CorrectionInvertsChange(s: State, change: Turn, between: seq<Turn>, r: Lookup, movesOn: bool)
    requires Settled(s) && Mutates(s, change) && Quiet(Take(s, change), between)
    ensures FiveOf(Take(Run(Take(s, change), between), Correction(r, movesOn))) == FiveOf(s)
       <==> !Locked(Take(s, change)) && !Forgotten(Take(s, change), between)
  {
    var s1 := Take(s, change);
    TakeSettles(s, change);
    MutationRecorded(s, change);
    ChangedFieldsOf(FiveOf(s), FiveOf(s1));
    if Locked(s1) {
      LockedIsQuiet(s1, between);
    } else {
      QuietRun(s1, between);
      CorrectionRestores(Run(s1, between), r, movesOn);
    }
  }

  /** A second correction right after a successful one restores nothing. */
  lemma SecondCorrectionDoesNothing(s: State, r: Lookup, movesOn: bool, r2: Lookup, movesOn2: bool)
    requires Settled(s) && !Locked(s) && LiveSnapshot(s) && CanRollBack(s)
    ensures var s' := Take(s, Correction(r, movesOn)); FiveOf(Take(s', Correction(r2, movesOn2))) == FiveOf(s')
  {
    CorrectionRestores(s, r, movesOn);
    var s' := Take(s, Correction(r, movesOn));
    if !Locked(s') { CorrectionRestores(s', r2, movesOn2); }
  }

  // ---------- what a correction does not take back ----------

  function Say(i: Intent, r: Lookup): Turn {
    Turn(Single(i, r), false, false, OtherCommand)
  }

  lemma PickupDropsAddress(s: State, pickup: Lookup)
    requires !Locked(s) && s.fulfilment.Delivery? && pickup.pickup
    ensures var s1 := Take(s, Say(ProvideFulfilment, pickup));
      s1.fulfilment.Pickup? && FiveOf(s1) == FiveOf(s).(address := None)
    ensures s.address.Some? ==> Mutates(s, Say(ProvideFulfilment, pickup))
  {
    var change := Say(ProvideFulfilment, pickup);
    var p := NoPatch.(fulfilment := Some(Pickup), stage := Some(Confirming), address := Some(None));
    PreparedOnlyClears(s, change);
    assert Dispatch(Prepared(s, change), ProvideFulfilment, pickup) == Does(p);
    AnswerRecords(s, Prepared(s, change), ProvideFulfilment, pickup, false);
    RecordKeeps(s, Patched(Prepared(s, change), p), false);
    AdvanceKeeps(s, Answered(s, change));
  }

  /** Taking back a switch to pickup restores the address it dropped but leaves the order a pickup. */
  lemma PickupOutlivesItsCorrection(s: State, pickup: Lookup, r: Lookup)
    requires Settled(s) && !Locked(s) && s.address.Some? && s.fulfilment.Delivery? && pickup.pickup
    ensures var s' := Take(Take(s, Say(ProvideFulfilment, pickup)), Correction(r, false));
      FiveOf(s') == FiveOf(s) && s'.fulfilment.Pickup?
  {
    var change := Say(ProvideFulfilment, pickup);
    var s1 := Take(s, change);
    PickupDropsAddress(s, pickup);
    MutationRecorded(s, change);
    ChangedFieldsOf(FiveOf(s), FiveOf(s1));
    CorrectionRestores(s1, r, false);
  }

  lemma GivesAddress(s: State, given: Lookup)
    requires !Locked(s) && Given(given.address)
    ensures FiveOf(Take(s, Say(ProvideAddress, given))) == FiveOf(s).(address := given.address)
  {
    var t := Say(ProvideAddress, given);
    var prepared := Prepared(s, t);
    PreparedOnlyClears(s, t);
    assert Dispatch(prepared, ProvideAddress, given) == Does(SetAddress(prepared, given.address));
    AnswerRecords(s, prepared, ProvideAddress, given, false);
    RecordKeeps(s, Patched(prepared, SetAddress(prepared, given.address)), false);
    AdvanceKeeps(s, Answered(s, t));
  }

  lemma ClearsEmptyOrder(s: State, clear: Lookup)
    requires !Locked(s) && s.order == []
    ensures var s' := Take(s, Say(ClearOrder, clear)); FiveOf(s') == FiveOf(s) && s'.snapshot.None?
  {
    var t := Say(ClearOrder, clear);
    PreparedOnlyClears(s, t);
    AnswerRecords(s, Prepared(s, t), ClearOrder, clear, false);
    OnlyClearsForget(Prepared(s, t), ClearOrder, clear);
    assert OrderAgent(Prepared(s, t), ClearOrder, clear).patch.order == Some([]);
    AdvanceKeeps(s, Answered(s, t));
  }

  /** Clearing an empty order is invisible, yet an address given before it can no longer be taken back. */
  lemma ClearingEmptyOrderForgets(s: State, given: Lookup, clear: Lookup, r: Lookup)
    requires !Locked(s) && s.order == [] && Given(given.address)
    ensures var s1 := Take(s, Say(ProvideAddress, given));
      var s2 := Take(s1, Say(ClearOrder, clear));
      FiveOf(s2) == FiveOf(s1) && Take(s2, Correction(r, false)).address == given.address
  {
    var s1 := Take(s, Say(ProvideAddress, given));
    GivesAddress(s, given);
    ClearsEmptyOrder(s1, clear);
    CorrectionRestores(Take(s1, Say(ClearOrder, clear)), r, false);
  }
}
