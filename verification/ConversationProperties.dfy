/** What every conversation keeps: fresh proposals, exact rollback, an honest draft version. */
module ConversationProperties {
  import opened Wrappers
  import opened ConversationModel
  import opened ConversationTurns

  // ---------- read-only messages ----------

  /** Whatever patch an agent answers with, a read-only intent leaves order, address and phone alone. */
  lemma ReadOnlyPatch(s: State, i: Intent, p: Patch)
    requires NoMutation(i)
    ensures Allowed(s, i, p) <==> Patched(s, p).order == s.order && Patched(s, p).address == s.address && Patched(s, p).phone == s.phone
  {
  }

  // ---------- the submitted order ----------

  /** A submitted order is customer-confirmed, and nothing else is. */
  ghost predicate Settled(s: State) {
    && (s.submitted <==> s.orderId.Some?) && (s.submitted <==> s.lifecycle.CustomerConfirmed?)
    && (s.confirmationValid <==> s.submitted)
    && (s.snapshot.Some? && !s.submitted ==> !s.snapshot.value.before.submitted && s.snapshot.value.before.orderId.None?)
    && s.draftVersion >= 1
  }

  lemma {:induction false} ExecuteSettles(s: State, said: Interpretation)
    requires Settled(s)
    ensures Settled(Execute(s, said)) && (s.submitted ==> Execute(s, said).submitted)
    ensures Execute(s, said).draftVersion == s.draftVersion
    decreases said, 0
  {
    if said.Composite? { ExecuteAllSettles(s, said.children); }
  }

  lemma {:induction false} ExecuteAllSettles(s: State, said: seq<Interpretation>)
    requires Settled(s)
    ensures Settled(ExecuteAll(s, said)) && (s.submitted ==> ExecuteAll(s, said).submitted)
    ensures ExecuteAll(s, said).draftVersion == s.draftVersion
    decreases said, 1
  {
    if said != [] {
      ExecuteSettles(s, said[0]);
      ExecuteAllSettles(Execute(s, said[0]), said[1..]);
    }
  }

  lemma PreparedOnlyClears(s: State, t: Turn)
    ensures Prepared(s, t) == s.(pending := Prepared(s, t).pending, candidate := Prepared(s, t).candidate)
    ensures Prepared(s, t).pending in {None, s.pending}
  {
  }

  lemma RecordSettles(before: State, s: State, confirmed: bool)
    requires Settled(s) && !before.submitted && before.orderId.None?
    ensures Settled(RecordSnapshot(before, s, confirmed)) && RecordSnapshot(before, s, confirmed).draftVersion == s.draftVersion
  {
  }

  lemma PatchSettles(s: State, p: Patch)
    requires Settled(s)
    ensures Settled(Patched(s, p)) && (s.submitted ==> Patched(s, p).submitted) && Patched(s, p).draftVersion == s.draftVersion
  {
  }

  lemma AnswerSettles(before: State, s: State, i: Intent, r: Lookup, disowns: bool)
    requires Settled(s) && Settled(before) && !before.submitted && !s.submitted
    ensures Settled(Answer(before, s, i, r, disowns)) && Answer(before, s, i, r, disowns).draftVersion == s.draftVersion
  {
    var p := Dispatch(s, i, r).patch;
    PatchSettles(s, p);
    RecordSettles(before, Patched(s, p), Dispatch(s, i, r).handler.SubmitOrder?);
    if i.ContextCorrection? { assert !Patched(s, p).submitted; }
  }

  lemma TakeSettles(s: State, t: Turn)
    requires Settled(s)
    ensures Settled(Take(s, t))
  {
    if !Locked(s) {
      var prepared := Prepared(s, t);
      PreparedOnlyClears(s, t);
      match t.said
      case Single(i, r) => AnswerSettles(s, prepared, i, r, t.disowns);
      case Composite(children) =>
        ExecuteAllSettles(prepared, children);
        RecordSettles(s, ExecuteAll(prepared, children), false);
    }
  }

  /** In every conversation an order is confirmed exactly when it is submitted. */
  lemma {:induction false} RunSettles(turns: seq<Turn>)
    ensures Settled(Run(FreshState, turns))
    decreases |turns|
  {
    if turns != [] {
      RunSettles(turns[..|turns| - 1]);
      TakeSettles(Run(FreshState, turns[..|turns| - 1]), turns[|turns| - 1]);
    }
  }

  /** A submitted conversation changes only by starting a new order. */
  lemma {:induction false} LockedUntilNewOrder(s: State, turns: seq<Turn>)
    requires Locked(s) && forall k :: 0 <= k < |turns| ==> !turns[k].command.NewOrderCommand?
    ensures Run(s, turns) == s
    decreases |turns|
  {
    if turns != [] { LockedUntilNewOrder(s, turns[..|turns| - 1]); }
  }

  lemma RecordKeeps(before: State, s: State, confirmed: bool)
    ensures var s' := RecordSnapshot(before, s, confirmed); s' == s.(snapshot := s'.snapshot, snapshotConfirmed := s'.snapshotConfirmed)
  {
  }

  lemma AdvanceKeeps(before: State, s: State)
    ensures var s' := AdvanceVersion(before, s);
      s' == s.(draftVersion := s'.draftVersion, confirmationValid := s'.confirmationValid, lifecycle := s'.lifecycle)
  {
  }

  // ---------- the draft version ----------

  /** The same dishes, collected or delivered alike, to the same address, for the same phone. */
  ghost predicate SameContent(a: State, b: State) {
    && a.order == b.order && a.fulfilment == b.fulfilment && a.address == b.address && a.phone == b.phone
  }

  lemma {:induction false} ExecuteKeepsVersion(s: State, said: Interpretation)
    ensures Execute(s, said).draftVersion == s.draftVersion
    decreases said, 0
  {
    if said.Composite? { ExecuteAllKeepsVersion(s, said.children); }
  }

  lemma {:induction false} ExecuteAllKeepsVersion(s: State, said: seq<Interpretation>)
    ensures ExecuteAll(s, said).draftVersion == s.draftVersion
    decreases said, 1
  {
    if said != [] {
      ExecuteKeepsVersion(s, said[0]);
      ExecuteAllKeepsVersion(Execute(s, said[0]), said[1..]);
    }
  }

  lemma AnswerKeepsVersion(before: State, s: State, i: Intent, r: Lookup, disowns: bool)
    ensures Answer(before, s, i, r, disowns).draftVersion == s.draftVersion
  {
  }

  lemma AnsweredKeepsVersion(s: State, t: Turn)
    ensures Answered(s, t).draftVersion == s.draftVersion
  {
    PreparedOnlyClears(s, t);
    match t.said
    case Single(i, r) => AnswerKeepsVersion(s, Prepared(s, t), i, r, t.disowns);
    case Composite(children) => ExecuteAllKeepsVersion(Prepared(s, t), children);
  }

  /** The version moves, by one, exactly when the material content of an unsubmitted order moves. */
  lemma VersionMoves(s: State, t: Turn)
    requires !Locked(s)
    ensures Take(s, t).draftVersion == s.draftVersion + if SameContent(s, Take(s, t)) || Take(s, t).submitted then 0 else 1
  {
    AnsweredKeepsVersion(s, t);
  }

  /** A material change of an order that is not submitted is a draft again, confirmed by nobody. */
  lemma ChangeIsDraft(s: State, t: Turn)
    requires !Locked(s) && !SameContent(s, Take(s, t)) && !Take(s, t).submitted
    ensures !Take(s, t).confirmationValid && Take(s, t).lifecycle.DraftOrder?
  {
  }

  /** Every turn so far ended unsubmitted. */
  ghost predicate Drafting(s: State, turns: seq<Turn>) {
    forall k :: 0 <= k <= |turns| ==> !Locked(Run(s, turns[..k]))
  }

  lemma DraftingPrefix(s: State, turns: seq<Turn>)
    requires turns != [] && Drafting(s, turns)
    ensures Drafting(s, turns[..|turns| - 1])
    ensures !Locked(Run(s, turns)) && !Locked(Run(s, turns[..|turns| - 1]))
  {
    var init := turns[..|turns| - 1];
    assert turns[..|turns|] == turns;
    forall k | 0 <= k <= |init| ensures !Locked(Run(s, init[..k])) {
      assert init[..k] == turns[..k];
    }
    assert turns[..|turns| - 1] == init;
  }

  /**
   While an order is drafted its version never falls, and two turn ends with the same
   version hold the same order, fulfilment, address and phone, rollbacks included.
   */
  lemma {:induction false} VersionIdentifiesDraft(s: State, turns: seq<Turn>)
    requires Drafting(s, turns)
    ensures Run(s, turns).draftVersion >= s.draftVersion
    ensures Run(s, turns).draftVersion == s.draftVersion ==> SameContent(s, Run(s, turns))
    decreases |turns|
  {
    if turns != [] {
      DraftingPrefix(s, turns);
      VersionIdentifiesDraft(s, turns[..|turns| - 1]);
      VersionMoves(Run(s, turns[..|turns| - 1]), turns[|turns| - 1]);
    }
  }

  // ---------- submitting ----------

  lemma OrderAgentNeverSubmits(s: State, i: Intent, r: Lookup)
    ensures OrderAgent(s, i, r).patch.submitted.None?
  {
  }

  lemma DeliveryAgentNeverSubmits(s: State, i: Intent, r: Lookup)
    ensures DeliveryAgent(s, i, r).patch.submitted.None?
  {
  }

  lemma OnlyConfirmSubmits(s: State, i: Intent, r: Lookup)
    ensures Dispatch(s, i, r).patch.submitted.Some? ==> i.ConfirmOrder?
  {
    OrderAgentNeverSubmits(s, i, r);
    DeliveryAgentNeverSubmits(s, i, r);
  }

  /** A submission changes neither the order nor where it goes. */
  lemma SubmissionPatch(s: State, r: Lookup)
    ensures var p := ConfirmationAgent(s, r).patch;
      p.submitted.Some? ==> p.order.None? && p.fulfilment.None? && p.address.None? && p.phone.None?
  {
  }

  lemma SingleAnswerOnSubmit(before: State, s: State, i: Intent, r: Lookup, disowns: bool)
    requires !s.submitted && (s.snapshot.Some? ==> !s.snapshot.value.before.submitted)
    requires Answer(before, s, i, r, disowns).submitted
    ensures i.ConfirmOrder? && SameContent(s, Answer(before, s, i, r, disowns))
  {
    OnlyConfirmSubmits(s, i, r);
    SubmissionPatch(s, r);
  }

  /** A single message that submits changes nothing in the order it submits. */
  lemma SingleSubmitKeepsOrder(s: State, t: Turn)
    requires Settled(s) && !Locked(s) && t.said.Single? && Take(s, t).submitted
    ensures t.said.intent.ConfirmOrder? && SameContent(s, Take(s, t))
  {
    PreparedOnlyClears(s, t);
    SingleAnswerOnSubmit(s, Prepared(s, t), t.said.intent, t.said.lookup, t.disowns);
  }

  /** The interpretation holds a confirm, at any depth. */
  predicate Confirms(said: Interpretation)
    decreases said, 0
  {
    match said
    case Single(i, _) => i.ConfirmOrder?
    case Composite(children) => AnyConfirms(children)
  }

  predicate AnyConfirms(said: seq<Interpretation>)
    decreases said, 1
  {
    said != [] && (Confirms(said[0]) || AnyConfirms(said[1..]))
  }

  lemma {:induction false} ExecuteNeverSubmits(s: State, said: Interpretation)
    requires !Confirms(said)
    ensures Execute(s, said).submitted == s.submitted && Execute(s, said).orderId == s.orderId
    decreases said, 0
  {
    match said
    case Single(i, r) => OnlyConfirmSubmits(s, i, r);
    case Composite(children) => ExecuteAllNeverSubmits(s, children);
  }

  lemma {:induction false} ExecuteAllNeverSubmits(s: State, said: seq<Interpretation>)
    requires !AnyConfirms(said)
    ensures ExecuteAll(s, said).submitted == s.submitted && ExecuteAll(s, said).orderId == s.orderId
    decreases said, 1
  {
    if said != [] {
      ExecuteNeverSubmits(s, said[0]);
      ExecuteAllNeverSubmits(Execute(s, said[0]), said[1..]);
    }
  }

  /** A message without a confirm, however it is composed, submits nothing. */
  lemma NothingSubmitsWithoutConfirm(s: State, t: Turn)
    requires Settled(s) && !Locked(s) && !Confirms(t.said)
    ensures !Take(s, t).submitted && Take(s, t).orderId.None?
  {
    var prepared := Prepared(s, t);
    TakeSettles(s, t);
    PreparedOnlyClears(s, t);
    AdvanceKeeps(s, Answered(s, t));
    match t.said
    case Single(i, r) =>
      if Take(s, t).submitted { SingleAnswerOnSubmit(s, prepared, i, r, t.disowns); }
    case Composite(children) =>
      ExecuteAllNeverSubmits(prepared, children);
      RecordKeeps(s, ExecuteAll(prepared, children), false);
  }

  /** The messages the router builds: a confirm is a message of its own, never part of a composite one. */
  predicate Routed(said: Interpretation) {
    said.Composite? ==> !Confirms(said)
  }

  /**
   For every message the router builds, single or composite, and whether it submits,
   drafts or takes back, the draft version moves, by one, exactly when the order, the
   fulfilment, the address or the phone moves.
   */
  lemma VersionMovesWithContent(s: State, t: Turn)
    requires Settled(s) && !Locked(s) && Routed(t.said)
    ensures Take(s, t).draftVersion == s.draftVersion + if SameContent(s, Take(s, t)) then 0 else 1
  {
    VersionMoves(s, t);
    if t.said.Composite? {
      NothingSubmitsWithoutConfirm(s, t);
    } else if Take(s, t).submitted {
      SingleSubmitKeepsOrder(s, t);
    }
  }
}
