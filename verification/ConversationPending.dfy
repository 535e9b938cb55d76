/** What a confirm executes was proposed a moment ago. */
module ConversationPending {
  import opened Wrappers
  import opened ConversationModel
  import opened ConversationTurns
  import opened ConversationProperties
  import opened ConversationRollback

  // ---------- who proposes ----------

  /** The pending actions proposed while an interpretation is executed. */
  function Proposals(s: State, said: Interpretation): set<Pending>
    decreases said, 0
  {
    match said
    case Single(i, r) =>
      var p := Dispatch(s, i, r).patch.pending;
      if p.Some? && p.value.Some? then {p.value.value} else {}
    case Composite(children) => ProposalsOfAll(s, children)
  }

  function ProposalsOfAll(s: State, said: seq<Interpretation>): set<Pending>
    decreases said, 1
  {
    if said == [] then {} else Proposals(s, said[0]) + ProposalsOfAll(Execute(s, said[0]), said[1..])
  }

  function MadeBy(s: State, t: Turn): set<Pending> {
    if Locked(s) then {} else Proposals(Prepared(s, t), t.said)
  }

  predicate ShortLived(p: Pending) {
    p.AddItems? || p.RemoveCategory? || p.Conditional?
  }

  lemma {:induction false} ExecutePending(s: State, said: Interpretation, p: Pending)
    requires Execute(s, said).pending == Some(p)
    ensures s.pending == Some(p) || p in Proposals(s, said)
    decreases said, 0
  {
    if said.Composite? { ExecuteAllPending(s, said.children, p); }
  }

  lemma {:induction false} ExecuteAllPending(s: State, said: seq<Interpretation>, p: Pending)
    requires ExecuteAll(s, said).pending == Some(p)
    ensures s.pending == Some(p) || p in ProposalsOfAll(s, said)
    decreases said, 1
  {
    if said != [] {
      ExecuteAllPending(Execute(s, said[0]), said[1..], p);
      if Execute(s, said[0]).pending == Some(p) { ExecutePending(s, said[0], p); }
    }
  }

  /** Confirming or cancelling leaves nothing pending but a dish to pick or a fresh proposal. */
  lemma SettlesPending(s: State, i: Intent, r: Lookup, p: Pending)
    requires i.ConfirmOrder? || i.Cancel? || i.CancelAmbiguous?
    requires Patched(s, Dispatch(s, i, r).patch).pending == Some(p)
    ensures p in Proposals(s, Single(i, r)) || (i.ConfirmOrder? && (p.PickCandidate? || Locked(s)))
  {
  }

  lemma AnswerKeepsPending(before: State, s: State, i: Intent, r: Lookup, disowns: bool, p: Pending)
    requires Answer(before, s, i, r, disowns).pending == Some(p)
    ensures if Allowed(s, i, Dispatch(s, i, r).patch) then Patched(s, Dispatch(s, i, r).patch).pending == Some(p) else s.pending == Some(p)
  {
    if RollsBack(s, i, disowns) {
      AnswerRollsBack(before, s, i, r, disowns);
    } else {
      AnswerRecords(before, s, i, r, disowns);
      RecordKeeps(before, Patched(s, Dispatch(s, i, r).patch), Dispatch(s, i, r).handler.SubmitOrder?);
    }
  }

  lemma AnswerPending(before: State, s: State, i: Intent, r: Lookup, disowns: bool, p: Pending)
    requires Answer(before, s, i, r, disowns).pending == Some(p)
    ensures s.pending == Some(p) || p in Proposals(s, Single(i, r))
    ensures i.ConfirmOrder? || i.Cancel? || i.CancelAmbiguous? ==>
              p in Proposals(s, Single(i, r)) || (i.ConfirmOrder? && (p.PickCandidate? || Locked(s)))
  {
    AnswerKeepsPending(before, s, i, r, disowns, p);
    if i.ConfirmOrder? || i.Cancel? || i.CancelAmbiguous? { SettlesPending(s, i, r, p); }
  }

  /** A pending action was made by the turn that ends with it, or outlived it. */
  lemma PendingFrom(s: State, t: Turn, p: Pending)
    requires Take(s, t).pending == Some(p)
    ensures p in MadeBy(s, t) || (s.pending == Some(p) && (Locked(s) || !Expires(p, TopIntent(t))))
  {
    if !Locked(s) {
      PreparedOnlyClears(s, t);
      match t.said
      case Single(i, r) => AnswerPending(s, Prepared(s, t), i, r, t.disowns, p);
      case Composite(children) => ExecuteAllPending(Prepared(s, t), children, p);
    }
  }

  /** A bulk-add, category-removal or conditional proposal lives for one turn. */
  lemma ShortLivedIsFresh(s: State, t: Turn, p: Pending)
    requires ShortLived(p) && Take(s, t).pending == Some(p) && !Locked(Take(s, t))
    ensures p in MadeBy(s, t)
  {
    PendingFrom(s, t, p);
    if !Locked(s) && t.said.Single? {
      PreparedOnlyClears(s, t);
      AnswerPending(s, Prepared(s, t), t.said.intent, t.said.lookup, t.disowns, p);
    }
  }

  // ---------- what a confirm does ----------

  function Confirm(r: Lookup): Turn {
    Turn(Single(ConfirmOrder, r), false, false, OtherCommand)
  }

  lemma ConfirmIsRecorded(before: State, s: State, r: Lookup)
    ensures var a := ConfirmationAgent(s, r);
      Answer(before, s, ConfirmOrder, r, false) == RecordSnapshot(before, Patched(s, a.patch), a.handler.SubmitOrder?)
  {
    var a := Dispatch(s, ConfirmOrder, r);
    assert a == ConfirmationAgent(s, r);
    assert !a.handler.ClearOrderHandler?;
  }

  lemma ConfirmAnswers(before: State, s: State, r: Lookup)
    requires !Locked(s)
    ensures var p := ConfirmationAgent(s, r).patch; var s' := Answer(before, s, ConfirmOrder, r, false);
      s'.order == Or(p.order, s.order) && s'.pending == Or(p.pending, s.pending) && (s'.submitted <==> p.submitted.Some?)
  {
    ConfirmIsRecorded(before, s, r);
    RecordKeeps(before, Patched(s, ConfirmationAgent(s, r).patch), ConfirmationAgent(s, r).handler.SubmitOrder?);
  }

  lemma ConfirmApplies(s: State, r: Lookup)
    requires !Locked(s)
    ensures var p := ConfirmationAgent(s, r).patch; var s' := Take(s, Confirm(r));
      s'.order == Or(p.order, s.order) && s'.pending == Or(p.pending, s.pending) && (s'.submitted <==> p.submitted.Some?)
  {
    var prepared := s.(candidate := None);
    assert Prepared(s, Confirm(r)) == prepared;
    ConfirmAnswers(s, prepared, r);
    AdvanceKeeps(s, Answered(s, Confirm(r)));
  }

  /** A confirm turn carries out the pending action and nothing else; without one it never touches the order. */
  lemma ConfirmExecutes(s: State, r: Lookup)
    requires !Locked(s)
    ensures var s' := Take(s, Confirm(r));
      match s.pending
      case Some(ClearAll) => s'.order == [] && s'.pending == None && !s'.submitted
      case Some(AddItems(_)) => s'.order == (if r.found then r.operation(s.order) else s.order) && s'.pending == None && !s'.submitted
      case Some(RemoveCategory(_)) => s'.order == r.operation(s.order) && s'.pending == None && !s'.submitted
      case Some(Conditional(_)) => s'.order == (if r.found then r.operation(s.order) else s.order) && s'.pending == None && !s'.submitted
      case _ => s'.order == s.order && s'.pending == s.pending
                && (s'.submitted <==> s.order != [] && (s.fulfilment.Pickup? || (Given(s.address) && Given(s.phone))))
  {
    ConfirmApplies(s, r);
  }

  /**
   If a confirm executes a short-lived proposal, the turn directly before it made that
   proposal: whatever was said two turns ago can no longer be confirmed.
   */
  lemma ConfirmExecutesFreshProposal(turns: seq<Turn>, p: Pending)
    requires var s := Run(FreshState, turns); s.pending == Some(p) && ShortLived(p) && !Locked(s)
    ensures turns != [] && p in MadeBy(Run(FreshState, turns[..|turns| - 1]), turns[|turns| - 1])
  {
    if turns != [] {
      ShortLivedIsFresh(Run(FreshState, turns[..|turns| - 1]), turns[|turns| - 1], p);
    }
  }

  // ---------- clearing the order ----------

  /** Only a cancel with something ordered and nothing pending proposes to clear. */
  lemma OnlyCancelProposesClear(s: State, i: Intent, r: Lookup)
    ensures ClearAll in Proposals(s, Single(i, r)) <==> i.Cancel? && s.order != [] && s.pending.None?
  {
  }

  /** Turn k satisfies p after the turns before it, and every later turn satisfies q. */
  ghost predicate Since(p: (seq<Turn>, Turn) -> bool, q: Turn -> bool, turns: seq<Turn>, k: int) {
    0 <= k < |turns| && p(turns[..k], turns[k]) && forall j :: k < j < |turns| ==> q(turns[j])
  }

  lemma SinceExtends(p: (seq<Turn>, Turn) -> bool, q: Turn -> bool, turns: seq<Turn>, k: int)
    requires turns != [] && Since(p, q, turns[..|turns| - 1], k) && q(turns[|turns| - 1])
    ensures Since(p, q, turns, k)
  {
    assert turns[..|turns| - 1][..k] == turns[..k];
  }

  /** The turn proposes to clear the order. */
  predicate ProposesClear(past: seq<Turn>, t: Turn) {
    ClearAll in MadeBy(Run(FreshState, past), t)
  }

  predicate LeavesClear(t: Turn) {
    !WithdrawsClear(TopIntent(t))
  }

  lemma ClearOutlives(s: State, t: Turn)
    requires Take(s, t).pending == Some(ClearAll) && !Locked(Take(s, t))
    ensures ClearAll in MadeBy(s, t) || (s.pending == Some(ClearAll) && !Locked(s) && !WithdrawsClear(TopIntent(t)))
  {
    PendingFrom(s, t, ClearAll);
  }

  /** A confirm clears the order only if no read-only, fallback or recommendation turn followed the cancel that proposed it. */
  lemma {:induction false} ConfirmClearsOnlyIfProposed(turns: seq<Turn>)
    requires Run(FreshState, turns).pending == Some(ClearAll) && !Locked(Run(FreshState, turns))
    ensures exists k :: Since(ProposesClear, LeavesClear, turns, k)
    decreases |turns|
  {
    if turns != [] {
      var n := |turns| - 1;
      ClearOutlives(Run(FreshState, turns[..n]), turns[n]);
      if ProposesClear(turns[..n], turns[n]) {
        assert Since(ProposesClear, LeavesClear, turns, n);
      } else {
        ConfirmClearsOnlyIfProposed(turns[..n]);
        var k :| Since(ProposesClear, LeavesClear, turns[..n], k);
        SinceExtends(ProposesClear, LeavesClear, turns, k);
      }
    }
  }
}
