/** The orchestrator mutates one session in place; each of its steps is proved to compute the step of the turn model. */
module Orchestrators {
  import opened Wrappers
  import opened ConversationModel
  import opened ConversationTurns

  class Orchestrator {
    /** The session state; setting one of its fields replaces the record. */
    var now: State

    constructor ()
      ensures now == FreshState
    {
      now := FreshState;
    }

    /** Only the keys in the patch are set. */
    method ApplyPatch(p: Patch)
      modifies this
      ensures now == Patched(old(now), p)
    {
      now := now.(order := Or(p.order, now.order));
      now := now.(fulfilment := Or(p.fulfilment, now.fulfilment));
      now := now.(address := Or(p.address, now.address));
      now := now.(candidate := Or(p.candidate, now.candidate));
      now := now.(phone := Or(p.phone, now.phone));
      now := now.(stage := Or(p.stage, now.stage));
      now := now.(pending := Or(p.pending, now.pending));
      now := now.(context := Or(p.context, now.context));
      if p.submitted.Some? {
        now := now.(submitted := true, orderId := p.submitted, lifecycle := CustomerConfirmed, confirmationValid := true);
      }
      if p.dropSnapshot { now := now.(snapshot := None, snapshotConfirmed := false); }
    }

    method ExpireStalePendingState(t: Turn)
      modifies this
      ensures now == Prepared(old(now), t)
    {
      var i := TopIntent(t);
      if t.movesOn && i.Some? && NoMutation(i.value) && now.pending.Some? && now.pending.value.PickCandidate? {
        now := now.(pending := None);
      }
      if now.pending.Some? && Expires(now.pending.value, i) { now := now.(pending := None); }
      if now.candidate.Some? && !(i.Some? && KeepsAddressCandidate(i.value)) { now := now.(candidate := None); }
    }

    method RecordMutationSnapshot(before: State, confirmed: bool)
      modifies this
      ensures now == RecordSnapshot(before, old(now), confirmed)
    {
      var changed: set<Field> := {};
      if before.order != now.order { changed := changed + {OrderField}; }
      if before.address != now.address { changed := changed + {AddressField}; }
      if before.phone != now.phone { changed := changed + {PhoneField}; }
      if before.submitted != now.submitted { changed := changed + {SubmittedField}; }
      if before.orderId != now.orderId { changed := changed + {OrderIdField}; }
      assert changed == ChangedFields(FiveOf(before), FiveOf(now));
      if changed == {} { return; }
      if before.order != [] && now.order == [] {
        now := now.(snapshot := None, snapshotConfirmed := false);
        return;
      }
      now := now.(snapshot := Some(Snapshot(changed, FiveOf(before), confirmed)), snapshotConfirmed := confirmed);
    }

    method MaybeApplyRollback(disowns: bool) returns (applied: bool)
      modifies this
      ensures applied <==> disowns && CanRollBack(old(now))
      ensures now == if applied then RollBack(old(now), old(now).snapshot.value) else old(now)
    {
      if !disowns || now.snapshot.None? || now.snapshot.value.confirmed || now.snapshot.value.changed == {} { return false; }
      var shot := now.snapshot.value;
      var order := if OrderField in shot.changed then shot.before.order else now.order;
      var address := if AddressField in shot.changed then shot.before.address else now.address;
      var phone := if PhoneField in shot.changed then shot.before.phone else now.phone;
      var submitted := if SubmittedField in shot.changed then shot.before.submitted else now.submitted;
      var orderId := if OrderIdField in shot.changed then shot.before.orderId else now.orderId;
      now := now.(order := order, address := address, phone := phone, submitted := submitted, orderId := orderId);
      now := now.(snapshot := None, snapshotConfirmed := false, pending := None);
      applied := true;
    }

    method AdvanceDraftVersion(before: State)
      modifies this
      ensures now == AdvanceVersion(before, old(now))
    {
      if !SameMaterial(before, now) && !now.submitted {
        if before.draftVersion + 1 > now.draftVersion { now := now.(draftVersion := before.draftVersion + 1); }
        now := now.(confirmationValid := false, lifecycle := DraftOrder);
      }
    }

    /** The children are dispatched, validated and applied one after the other. */
    method HandleComposite(children: seq<Interpretation>)
      modifies this
      ensures now == ExecuteAll(old(now), children)
      decreases children
    {
      ghost var start := now;
      var n := 0;
      assert children[0..] == children;
      while n < |children|
        invariant 0 <= n <= |children|
        invariant ExecuteAll(start, children) == ExecuteAll(now, children[n..])
      {
        var child := children[n];
        match child {
          case Single(i, r) =>
            var p := Dispatch(now, i, r).patch;
            if Allowed(now, i, p) { ApplyPatch(p); }
          case Composite(inner) => HandleComposite(inner);
        }
        assert children[n..][1..] == children[n + 1..];
        n := n + 1;
      }
    }

    /** A single intent at the top level. */
    method AnswerSingle(before: State, i: Intent, r: Lookup, disowns: bool)
      modifies this
      ensures now == Answer(before, old(now), i, r, disowns)
    {
      var a := Dispatch(now, i, r);
      if !Allowed(now, i, a.patch) { return; }
      ApplyPatch(a.patch);
      if i.ConditionalOrder? { return; }
      if i.ContextCorrection? {
        var applied := MaybeApplyRollback(disowns);
        if applied { return; }
      }
      if !a.handler.ClearOrderHandler? { RecordMutationSnapshot(before, a.handler.SubmitOrder?); }
    }

    /** One turn of the conversation. */
    method HandleUserMessage(t: Turn)
      modifies this
      ensures now == Take(old(now), t)
    {
      if Locked(now) {
        if t.command.NewOrderCommand? { now := FreshState; }
        return;
      }
      var before := now;
      ExpireStalePendingState(t);
      match t.said {
        case Single(i, r) => AnswerSingle(before, i, r, t.disowns);
        case Composite(children) =>
          HandleComposite(children);
          RecordMutationSnapshot(before, false);
      }
      AdvanceDraftVersion(before);
    }
  }
}
