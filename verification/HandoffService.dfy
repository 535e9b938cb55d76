/**
 The handoff service: each public method is one or more units of work on the
 tables, proved to end in the state and with the result that HandoffSteps gives.
 */
module HandoffServices {
  import opened Wrappers
  import opened Journal
  import opened HandoffModel
  import opened UnitOfWork
  import Steps = HandoffSteps

  class HandoffService {
    const uow: Tables

    constructor (uow: Tables)
      ensures this.uow == uow
    {
      this.uow := uow;
    }

    // ---------- shared by the units of work ----------

    /** Checks the move against the seen status, writes the case, its order and its event. */
    method ApplyTransition(id: int, seen: HandoffStatus, r: ProviderResult, actor: Actor) returns (error: Option<Error>)
      requires id in uow.cases
      modifies uow
      ensures match Steps.ApplyTransition(old(uow.Rows()), id, seen, r, actor)
              case Ok(db) => error == None && uow.Rows() == db
              case Err(e) => error == Some(e)
    {
      if r.status !in AllowedTransitions(seen) { return Some(InvalidHandoffTransition(seen, r.status)); }
      var c := uow.cases[id].(status := r.status);
      if r.status == Resolved {
        if r.resolution.None? { return Some(ResolutionRequired); }
        c := c.(resolution := r.resolution);
        if r.resolution.value.draftChanged {
          var oid := Steps.OrderOf(uow.Rows(), c);
          if oid.Some? {
            var o := uow.orders[oid.value];
            uow.orders := uow.orders[oid.value := o.(draftVersion := o.draftVersion + 1, status := Draft, hold := true)];
            uow.AddOrderEvent(oid.value, HandoffDraftChanged(o.status, o.draftVersion + 1));
          }
        }
      } else if r.status == Failed {
        if r.failure.None? { return Some(FailureCodeRequired); }
        c := c.(failure := r.failure);
      } else if r.status == Cancelled {
        c := c.(failure := Some(CaseCancelled));
      }
      uow.cases := uow.cases[id := c];
      uow.AddCaseEvent(id, Moved(seen, r.status, actor));
      error := None;
    }

    /** One status move as a unit of work of its own. */
    method Move(id: int, r: ProviderResult, actor: Actor) returns (result: Result<(), Error>)
      requires id in uow.cases
      modifies uow
      ensures Outcome(uow.Rows(), result) == Steps.MoveCase(old(uow.Rows()), id, r, actor)
    {
      var saved := uow.Rows();
      var error := ApplyTransition(id, uow.cases[id].status, r, actor);
      if error.Some? {
        uow.Rollback(saved);
        return Err(error.value);
      }
      result := Ok(());
    }

    // ---------- opening ----------

    method CreateOrReuse(tenant: int, session: int, d: Decision) returns (result: Result<Steps.Opened, Error>)
      modifies uow
      ensures Outcome(uow.Rows(), result) == Steps.CreateOrReuse(old(uow.Rows()), tenant, session, d)
    {
      if session !in uow.sessions || uow.sessions[session].tenant != tenant { return Err(SessionNotFound); }
      var active := uow.GetActive(session);
      if active.Some? {
        UpdateRisk(active.value, d);
        return Ok(Steps.Opened(active.value, false));
      }
      var order := uow.GetLatestForSession(session, tenant);
      var id := uow.nextCase;
      var c := Case(tenant, session, order, Requested, d.reason, PriorityOf(d.reason), d.riskIds, d.blockedActions, None, None);
      uow.cases, uow.nextCase := uow.cases[id := c], id + 1;
      uow.AddCaseEvent(id, CaseRequested(d.reason, c.priority));
      if order.Some? {
        var o := uow.orders[order.value];
        uow.orders := uow.orders[order.value := o.(hold := true, holdReason := Some(d.reason))];
        uow.InvalidateConfirmation(order.value, o.draftVersion);
      }
      result := Ok(Steps.Opened(id, true));
    }

    /** A different risk reason on an active case widens it; the same reason changes nothing. */
    method UpdateRisk(id: int, d: Decision)
      requires id in uow.cases
      modifies uow
      ensures uow.Rows() == Steps.UpdateRisk(old(uow.Rows()), id, d)
    {
      var c := uow.cases[id];
      if c.reason != d.reason {
        var priority := MaxPriority(c.priority, PriorityOf(d.reason));
        uow.cases := uow.cases[id := c.(reason := d.reason, priority := priority,
                                        riskIds := c.riskIds + d.riskIds, blockedActions := c.blockedActions + d.blockedActions)];
        uow.AddCaseEvent(id, RiskUpdated(c.reason, d.reason));
      }
    }

    method QueueCase(tenant: int, id: int, session: int, summaryBuilt: bool) returns (result: Result<(), Error>)
      modifies uow
      ensures Outcome(uow.Rows(), result) == Steps.QueueCase(old(uow.Rows()), tenant, id, session, summaryBuilt)
    {
      if !Steps.Scoped(uow.Rows(), id, tenant, None) { return Err(HandoffNotFound); }
      if session !in uow.sessions || uow.sessions[session].tenant != tenant { return Err(SessionNotFound); }
      if !summaryBuilt { return Err(SummaryFailed); }
      result := Move(id, ProviderResult(Pending, None, None), SimulationProvider);
    }

    method MarkSummaryFailure(tenant: int, id: int) returns (result: Result<(), Error>)
      modifies uow
      ensures Outcome(uow.Rows(), result) == Steps.MarkSummaryFailure(old(uow.Rows()), tenant, id)
    {
      if !Steps.Scoped(uow.Rows(), id, tenant, None) { return Err(HandoffNotFound); }
      var status := uow.cases[id].status;
      if status != Requested && status != Pending { return Ok(()); }
      result := Move(id, ProviderResult(Failed, Some(SystemError), None), System);
    }

    /** The case commits before its summary is built; a failure afterwards fails the case. */
    method RequestHandoff(tenant: int, session: int, d: Decision, summaryBuilt: bool) returns (result: Result<int, Error>)
      modifies uow
      ensures Outcome(uow.Rows(), result) == Steps.RequestHandoff(old(uow.Rows()), tenant, session, d, summaryBuilt)
    {
      var start := CreateOrReuse(tenant, session, d);
      if start.Err? { return Err(start.error); }
      var id := start.value.id;
      if start.value.created {
        var queued := QueueCase(tenant, id, session, summaryBuilt);
        if queued.Err? {
          var _ := MarkSummaryFailure(tenant, id);
        }
      }
      result := Ok(id);
    }

    // ---------- provider moves ----------

    method ProviderTransition(tenant: int, id: int, key: Option<int>, call: Steps.ProviderCall) returns (result: Result<(), Error>)
      modifies uow
      ensures Outcome(uow.Rows(), result) == Steps.ProviderMove(old(uow.Rows()), tenant, id, key, call)
    {
      if call.Resolve? && !call.safe { return Err(UnsafePayload); }
      if !Steps.Scoped(uow.Rows(), id, tenant, key) { return Err(HandoffNotFound); }
      result := Move(id, Steps.ProviderAnswer(call), SimulationProvider);
    }

    // ---------- cancelling ----------

    /** Withdraws the confirmation, advances the draft, and settles status and hold of a cancelled case's order. */
    method SettleOrder(oid: int, reason: Reason, state: SessionState) returns (cleared: bool)
      requires oid in uow.orders
      modifies uow
      ensures var db := old(uow.Rows());
              var o := Steps.CancelledOrder(db.orders[oid], Steps.ShouldAdvance(db, Some(oid), state), state.draftVersion, reason);
              && uow.Rows() == db.(orders := db.orders[oid := o],
                                   confirmations := Steps.InvalidateAt(db.confirmations, oid, db.orders[oid].draftVersion))
              && (cleared <==> db.orders[oid].hold && !o.hold)
    {
      var o := uow.orders[oid];
      var confirmed := (oid, o.draftVersion) in uow.confirmations;
      uow.InvalidateConfirmation(oid, o.draftVersion);
      if confirmed || state.confirmationValid || state.submitted {
        o := o.(draftVersion := Max(o.draftVersion + 1, state.draftVersion));
      } else {
        o := o.(draftVersion := Max(o.draftVersion, state.draftVersion));
      }
      if o.status == CustomerConfirmed { o := o.(status := Draft); }
      cleared := false;
      if reason == ExplicitHumanRequest && o.hold && o.holdReason == Some(ExplicitHumanRequest) {
        o := o.(hold := false, holdReason := None);
        cleared := true;
      } else if reason != ExplicitHumanRequest {
        o := o.(hold := true, holdReason := Some(reason));
      }
      uow.orders := uow.orders[oid := o];
    }

    /** Works on the case and session rows as they were read. */
    method ApplyCancellationEffects(id: int, c: Case, session: int, row: SessionRow) returns (result: Result<Cancellation, Error>)
      modifies uow
      ensures match Steps.CancelEffects(old(uow.Rows()), id, c, session, row)
              case Ok(effects) => result == Ok(effects.report) && uow.Rows() == effects.db
              case Err(e) => result == Err(e)
    {
      var state := row.state;
      var order := Steps.OrderOf(uow.Rows(), c);
      var explicit := c.reason == ExplicitHumanRequest;
      if order.None? {
        var version := if state.confirmationValid || state.submitted then state.draftVersion + 1 else state.draftVersion;
        var saved := uow.SaveOptimistic(session, row.version, Steps.CancelledState(state, version, c, id, row.version + 1));
        if !saved { return Err(SessionVersionConflict); }
        return Ok(Cancellation(explicit, false, true, true, !explicit, version, Draft, row.version + 1, false));
      }
      var oid := order.value;
      var previous := uow.orders[oid];
      var cleared := SettleOrder(oid, c.reason, state);
      var o := uow.orders[oid];
      var version := Max(state.draftVersion, o.draftVersion);
      var saved := uow.SaveOptimistic(session, row.version, Steps.CancelledState(state, version, c, id, row.version + 1));
      if !saved { return Err(SessionVersionConflict); }
      var mayContinue := explicit && !o.hold;
      uow.AddOrderEvent(oid, HandoffCancelled(!mayContinue, c.reason, previous.status, o.status,
                                              previous.draftVersion, o.draftVersion, previous.hold, o.hold));
      result := Ok(Cancellation(mayContinue, cleared, true, true, o.hold, version, Draft, row.version + 1, false));
    }

    method Cancel(tenant: int, id: int, key: Option<int>) returns (result: Result<Cancellation, Error>)
      modifies uow
      ensures Outcome(uow.Rows(), result) == Steps.CancelCase(old(uow.Rows()), tenant, id, key)
    {
      var saved := uow.Rows();
      if !Steps.Scoped(uow.Rows(), id, tenant, key) { return Err(HandoffNotFound); }
      var c := uow.cases[id];
      if c.session !in uow.sessions || uow.sessions[c.session].tenant != tenant { return Err(HandoffNotFound); }
      var row := uow.sessions[c.session];
      if c.status == Cancelled { return Ok(Steps.CurrentCancellation(uow.Rows(), c, row)); }
      var claimed := uow.ClaimCancellation(id);
      if !claimed { return Err(InvalidHandoffTransition(c.status, Cancelled)); }
      var error := ApplyTransition(id, c.status, ProviderResult(Cancelled, Some(CaseCancelled), None), Customer);
      if error.Some? {
        uow.Rollback(saved);
        return Err(error.value);
      }
      result := ApplyCancellationEffects(id, c, c.session, row);
      if result.Err? { uow.Rollback(saved); }
    }
  }
}
