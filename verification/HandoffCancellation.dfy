/**
 Cancelling a case: what one applied cancel does to every table, that a replay
 reports the same outcome, and that the draft can be confirmed afresh exactly
 when the report says the draft may continue.
 */
module HandoffCancellation {
  import opened Wrappers
  import opened Journal
  import opened HandoffModel
  import opened HandoffSteps
  import opened HandoffInvariants

  /** The cancel that did the work, as opposed to one that found the work done. */
  predicate Applied(r: Result<Cancellation, Error>) {
    r.Ok? && !r.value.idempotentReplay
  }

  /** A cancel that does not apply leaves every table as it was, whether it replays or fails. */
  lemma UnappliedCommitChangesNothing(db: Db, t: Ticket)
    requires !Applied(CommitCancel(db, t).result)
    ensures CommitCancel(db, t).db == db
  {
  }

  /** An applied cancel claims an active case, writes one case event and one session version, and touches no other case, order or session. */
  lemma AppliedCommit(db: Db, t: Ticket)
    requires Applied(CommitCancel(db, t).result)
    ensures t.id in db.cases && IsActive(db.cases[t.id].status)
    ensures t.session in db.sessions && db.sessions[t.session].version == t.row.version
    ensures var after := CommitCancel(db, t).db;
            && after.cases == db.cases[t.id := db.cases[t.id].(status := Cancelled, failure := Some(CaseCancelled))]
            && after.caseEvents == Append(db.caseEvents, t.id, Moved(t.seen.status, Cancelled, Customer))
            && after.nextCase == db.nextCase && after.nextOrder == db.nextOrder
            && after.sessions == db.sessions[t.session := after.sessions[t.session]]
            && after.sessions[t.session].version == db.sessions[t.session].version + 1
            && after.sessions[t.session].state.items == t.row.state.items
            && after.orders.Keys == db.orders.Keys
            && (forall oid :: oid in db.orders && Some(oid) != t.seen.order ==> after.orders[oid] == db.orders[oid])
            && (t.seen.order.None? ==> after.orderEvents == db.orderEvents && after.confirmations == db.confirmations)
  {
  }

  /** A case's order belongs to the case's tenant. */
  predicate SameTenant(db: Db, id: int)
    requires id in db.cases
  {
    db.cases[id].order.Some? ==> OrderOf(db, db.cases[id]) == db.cases[id].order
  }

  lemma CaseOrderFound(db: Db, id: int)
    requires Linked(db) && id in db.cases
    ensures SameTenant(db, id)
  {
    if db.cases[id].order.Some? {
      var oid := db.cases[id].order.value;
      assert oid in db.orders && db.orders[oid].session == db.cases[id].session;
      assert db.sessions[db.orders[oid].session].tenant == db.orders[oid].tenant;
    }
  }

  /**
   A cancel of a case its caller may see does the work exactly when the case is
   active, replays exactly when it is already cancelled, and is refused otherwise.
   */
  lemma CancelTrichotomy(db: Db, tenant: int, id: int, key: Option<int>)
    requires Linked(db) && Scoped(db, id, tenant, key)
    ensures var r := CancelCase(db, tenant, id, key).result;
            var status := db.cases[id].status;
            && (Applied(r) <==> IsActive(status))
            && (r.Ok? && r.value.idempotentReplay <==> status == Cancelled)
            && (r.Err? <==> r == Err(InvalidHandoffTransition(status, Cancelled)))
  {
    CaseOrderFound(db, id);
  }

  /**
   After an applied cancel of a case with an order, order and session carry the
   same draft version, neither version fell, the order advanced at most to the
   larger of its successor and the session's version, and no confirmation,
   valid or withdrawn, exists at the new version.
   */
  lemma VersionsAfterCancel(db: Db, tenant: int, id: int, key: Option<int>)
    requires Inv(db) && Applied(CancelCase(db, tenant, id, key).result) && db.cases[id].order.Some?
    ensures var after := CancelCase(db, tenant, id, key).db;
            var oid := db.cases[id].order.value;
            var sid := db.cases[id].session;
            && oid in db.orders && oid in after.orders && sid in db.sessions && sid in after.sessions
            && after.orders[oid].draftVersion == after.sessions[sid].state.draftVersion == CancelCase(db, tenant, id, key).result.value.draftVersion
            && db.orders[oid].draftVersion <= after.orders[oid].draftVersion
            && db.sessions[sid].state.draftVersion <= after.sessions[sid].state.draftVersion
            && after.orders[oid].draftVersion <= Max(db.orders[oid].draftVersion + 1, db.sessions[sid].state.draftVersion)
            && (oid, after.orders[oid].draftVersion) !in after.confirmations
            && (forall v :: (oid, v) in after.confirmations && v == db.orders[oid].draftVersion ==> after.confirmations[(oid, v)].invalidated)
  {
    var oid := db.cases[id].order.value;
    var after := CancelCase(db, tenant, id, key).db;
    CaseOrderFound(db, id);
    var version := after.orders[oid].draftVersion;
    assert after.confirmations == InvalidateAt(db.confirmations, oid, db.orders[oid].draftVersion);
    assert db.orders[oid].draftVersion < version ==> (oid, version) !in db.confirmations;
  }

  /** What an applied cancel leaves for a replay to read, and the report it gives. */
  lemma CancelLeaves(db: Db, t: Ticket)
    requires Applied(CommitCancel(db, t).result) && t.id in db.cases && t.seen == db.cases[t.id]
    ensures var r := CommitCancel(db, t);
            && t.id in r.db.cases && r.db.cases[t.id] == db.cases[t.id].(status := Cancelled, failure := Some(CaseCancelled))
            && t.session in r.db.sessions && r.db.sessions[t.session].tenant == db.sessions[t.session].tenant
            && var after := r.db.sessions[t.session];
               var oid := OrderOf(db, t.seen);
               var explicit := t.seen.reason == ExplicitHumanRequest;
            && !after.state.confirmationValid && !after.state.submitted && after.state.lifecycle == Draft
            && OrderOf(r.db, t.seen) == oid
            && var hold := (if oid.Some? then r.db.orders[oid.value].hold else !explicit);
            && r.result.value == Cancellation(explicit && !hold, oid.Some? && db.orders[oid.value].hold && !hold, true, true, hold,
                                              after.state.draftVersion, Draft, after.version, false)
  {
  }

  /** A case seen as cancelled is reported, not changed. */
  lemma ReplayReads(db: Db, tenant: int, id: int, key: Option<int>)
    requires Scoped(db, id, tenant, key) && db.cases[id].status == Cancelled
    requires db.cases[id].session in db.sessions && db.sessions[db.cases[id].session].tenant == tenant
    ensures CancelCase(db, tenant, id, key) == Outcome(db, Ok(CurrentCancellation(db, db.cases[id], db.sessions[db.cases[id].session])))
  {
  }

  /** Cancelling again right away writes nothing and reports the same outcome, marked as a replay. */
  lemma ReplayReportsTheSame(db: Db, tenant: int, id: int, key: Option<int>)
    requires Inv(db) && Applied(CancelCase(db, tenant, id, key).result)
    ensures var first := CancelCase(db, tenant, id, key);
            CancelCase(first.db, tenant, id, key) == Outcome(first.db, Ok(first.result.value.(idempotentReplay := true)))
  {
    var t := ReadForCancel(db, tenant, id, key).value;
    var first := CommitCancel(db, t);
    CaseOrderFound(db, id);
    AppliedCommit(db, t);
    CancelLeaves(db, t);
    ReplayReads(first.db, tenant, id, key);
    SameReport(db, first.db, t, first.result.value);
  }

  /** The order of an active case is on hold, so what the first cancel cleared is what the replay finds cleared. */
  lemma SameReport(db: Db, after: Db, t: Ticket, report: Cancellation)
    requires Inv(db) && t.id in db.cases && t.seen == db.cases[t.id] && IsActive(t.seen.status) && SameTenant(db, t.id)
    requires t.id in after.cases && after.cases[t.id] == t.seen.(status := Cancelled, failure := Some(CaseCancelled))
    requires t.session in after.sessions && OrderOf(after, t.seen) == OrderOf(db, t.seen)
    requires !after.sessions[t.session].state.confirmationValid && !after.sessions[t.session].state.submitted
    requires after.sessions[t.session].state.lifecycle == Draft
    requires var oid := OrderOf(db, t.seen);
      var explicit := t.seen.reason == ExplicitHumanRequest;
      var hold := (if oid.Some? then after.orders[oid.value].hold else !explicit);
      report == Cancellation(explicit && !hold, oid.Some? && db.orders[oid.value].hold && !hold, true, true, hold,
                             after.sessions[t.session].state.draftVersion, Draft, after.sessions[t.session].version, false)
    requires t.seen.reason != ExplicitHumanRequest && t.seen.order.Some? ==> after.orders[t.seen.order.value].hold
    ensures CurrentCancellation(after, after.cases[t.id], after.sessions[t.session]) == report.(idempotentReplay := true)
  {
    if t.seen.order.Some? {
      assert HeldFor(db, t.seen.order.value, OpeningReason(Entries(db.caseEvents, t.id)));
    }
  }
}
