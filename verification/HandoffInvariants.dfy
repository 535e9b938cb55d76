/**
 What every unit of work keeps: at most one active case per session, an active
 case's order on hold for the reason the case was opened with, a journal that
 replays to the case row, and confirmations no newer than their order.
 */
module HandoffInvariants {
  import opened Wrappers
  import opened Journal
  import opened HandoffModel
  import opened HandoffSteps

  // ---------- replaying a case's journal ----------

  datatype Replayed = Replayed(status: HandoffStatus, reason: Reason, priority: Priority)

  /** The case row a journal describes; None if the journal is not a legal history. */
  function Replay(entries: seq<HandoffEvent>): Option<Replayed>
  {
    if entries == [] then None
    else
      var before := Replay(entries[..|entries| - 1]);
      match entries[|entries| - 1]
      case CaseRequested(reason, priority) => if |entries| == 1 then Some(Replayed(Requested, reason, priority)) else None
      case RiskUpdated(previous, reason) =>
        if before.Some? && IsActive(before.value.status) && before.value.reason == previous
        then Some(Replayed(before.value.status, reason, MaxPriority(before.value.priority, PriorityOf(reason)))) else None
      case Moved(from, to, _) =>
        if before.Some? && before.value.status == from && to in AllowedTransitions(from)
        then Some(before.value.(status := to)) else None
  }

  function Moves(entries: seq<HandoffEvent>): nat
  {
    if entries == [] then 0
    else Moves(entries[..|entries| - 1]) + if entries[|entries| - 1].Moved? then 1 else 0
  }

  /** How many status moves a case can still make. */
  function MovesLeft(s: HandoffStatus): nat {
    match s
    case NotRequired => 5
    case Requested => 4
    case Pending => 3
    case AgentAssigned => 2
    case AgentConnected => 1
    case Resolved => 0
    case Failed => 0
    case Cancelled => 0
  }

  lemma {:induction false} LegalJournalIsShort(entries: seq<HandoffEvent>)
    requires Replay(entries).Some?
    ensures Moves(entries) + MovesLeft(Replay(entries).value.status) <= 4
    ensures entries[0].CaseRequested?
  {
    var init := entries[..|entries| - 1];
    if init != [] {
      LegalJournalIsShort(init);
      assert entries[0] == init[0];
    }
  }

  function OpeningReason(entries: seq<HandoffEvent>): Option<Reason> {
    if entries != [] && entries[0].CaseRequested? then Some(entries[0].reason) else None
  }

  lemma ReplaySnoc(entries: seq<HandoffEvent>, e: HandoffEvent)
    ensures (entries + [e])[..|entries|] == entries
    ensures Moves(entries + [e]) == Moves(entries) + if e.Moved? then 1 else 0
    ensures entries != [] ==> OpeningReason(entries + [e]) == OpeningReason(entries)
  {
    assert (entries + [e])[..|entries + [e]| - 1] == entries;
  }

  // ---------- the invariant ----------

  ghost predicate Identified(db: Db) {
    && 1 <= db.nextCase && 1 <= db.nextOrder
    && (forall id :: id in db.cases ==> 1 <= id < db.nextCase)
    && (forall id :: id in db.orders ==> 1 <= id < db.nextOrder)
  }

  ghost predicate Linked(db: Db) {
    && (forall id :: id in db.cases ==> db.cases[id].session in db.sessions
                                        && db.sessions[db.cases[id].session].tenant == db.cases[id].tenant)
    && (forall id :: id in db.orders ==> db.orders[id].session in db.sessions
                                         && db.sessions[db.orders[id].session].tenant == db.orders[id].tenant)
    && (forall id :: id in db.cases && db.cases[id].order.Some? ==>
          db.cases[id].order.value in db.orders && db.orders[db.cases[id].order.value].session == db.cases[id].session)
  }

  ghost predicate OneActive(cases: map<int, Case>) {
    forall a, b ::
      (a in cases && b in cases && IsActive(cases[a].status) && IsActive(cases[b].status)
       && cases[a].session == cases[b].session) ==> a == b
  }

  ghost predicate HeldFor(db: Db, oid: int, reason: Option<Reason>) {
    oid in db.orders && db.orders[oid].hold && db.orders[oid].holdReason == reason
  }

  /** The order of an active case is its session's latest, held for the reason the case was opened with. */
  ghost predicate ActiveCasesHold(db: Db) {
    forall id :: id in db.cases && IsActive(db.cases[id].status) && db.cases[id].order.Some? ==>
      && HeldFor(db, db.cases[id].order.value, OpeningReason(Entries(db.caseEvents, id)))
      && LatestOrder(db.orders, db.cases[id].session, db.cases[id].tenant, db.nextOrder) == db.cases[id].order
  }

  ghost predicate Describes(db: Db, id: int, entries: seq<HandoffEvent>)
    requires id in db.cases
  {
    Replay(entries) == Some(Replayed(db.cases[id].status, db.cases[id].reason, db.cases[id].priority))
  }

  ghost predicate Journaled(db: Db) {
    && Numbered(db.caseEvents)
    && (forall id :: id in db.cases ==> Describes(db, id, Entries(db.caseEvents, id)))
    && (forall id :: id !in db.cases ==> Entries(db.caseEvents, id) == [])
  }

  ghost predicate ConfirmationsBounded(db: Db) {
    forall oid, version :: (oid, version) in db.confirmations ==> oid in db.orders && version <= db.orders[oid].draftVersion
  }

  ghost predicate Inv(db: Db) {
    && Identified(db) && Linked(db) && OneActive(db.cases) && ActiveCasesHold(db)
    && Journaled(db) && ConfirmationsBounded(db)
  }

  // ---------- frames ----------

  predicate SameOwner(a: Order, b: Order) {
    a.session == b.session && a.tenant == b.tenant && a.createdAt == b.createdAt
  }

  /** Two order tables that agree, below a bound, on what the latest-order query looks at. */
  ghost predicate SameOrderKeys(a: map<int, Order>, b: map<int, Order>, bound: int) {
    forall id :: id < bound ==> ((id in a <==> id in b) && (id in a ==> SameOwner(a[id], b[id])))
  }

  lemma {:induction false} LatestFrame(a: map<int, Order>, b: map<int, Order>, session: int, tenant: int, bound: int)
    requires SameOrderKeys(a, b, bound)
    ensures LatestOrder(a, session, tenant, bound) == LatestOrder(b, session, tenant, bound)
    decreases bound
  {
    if bound > 0 {
      LatestFrame(a, b, session, tenant, bound - 1);
      assert bound - 1 in a <==> bound - 1 in b;
    }
  }

  /** Only the case id and its order's status, versions and hold may differ. */
  ghost predicate RowsKept(a: Db, b: Db) {
    && b.orders.Keys == a.orders.Keys && b.nextOrder == a.nextOrder
    && (forall oid :: oid in a.orders ==> SameOwner(a.orders[oid], b.orders[oid])
                                          && a.orders[oid].draftVersion <= b.orders[oid].draftVersion)
    && (forall k :: k in a.sessions ==> k in b.sessions && b.sessions[k].tenant == a.sessions[k].tenant)
  }

  predicate SameHold(a: Order, b: Order) { a.hold == b.hold && a.holdReason == b.holdReason }

  lemma ConfirmationsKept(a: Db, b: Db)
    requires ConfirmationsBounded(a) && RowsKept(a, b) && b.confirmations.Keys <= a.confirmations.Keys
    ensures ConfirmationsBounded(b)
  {
    forall oid, version | (oid, version) in b.confirmations ensures oid in b.orders && version <= b.orders[oid].draftVersion {
      assert (oid, version) in a.confirmations.Keys;
      assert SameOwner(a.orders[oid], b.orders[oid]);
    }
  }

  /** Case rows keep their session, tenant and order, and no inactive case becomes active. */
  ghost predicate CasesAlike(a: map<int, Case>, b: map<int, Case>) {
    && b.Keys == a.Keys
    && (forall id :: id in a ==> b[id].session == a[id].session && b[id].tenant == a[id].tenant && b[id].order == a[id].order)
    && (forall id :: id in a && IsActive(b[id].status) ==> IsActive(a[id].status))
  }

  lemma ShapeKept(a: Db, b: Db)
    requires Identified(a) && Linked(a) && OneActive(a.cases) && RowsKept(a, b)
    requires CasesAlike(a.cases, b.cases) && b.nextCase == a.nextCase
    ensures Identified(b) && Linked(b) && OneActive(b.cases)
  {
    forall id | id in b.orders ensures b.orders[id].session in b.sessions && b.sessions[b.orders[id].session].tenant == b.orders[id].tenant {
      assert SameOwner(a.orders[id], b.orders[id]);
    }
    forall id | id in b.cases && b.cases[id].order.Some?
      ensures b.cases[id].order.value in b.orders && b.orders[b.cases[id].order.value].session == b.cases[id].session
    {
      var oid := a.cases[id].order.value;
      assert oid in a.orders;
      assert SameOwner(a.orders[oid], b.orders[oid]);
    }
  }

  /** A step that changes no case row and no case event, and keeps holds and order ownership, keeps what cases need. */
  lemma CasesUntouched(a: Db, b: Db)
    requires Inv(a) && RowsKept(a, b)
    requires b.cases == a.cases && b.caseEvents == a.caseEvents && b.nextCase == a.nextCase
    requires forall oid :: oid in a.orders ==> SameHold(a.orders[oid], b.orders[oid])
    requires b.confirmations.Keys <= a.confirmations.Keys
    ensures Inv(b)
  {
    ShapeKept(a, b);
    ConfirmationsKept(a, b);
    forall id | id in b.cases && IsActive(b.cases[id].status) && b.cases[id].order.Some?
      ensures HeldFor(b, b.cases[id].order.value, OpeningReason(Entries(b.caseEvents, id)))
      ensures LatestOrder(b.orders, b.cases[id].session, b.cases[id].tenant, b.nextOrder) == b.cases[id].order
    {
      LatestFrame(a.orders, b.orders, b.cases[id].session, b.cases[id].tenant, a.nextOrder);
    }
  }

  // ---------- one case row changes ----------

  lemma JournalGrows(a: Db, b: Db, id: int, e: HandoffEvent)
    requires Journaled(a) && id in a.cases
    requires b.cases.Keys == a.cases.Keys && (forall other :: other in a.cases && other != id ==> b.cases[other] == a.cases[other])
    requires b.caseEvents == Append(a.caseEvents, id, e)
    requires Describes(b, id, Entries(a.caseEvents, id) + [e])
    ensures Journaled(b)
    ensures OpeningReason(Entries(b.caseEvents, id)) == OpeningReason(Entries(a.caseEvents, id))
    ensures forall other :: other != id ==> Entries(b.caseEvents, other) == Entries(a.caseEvents, other)
  {
    AppendExtends(a.caseEvents, id, e);
    ReplaySnoc(Entries(a.caseEvents, id), e);
    assert Describes(a, id, Entries(a.caseEvents, id));
    forall other | other in b.cases ensures Describes(b, other, Entries(b.caseEvents, other)) {
      if other != id { assert Describes(a, other, Entries(a.caseEvents, other)); }
    }
  }

  /** An active case other than id does not share the order of an active case id. */
  lemma OrdersNotShared(db: Db, id: int, other: int)
    requires OneActive(db.cases) && Linked(db)
    requires id in db.cases && other in db.cases && id != other
    requires IsActive(db.cases[id].status) && IsActive(db.cases[other].status)
    requires db.cases[id].order.Some?
    ensures db.cases[other].order != db.cases[id].order
  {
  }

  lemma HoldsKept(a: Db, b: Db, id: int)
    requires OneActive(a.cases) && Linked(a) && ActiveCasesHold(a) && RowsKept(a, b)
    requires id in a.cases && IsActive(a.cases[id].status) && CasesAlike(a.cases, b.cases)
    requires OpeningReason(Entries(b.caseEvents, id)) == OpeningReason(Entries(a.caseEvents, id))
    requires forall other :: other != id ==> Entries(b.caseEvents, other) == Entries(a.caseEvents, other)
    requires forall oid :: oid in a.orders ==>
               (SameHold(a.orders[oid], b.orders[oid]) || (Some(oid) == a.cases[id].order && !IsActive(b.cases[id].status)))
    ensures ActiveCasesHold(b)
  {
    forall k | k in b.cases && IsActive(b.cases[k].status) && b.cases[k].order.Some?
      ensures HeldFor(b, b.cases[k].order.value, OpeningReason(Entries(b.caseEvents, k)))
      ensures LatestOrder(b.orders, b.cases[k].session, b.cases[k].tenant, b.nextOrder) == b.cases[k].order
    {
      LatestFrame(a.orders, b.orders, b.cases[k].session, b.cases[k].tenant, a.nextOrder);
      assert HeldFor(a, a.cases[k].order.value, OpeningReason(Entries(a.caseEvents, k)));
      if k != id && a.cases[id].order.Some? { OrdersNotShared(a, id, k); }
    }
  }

  /** The row of an active case changes with one event; its order may lose its hold only if the case ends. */
  lemma CaseChanged(a: Db, b: Db, id: int, e: HandoffEvent)
    requires Inv(a) && RowsKept(a, b)
    requires id in a.cases && IsActive(a.cases[id].status) && CasesAlike(a.cases, b.cases) && b.nextCase == a.nextCase
    requires forall other :: other in a.cases && other != id ==> b.cases[other] == a.cases[other]
    requires b.caseEvents == Append(a.caseEvents, id, e)
    requires Describes(b, id, Entries(a.caseEvents, id) + [e])
    requires forall oid :: oid in a.orders ==>
               (SameHold(a.orders[oid], b.orders[oid]) || (Some(oid) == a.cases[id].order && !IsActive(b.cases[id].status)))
    requires b.confirmations.Keys <= a.confirmations.Keys
    ensures Inv(b)
  {
    JournalGrows(a, b, id, e);
    HoldsKept(a, b, id);
    ShapeKept(a, b);
    ConfirmationsKept(a, b);
  }

  // ---------- each write keeps the invariant ----------

  lemma UpdateRiskKeeps(db: Db, id: int, d: Decision)
    requires Inv(db) && id in db.cases && IsActive(db.cases[id].status)
    ensures Inv(UpdateRisk(db, id, d))
  {
    var c := db.cases[id];
    if c.reason != d.reason {
      RiskDescribed(db, id, d);
      CaseChanged(db, UpdateRisk(db, id, d), id, RiskUpdated(c.reason, d.reason));
    }
  }

  lemma RiskDescribed(db: Db, id: int, d: Decision)
    requires Inv(db) && id in db.cases && IsActive(db.cases[id].status) && db.cases[id].reason != d.reason
    ensures Describes(UpdateRisk(db, id, d), id, Entries(db.caseEvents, id) + [RiskUpdated(db.cases[id].reason, d.reason)])
  {
    assert Describes(db, id, Entries(db.caseEvents, id));
    ReplaySnoc(Entries(db.caseEvents, id), RiskUpdated(db.cases[id].reason, d.reason));
  }

  /** What a successful move leaves in the tables. */
  lemma MovedRows(db: Db, id: int, r: ProviderResult, actor: Actor)
    requires id in db.cases && IsActive(db.cases[id].status) && MoveCase(db, id, r, actor).result.Ok?
    ensures r.status in AllowedTransitions(db.cases[id].status)
    ensures var after := MoveCase(db, id, r, actor).db;
            && RowsKept(db, after) && CasesAlike(db.cases, after.cases) && after.nextCase == db.nextCase
            && after.cases == db.cases[id := after.cases[id]]
            && after.cases[id].status == r.status && after.cases[id].reason == db.cases[id].reason
            && after.cases[id].priority == db.cases[id].priority
            && after.caseEvents == Append(db.caseEvents, id, Moved(db.cases[id].status, r.status, actor))
            && (forall oid :: oid in db.orders ==>
                  (SameHold(db.orders[oid], after.orders[oid]) || (Some(oid) == db.cases[id].order && r.status == Resolved)))
            && after.confirmations == db.confirmations
  {
  }

  lemma MoveCaseKeeps(db: Db, id: int, r: ProviderResult, actor: Actor)
    requires Inv(db) && id in db.cases
    ensures Inv(MoveCase(db, id, r, actor).db)
  {
    var moved := MoveCase(db, id, r, actor);
    if moved.result.Ok? {
      assert Describes(db, id, Entries(db.caseEvents, id));
      JournaledStatus(db, id);
      MovedRows(db, id, r, actor);
      MovedKeeps(db, moved.db, id, r.status, actor);
    }
  }

  lemma JournaledStatus(db: Db, id: int)
    requires Journaled(db) && id in db.cases
    ensures db.cases[id].status != NotRequired
    ensures !IsActive(db.cases[id].status) ==> AllowedTransitions(db.cases[id].status) == {}
  {
    assert Describes(db, id, Entries(db.caseEvents, id));
  }

  lemma MovedKeeps(a: Db, b: Db, id: int, to: HandoffStatus, actor: Actor)
    requires Inv(a) && id in a.cases && IsActive(a.cases[id].status) && to in AllowedTransitions(a.cases[id].status)
    requires RowsKept(a, b) && CasesAlike(a.cases, b.cases) && b.nextCase == a.nextCase
    requires b.cases == a.cases[id := a.cases[id].(status := to, failure := b.cases[id].failure, resolution := b.cases[id].resolution)]
    requires b.caseEvents == Append(a.caseEvents, id, Moved(a.cases[id].status, to, actor))
    requires forall oid :: oid in a.orders ==>
               (SameHold(a.orders[oid], b.orders[oid]) || (Some(oid) == a.cases[id].order && !IsActive(to)))
    requires b.confirmations.Keys <= a.confirmations.Keys
    ensures Inv(b)
  {
    var e := Moved(a.cases[id].status, to, actor);
    assert Describes(a, id, Entries(a.caseEvents, id));
    ReplaySnoc(Entries(a.caseEvents, id), e);
    CaseChanged(a, b, id, e);
  }

  lemma ProviderMoveKeeps(db: Db, tenant: int, id: int, key: Option<int>, call: ProviderCall)
    requires Inv(db)
    ensures Inv(ProviderMove(db, tenant, id, key, call).db)
  {
    if Scoped(db, id, tenant, key) { MoveCaseKeeps(db, id, ProviderAnswer(call), SimulationProvider); }
  }

  lemma QueueCaseKeeps(db: Db, tenant: int, id: int, session: int, summaryBuilt: bool)
    requires Inv(db)
    ensures Inv(QueueCase(db, tenant, id, session, summaryBuilt).db)
  {
    if Scoped(db, id, tenant, None) { MoveCaseKeeps(db, id, ProviderResult(Pending, None, None), SimulationProvider); }
  }

  lemma MarkSummaryFailureKeeps(db: Db, tenant: int, id: int)
    requires Inv(db)
    ensures Inv(MarkSummaryFailure(db, tenant, id).db)
  {
    if Scoped(db, id, tenant, None) { MoveCaseKeeps(db, id, ProviderResult(Failed, Some(SystemError), None), System); }
  }

  /** Inserting and freezing: the new case is the only active one of its session. */
  lemma InsertCaseKeeps(db: Db, tenant: int, session: int, d: Decision)
    requires Inv(db) && session in db.sessions && db.sessions[session].tenant == tenant
    ensures Inv(InsertCase(db, tenant, session, d).db)
  {
    var r := InsertCase(db, tenant, session, d);
    if r.result.Ok? {
      InsertedJournal(db, tenant, session, d);
      InsertedShape(db, tenant, session, d);
      InsertedHolds(db, tenant, session, d);
    }
  }

  lemma NewJournal(a: Db, b: Db, id: int, e: HandoffEvent)
    requires Journaled(a) && id !in a.cases && b.cases.Keys == a.cases.Keys + {id}
    requires forall k :: k in a.cases ==> b.cases[k] == a.cases[k]
    requires e.CaseRequested? && b.caseEvents == Append(a.caseEvents, id, e)
    requires b.cases[id].status == Requested && b.cases[id].reason == e.reason && b.cases[id].priority == e.priority
    ensures Journaled(b)
    ensures OpeningReason(Entries(b.caseEvents, id)) == Some(e.reason)
    ensures forall other :: other in a.cases ==> Entries(b.caseEvents, other) == Entries(a.caseEvents, other)
  {
    AppendExtends(a.caseEvents, id, e);
    assert Entries(b.caseEvents, id) == [] + [e] == [e];
    forall k | k in b.cases ensures Describes(b, k, Entries(b.caseEvents, k)) {
      if k != id { assert Describes(a, k, Entries(a.caseEvents, k)); }
    }
  }

  lemma InsertedRows(db: Db, tenant: int, session: int, d: Decision)
    requires Identified(db) && InsertCase(db, tenant, session, d).result.Ok?
    ensures var after := InsertCase(db, tenant, session, d).db;
            && after.cases == db.cases[db.nextCase := after.cases[db.nextCase]] && after.nextCase == db.nextCase + 1
            && after.caseEvents == Append(db.caseEvents, db.nextCase, CaseRequested(d.reason, PriorityOf(d.reason)))
            && after.sessions == db.sessions && RowsKept(db, after) && after.confirmations.Keys == db.confirmations.Keys
            && var c := after.cases[db.nextCase];
            && c.tenant == tenant && c.session == session && c.status == Requested && c.reason == d.reason
            && c.priority == PriorityOf(d.reason) && c.order == LatestOrder(db.orders, session, tenant, db.nextOrder)
  {
  }

  lemma InsertedJournal(db: Db, tenant: int, session: int, d: Decision)
    requires Inv(db) && InsertCase(db, tenant, session, d).result.Ok?
    ensures var after := InsertCase(db, tenant, session, d).db;
            && Journaled(after)
            && OpeningReason(Entries(after.caseEvents, db.nextCase)) == Some(d.reason)
            && forall other :: other in db.cases ==> Entries(after.caseEvents, other) == Entries(db.caseEvents, other)
  {
    InsertedRows(db, tenant, session, d);
    NewJournal(db, InsertCase(db, tenant, session, d).db, db.nextCase, CaseRequested(d.reason, PriorityOf(d.reason)));
  }

  lemma NewShape(a: Db, b: Db, id: int)
    requires Identified(a) && Linked(a) && OneActive(a.cases) && ConfirmationsBounded(a) && RowsKept(a, b)
    requires id == a.nextCase && b.nextCase == id + 1 && b.cases.Keys == a.cases.Keys + {id}
    requires forall k :: k in a.cases ==> b.cases[k] == a.cases[k]
    requires b.sessions == a.sessions && b.confirmations.Keys == a.confirmations.Keys
    requires var c := b.cases[id];
             && c.session in a.sessions && a.sessions[c.session].tenant == c.tenant
             && (c.order.Some? ==> c.order.value in a.orders && a.orders[c.order.value].session == c.session)
    requires FindActive(a.cases, b.cases[id].session, id).None?
    ensures Identified(b) && Linked(b) && OneActive(b.cases) && ConfirmationsBounded(b)
  {
    ConfirmationsKept(a, b);
    forall k | k in b.orders ensures b.orders[k].session in b.sessions && b.sessions[b.orders[k].session].tenant == b.orders[k].tenant {
      assert SameOwner(a.orders[k], b.orders[k]);
    }
    forall k | k in b.cases && b.cases[k].order.Some?
      ensures b.cases[k].order.value in b.orders && b.orders[b.cases[k].order.value].session == b.cases[k].session
    {
      var oid := b.cases[k].order.value;
      assert oid in a.orders;
      assert SameOwner(a.orders[oid], b.orders[oid]);
    }
  }

  lemma InsertedShape(db: Db, tenant: int, session: int, d: Decision)
    requires Inv(db) && session in db.sessions && db.sessions[session].tenant == tenant
    requires InsertCase(db, tenant, session, d).result.Ok?
    ensures var after := InsertCase(db, tenant, session, d).db;
            Identified(after) && Linked(after) && OneActive(after.cases) && ConfirmationsBounded(after)
  {
    InsertedRows(db, tenant, session, d);
    NewShape(db, InsertCase(db, tenant, session, d).db, db.nextCase);
  }

  lemma InsertedHolds(db: Db, tenant: int, session: int, d: Decision)
    requires Inv(db) && InsertCase(db, tenant, session, d).result.Ok?
    ensures ActiveCasesHold(InsertCase(db, tenant, session, d).db)
  {
    var after := InsertCase(db, tenant, session, d).db;
    InsertedJournal(db, tenant, session, d);
    forall k | k in after.cases && IsActive(after.cases[k].status) && after.cases[k].order.Some?
      ensures HeldFor(after, after.cases[k].order.value, OpeningReason(Entries(after.caseEvents, k)))
      ensures LatestOrder(after.orders, after.cases[k].session, after.cases[k].tenant, after.nextOrder) == after.cases[k].order
    {
      LatestFrame(db.orders, after.orders, after.cases[k].session, after.cases[k].tenant, db.nextOrder);
      if k != db.nextCase {
        assert db.cases[k].session != session;
        assert HeldFor(db, db.cases[k].order.value, OpeningReason(Entries(db.caseEvents, k)));
      }
    }
  }

  lemma CreateOrReuseKeeps(db: Db, tenant: int, session: int, d: Decision)
    requires Inv(db)
    ensures Inv(CreateOrReuse(db, tenant, session, d).db)
  {
    if session in db.sessions && db.sessions[session].tenant == tenant {
      var active := FindActive(db.cases, session, db.nextCase);
      if active.Some? { UpdateRiskKeeps(db, active.value, d); } else { InsertCaseKeeps(db, tenant, session, d); }
    }
  }

  // ---------- cancelling ----------

  /** The three writes of a claimed cancel, seen as one change of the case row. */
  lemma ClaimedCancel(db: Db, t: Ticket)
    requires t.id in db.cases && t.seen.status != Cancelled && CommitCancel(db, t).result.Ok?
    requires IsActive(db.cases[t.id].status)
    requires t.seen.order == db.cases[t.id].order && t.seen.tenant == db.cases[t.id].tenant
    ensures var after := CommitCancel(db, t).db;
            && RowsKept(db, after) && CasesAlike(db.cases, after.cases) && after.nextCase == db.nextCase
            && after.cases == db.cases[t.id := db.cases[t.id].(status := Cancelled, failure := Some(CaseCancelled))]
            && after.caseEvents == Append(db.caseEvents, t.id, Moved(t.seen.status, Cancelled, Customer))
            && (forall oid :: oid in db.orders ==> (SameHold(db.orders[oid], after.orders[oid]) || Some(oid) == db.cases[t.id].order))
            && after.confirmations.Keys == db.confirmations.Keys
  {
  }

  lemma CancelCaseKeeps(db: Db, tenant: int, id: int, key: Option<int>)
    requires Inv(db)
    ensures Inv(CancelCase(db, tenant, id, key).db)
  {
    var read := ReadForCancel(db, tenant, id, key);
    if read.Ok? && read.value.seen.status != Cancelled && CancelCase(db, tenant, id, key).result.Ok? {
      ClaimedCancel(db, read.value);
      MovedKeeps(db, CommitCancel(db, read.value).db, id, Cancelled, Customer);
    }
  }

  // ---------- orders and sessions ----------

  lemma EnterStatusKeeps(db: Db, oid: int, target: OrderStatus, merchantFixture: bool)
    requires Inv(db)
    ensures Inv(EnterStatus(db, oid, target, merchantFixture).db)
  {
    CasesUntouched(db, EnterStatus(db, oid, target, merchantFixture).db);
  }

  lemma InvalidateConfirmationKeeps(db: Db, tenant: int, oid: int)
    requires Inv(db)
    ensures Inv(InvalidateConfirmation(db, tenant, oid).db)
  {
    CasesUntouched(db, InvalidateConfirmation(db, tenant, oid).db);
  }

  lemma SaveTurnKeeps(db: Db, tenant: int, session: int, state: SessionState)
    requires Inv(db)
    ensures Inv(SaveTurn(db, tenant, session, state).db)
  {
    CasesUntouched(db, SaveTurn(db, tenant, session, state).db);
  }

  lemma OpenSessionKeeps(db: Db, tenant: int, session: int, state: SessionState)
    requires Inv(db)
    ensures Inv(OpenSession(db, tenant, session, state).db)
  {
    CasesUntouched(db, OpenSession(db, tenant, session, state).db);
  }

  lemma PreparedRows(db: Db, tenant: int, session: int, version: int, createdAt: int)
    requires Identified(db)
    ensures var p := PrepareDraft(db, tenant, session, version, createdAt);
            var latest := LatestOrder(db.orders, session, tenant, db.nextOrder);
            && p.db.(orders := db.orders, orderEvents := db.orderEvents, nextOrder := db.nextOrder) == db
            && p.order in p.db.orders && p.db.orders == db.orders[p.order := p.db.orders[p.order]]
            && p.db.orders[p.order].draftVersion == version && p.db.orders[p.order].status == Draft
            && OwnedBy(p.db.orders[p.order], session, tenant)
            && (if Some(p.order) == latest then p.db.orders == db.orders && p.db.nextOrder == db.nextOrder
                else p.order == db.nextOrder && p.db.nextOrder == db.nextOrder + 1 && !p.db.orders[p.order].hold)
  {
  }

  lemma FinishedRows(db: Db, oid: int, session: int, row: SessionRow, state: SessionState)
    requires oid in db.orders && FinishConfirm(db, oid, session, row, state).Ok?
    ensures var after := FinishConfirm(db, oid, session, row, state).value;
            && session in db.sessions
            && after.(orders := db.orders, orderEvents := db.orderEvents, confirmations := db.confirmations, sessions := db.sessions) == db
            && after.sessions == db.sessions[session := db.sessions[session].(version := row.version + 1, state := ConfirmedState(state, oid, row.version + 1))]
            && after.confirmations == db.confirmations[(oid, state.draftVersion) := Confirmation(false)]
            && (oid, state.draftVersion) !in db.confirmations
            && after.orders == db.orders[oid := db.orders[oid].(status := CustomerConfirmed)]
  {
  }

  /** A session whose latest order is not held has no active case that froze an order. */
  lemma OrderAddedHolds(a: Db, b: Db, oid: int, session: int, tenant: int)
    requires Identified(a) && ActiveCasesHold(a) && b.cases == a.cases && b.caseEvents == a.caseEvents
    requires oid == a.nextOrder && b.nextOrder == oid + 1 && oid !in a.orders
    requires oid in b.orders && b.orders == a.orders[oid := b.orders[oid]] && OwnedBy(b.orders[oid], session, tenant)
    requires var latest := LatestOrder(a.orders, session, tenant, a.nextOrder); latest.Some? ==> !a.orders[latest.value].hold
    ensures ActiveCasesHold(b)
  {
    forall id | id in b.cases && IsActive(b.cases[id].status) && b.cases[id].order.Some?
      ensures HeldFor(b, b.cases[id].order.value, OpeningReason(Entries(b.caseEvents, id)))
      ensures LatestOrder(b.orders, b.cases[id].session, b.cases[id].tenant, b.nextOrder) == b.cases[id].order
    {
      var c := a.cases[id];
      assert HeldFor(a, c.order.value, OpeningReason(Entries(a.caseEvents, id)));
      assert c.session != session || c.tenant != tenant;
      LatestFrame(a.orders, b.orders, c.session, c.tenant, oid);
    }
  }

  lemma ConfirmShape(a: Db, b: Db, oid: int, version: int)
    requires Identified(a) && Linked(a) && ConfirmationsBounded(a)
    requires b.cases == a.cases && b.nextCase == a.nextCase && b.nextOrder >= a.nextOrder && 1 <= oid < b.nextOrder
    requires oid in b.orders && b.orders == a.orders[oid := b.orders[oid]] && b.orders[oid].draftVersion == version
    requires oid in a.orders ==> a.orders[oid].session == b.orders[oid].session && a.orders[oid].draftVersion <= version
    requires b.orders[oid].session in b.sessions && b.sessions[b.orders[oid].session].tenant == b.orders[oid].tenant
    requires forall k :: k in a.sessions ==> k in b.sessions && b.sessions[k].tenant == a.sessions[k].tenant
    requires b.confirmations.Keys == a.confirmations.Keys + {(oid, version)}
    ensures Identified(b) && Linked(b) && ConfirmationsBounded(b)
  {
    forall k, v | (k, v) in b.confirmations ensures k in b.orders && v <= b.orders[k].draftVersion {
      if (k, v) !in a.confirmations { assert (k, v) == (oid, version); }
    }
    forall id | id in b.cases && b.cases[id].order.Some?
      ensures b.cases[id].order.value in b.orders && b.orders[b.cases[id].order.value].session == b.cases[id].session
    {
      var k := b.cases[id].order.value;
      assert k in a.orders;
    }
  }

  lemma ConfirmReuseHolds(a: Db, b: Db, oid: int)
    requires ActiveCasesHold(a) && b.cases == a.cases && b.caseEvents == a.caseEvents && b.nextOrder == a.nextOrder
    requires oid in a.orders && oid in b.orders && b.orders == a.orders[oid := b.orders[oid]]
    requires SameOwner(a.orders[oid], b.orders[oid]) && SameHold(a.orders[oid], b.orders[oid])
    ensures ActiveCasesHold(b)
  {
    forall id | id in b.cases && IsActive(b.cases[id].status) && b.cases[id].order.Some?
      ensures HeldFor(b, b.cases[id].order.value, OpeningReason(Entries(b.caseEvents, id)))
      ensures LatestOrder(b.orders, b.cases[id].session, b.cases[id].tenant, b.nextOrder) == b.cases[id].order
    {
      LatestFrame(a.orders, b.orders, b.cases[id].session, b.cases[id].tenant, a.nextOrder);
      assert HeldFor(a, a.cases[id].order.value, OpeningReason(Entries(a.caseEvents, id)));
    }
  }

  /** What a confirmation of order oid at a version leaves in the tables. */
  ghost predicate ConfirmedAs(a: Db, b: Db, oid: int, session: int, tenant: int, version: int) {
    && session in a.sessions && a.sessions[session].tenant == tenant
    && b.cases == a.cases && b.caseEvents == a.caseEvents && b.nextCase == a.nextCase
    && session in b.sessions && b.sessions == a.sessions[session := b.sessions[session]] && b.sessions[session].tenant == tenant
    && b.confirmations == a.confirmations[(oid, version) := Confirmation(false)]
    && oid in b.orders && b.orders == a.orders[oid := b.orders[oid]]
    && OwnedBy(b.orders[oid], session, tenant) && b.orders[oid].draftVersion == version
    && var latest := LatestOrder(a.orders, session, tenant, a.nextOrder);
    && (latest.Some? ==> !a.orders[latest.value].hold)
    && (if Some(oid) == latest then b.orders[oid] == a.orders[oid].(status := CustomerConfirmed) && b.nextOrder == a.nextOrder
        else oid == a.nextOrder && b.nextOrder == a.nextOrder + 1)
  }

  lemma ConfirmedRows(db: Db, tenant: int, session: int, state: SessionState, createdAt: int)
    requires Identified(db) && ConfirmOrder(db, tenant, session, state, createdAt).result.Ok?
    ensures var r := ConfirmOrder(db, tenant, session, state, createdAt);
            ConfirmedAs(db, r.db, r.result.value, session, tenant, state.draftVersion)
  {
    var r := ConfirmOrder(db, tenant, session, state, createdAt);
    var p := PrepareDraft(db, tenant, session, state.draftVersion, createdAt);
    var oid := p.order;
    PreparedRows(db, tenant, session, state.draftVersion, createdAt);
    FinishedRows(p.db, oid, session, db.sessions[session], state);
    assert r.db.orders[oid] == p.db.orders[oid].(status := CustomerConfirmed);
    assert r.db.orders == db.orders[oid := r.db.orders[oid]];
  }

  lemma ConfirmedKeeps(a: Db, b: Db, oid: int, session: int, tenant: int, version: int)
    requires Inv(a) && ConfirmedAs(a, b, oid, session, tenant, version)
    ensures Inv(b)
  {
    ConfirmShape(a, b, oid, version);
    if oid in a.orders { ConfirmReuseHolds(a, b, oid); } else { OrderAddedHolds(a, b, oid, session, tenant); }
  }

  lemma ConfirmOrderKeeps(db: Db, tenant: int, session: int, state: SessionState, createdAt: int)
    requires Inv(db)
    ensures Inv(ConfirmOrder(db, tenant, session, state, createdAt).db)
  {
    var r := ConfirmOrder(db, tenant, session, state, createdAt);
    if r.result.Ok? {
      ConfirmedRows(db, tenant, session, state, createdAt);
      ConfirmedKeeps(db, r.db, r.result.value, session, tenant, state.draftVersion);
    }
  }

  // ---------- every step, every run ----------

  lemma StepKeeps(db: Db, s: Step)
    requires Inv(db)
    ensures Inv(Apply(db, s))
  {
    match s
    case StepOpenSession(t, k, state) => OpenSessionKeeps(db, t, k, state);
    case StepSaveTurn(t, k, state) => SaveTurnKeeps(db, t, k, state);
    case StepConfirm(t, k, state, at) => ConfirmOrderKeeps(db, t, k, state, at);
    case StepInvalidate(t, o) => InvalidateConfirmationKeeps(db, t, o);
    case StepLifecycle(o, target, fixture) => EnterStatusKeeps(db, o, target, fixture);
    case StepRequest(t, k, d) => CreateOrReuseKeeps(db, t, k, d);
    case StepQueue(t, id, k, built) => QueueCaseKeeps(db, t, id, k, built);
    case StepSummaryFailure(t, id) => MarkSummaryFailureKeeps(db, t, id);
    case StepProvider(t, id, key, call) => ProviderMoveKeeps(db, t, id, key, call);
    case StepCancel(t, id, key) => CancelCaseKeeps(db, t, id, key);
  }

  lemma {:induction false} RunKeeps(db: Db, steps: seq<Step>)
    requires Inv(db)
    ensures Inv(Run(db, steps))
  {
    if steps != [] {
      RunKeeps(db, steps[..|steps| - 1]);
      StepKeeps(Run(db, steps[..|steps| - 1]), steps[|steps| - 1]);
    }
  }

  lemma EmptyHolds()
    ensures Inv(EmptyDb)
  {
  }

  /**
   In every reachable state: one active case per session; each case's journal is
   numbered 1..n, replays to its row along allowed moves, and moved at most four
   times after it was requested, however many risk updates lie between.
   */
  lemma ReachableCases(steps: seq<Step>)
    ensures var db := Run(EmptyDb, steps);
            && OneActive(db.cases) && Numbered(db.caseEvents)
            && forall id :: id in db.cases ==>
                 var entries := Entries(db.caseEvents, id);
                 && Replay(entries) == Some(Replayed(db.cases[id].status, db.cases[id].reason, db.cases[id].priority))
                 && entries[0].CaseRequested?
                 && Moves(entries) <= 4 - MovesLeft(db.cases[id].status)
  {
    EmptyHolds();
    RunKeeps(EmptyDb, steps);
    var db := Run(EmptyDb, steps);
    forall id | id in db.cases
      ensures Replay(Entries(db.caseEvents, id)) == Some(Replayed(db.cases[id].status, db.cases[id].reason, db.cases[id].priority))
      ensures Entries(db.caseEvents, id)[0].CaseRequested?
      ensures Moves(Entries(db.caseEvents, id)) <= 4 - MovesLeft(db.cases[id].status)
    {
      assert Describes(db, id, Entries(db.caseEvents, id));
      LegalJournalIsShort(Entries(db.caseEvents, id));
    }
  }
}
