/**
 Racing requests, cancels, moves and turns. A request reads before it inserts,
 a cancel reads before it claims, and a provider move, the queueing of a case
 and the failing of one read the case before they write its status by primary
 key; between the two halves anything may happen. The partial unique index, the
 conditional update and the session version are what keeps the protocol
 together.
 */
module HandoffRaces {
  import opened Wrappers
  import opened Journal
  import opened HandoffModel
  import opened HandoffSteps
  import opened HandoffInvariants
  import opened HandoffCancellation

  /** Where a request or cancel in flight has got to. */
  datatype Process =
    | WillInsert(tenant: int, session: int, decision: Decision)
    | LostRace(tenant: int, session: int)
    | RequestDone(session: int, id: int)
    | WillCancel(ticket: Ticket)
    | WillMove(move: MoveTicket)
    | MoveDone
    | InTurn(tenant: int, session: int, row: SessionRow)
    | TurnDone
    | CancelDone(report: Cancellation)
    | Refused(error: Error)

  /** What a status move has read, and the move it is going to write. */
  datatype MoveTicket = MoveTicket(id: int, seen: HandoffStatus, move: ProviderResult, actor: Actor)

  datatype World = World(db: Db, processes: map<int, Process>)

  datatype Act =
    | Whole(step: Step)
    | BeginRequest(pid: int, tenant: int, session: int, decision: Decision)
    | FinishRequest(pid: int)
    | LookAfterRace(pid: int)
    | BeginCancel(pid: int, tenant: int, id: int, key: Option<int>)
    | FinishCancel(pid: int)
    | BeginMove(pid: int, step: Step)
    | FinishMove(pid: int)
    | BeginTurn(pid: int, tenant: int, session: int)
    | FinishTurn(pid: int, state: SessionState)

  function Put(w: World, db: Db, pid: int, p: Process): World {
    World(db, w.processes[pid := p])
  }

  predicate IsMove(s: Step) { s.StepQueue? || s.StepSummaryFailure? || s.StepProvider? }

  /** The read of a unit of work that moves a case, without a lock; None if there is nothing to do. */
  function ReadForMove(db: Db, s: Step): Result<Option<MoveTicket>, Error>
    requires IsMove(s)
  {
    match s
    case StepProvider(tenant, id, key, call) =>
      if call.Resolve? && !call.safe then Err(UnsafePayload)
      else if !Scoped(db, id, tenant, key) then Err(HandoffNotFound)
      else Ok(Some(MoveTicket(id, db.cases[id].status, ProviderAnswer(call), SimulationProvider)))
    case StepQueue(tenant, id, session, built) =>
      if !Scoped(db, id, tenant, None) then Err(HandoffNotFound)
      else if session !in db.sessions || db.sessions[session].tenant != tenant then Err(SessionNotFound)
      else if !built then Err(SummaryFailed)
      else Ok(Some(MoveTicket(id, db.cases[id].status, ProviderResult(Pending, None, None), SimulationProvider)))
    case StepSummaryFailure(tenant, id) =>
      if !Scoped(db, id, tenant, None) then Err(HandoffNotFound)
      else if db.cases[id].status != Requested && db.cases[id].status != Pending then Ok(None)
      else Ok(Some(MoveTicket(id, db.cases[id].status, ProviderResult(Failed, Some(SystemError), None), System)))
  }

  /** Another case of the session is active. */
  predicate OtherActive(cases: map<int, Case>, id: int)
    requires id in cases
  {
    exists k | k in cases :: k != id && cases[k].session == cases[id].session && IsActive(cases[k].status)
  }

  /**
   The rest of that unit of work. The new status is checked against the one
   that was read and written whatever the row says now; only the partial unique
   index can object, when another case of the session is active.
   */
  function CommitMove(db: Db, t: MoveTicket): Outcome<()> {
    if t.id !in db.cases then Outcome(db, Err(HandoffNotFound))
    else
      match ApplyTransition(db, t.id, t.seen, t.move, t.actor)
      case Err(e) => Outcome(db, Err(e))
      case Ok(db1) =>
        if IsActive(t.move.status) && OtherActive(db.cases, t.id) then Outcome(db, Err(UniqueViolation))
        else Outcome(db1, Ok(()))
  }

  function Next(w: World, a: Act): World {
    match a
    case Whole(step) => w.(db := Apply(w.db, step))
    case BeginRequest(pid, tenant, session, d) =>
      if pid in w.processes then w
      else if session !in w.db.sessions || w.db.sessions[session].tenant != tenant then Put(w, w.db, pid, Refused(SessionNotFound))
      else
        var active := FindActive(w.db.cases, session, w.db.nextCase);
        if active.Some? then Put(w, UpdateRisk(w.db, active.value, d), pid, RequestDone(session, active.value))
        else Put(w, w.db, pid, WillInsert(tenant, session, d))
    case FinishRequest(pid) =>
      if pid !in w.processes || !w.processes[pid].WillInsert? then w
      else
        var p := w.processes[pid];
        var r := InsertCase(w.db, p.tenant, p.session, p.decision);
        (match r.result
         case Ok(id) => Put(w, r.db, pid, RequestDone(p.session, id))
         case Err(_) => Put(w, w.db, pid, LostRace(p.tenant, p.session)))
    case LookAfterRace(pid) =>
      if pid !in w.processes || !w.processes[pid].LostRace? then w
      else
        var active := FindActive(w.db.cases, w.processes[pid].session, w.db.nextCase);
        Put(w, w.db, pid, if active.Some? then RequestDone(w.processes[pid].session, active.value) else Refused(DatabaseWriteFailed))
    case BeginCancel(pid, tenant, id, key) =>
      if pid in w.processes then w
      else
        (match ReadForCancel(w.db, tenant, id, key)
         case Ok(ticket) => Put(w, w.db, pid, WillCancel(ticket))
         case Err(e) => Put(w, w.db, pid, Refused(e)))
    case FinishCancel(pid) =>
      if pid !in w.processes || !w.processes[pid].WillCancel? then w
      else
        var r := CommitCancel(w.db, w.processes[pid].ticket);
        Put(w, r.db, pid, match r.result case Ok(report) => CancelDone(report) case Err(e) => Refused(e))
    case BeginMove(pid, step) =>
      if pid in w.processes || !IsMove(step) then w
      else
        (match ReadForMove(w.db, step)
         case Ok(ticket) => Put(w, w.db, pid, if ticket.Some? then WillMove(ticket.value) else MoveDone)
         case Err(e) => Put(w, w.db, pid, Refused(e)))
    case FinishMove(pid) =>
      if pid !in w.processes || !w.processes[pid].WillMove? then w
      else
        var r := CommitMove(w.db, w.processes[pid].move);
        Put(w, r.db, pid, match r.result case Ok(_) => MoveDone case Err(e) => Refused(e))
    case BeginTurn(pid, tenant, session) =>
      if pid in w.processes then w
      else if session !in w.db.sessions || w.db.sessions[session].tenant != tenant then Put(w, w.db, pid, Refused(TenantMismatch))
      else Put(w, w.db, pid, InTurn(tenant, session, w.db.sessions[session]))
    case FinishTurn(pid, state) =>
      if pid !in w.processes || !w.processes[pid].InTurn? then w
      else Put(w, Apply(w.db, SaveOf(w.processes[pid], state)), pid, TurnDone)
  }

  function SaveOf(p: Process, state: SessionState): Step
    requires p.InTurn?
  {
    StepSaveTurn(p.tenant, p.session, state.(persistenceVersion := p.row.version))
  }

  function RunWorld(acts: seq<Act>): World {
    if acts == [] then World(EmptyDb, map[]) else Next(RunWorld(acts[..|acts| - 1]), acts[|acts| - 1])
  }

  // ---------- what survives every interleaving ----------

  /** Journals are numbered 1..n and belong to cases, and every case has been requested. */
  ghost predicate Recorded(db: Db) {
    && Numbered(db.caseEvents)
    && (forall id :: id in db.cases ==> db.cases[id].status != NotRequired)
    && (forall id :: id !in db.cases ==> Entries(db.caseEvents, id) == [])
  }

  ghost predicate RaceInv(db: Db) {
    Identified(db) && Linked(db) && OneActive(db.cases) && ConfirmationsBounded(db) && Recorded(db)
  }

  /** One active case changes, with one event. */
  lemma RaceCaseChanged(a: Db, b: Db, id: int, e: HandoffEvent)
    requires RaceInv(a) && RowsKept(a, b) && CasesAlike(a.cases, b.cases) && b.nextCase == a.nextCase
    requires id in a.cases && IsActive(a.cases[id].status) && b.cases[id].status != NotRequired
    requires forall other :: other in a.cases && other != id ==> b.cases[other] == a.cases[other]
    requires b.caseEvents == Append(a.caseEvents, id, e)
    requires b.confirmations.Keys <= a.confirmations.Keys
    ensures RaceInv(b)
  {
    ShapeKept(a, b);
    ConfirmationsKept(a, b);
    AppendExtends(a.caseEvents, id, e);
  }

  /** A case row is overwritten by a move, and if it is active now the index has checked its session. */
  lemma RaceCaseOverwritten(a: Db, b: Db, id: int, e: HandoffEvent)
    requires RaceInv(a) && RowsKept(a, b) && b.nextCase == a.nextCase
    requires id in a.cases && id in b.cases && b.cases == a.cases[id := b.cases[id]] && b.cases[id].status != NotRequired
    requires b.cases[id].session == a.cases[id].session && b.cases[id].tenant == a.cases[id].tenant
    requires b.cases[id].order == a.cases[id].order
    requires IsActive(b.cases[id].status) ==> !OtherActive(a.cases, id)
    requires b.caseEvents == Append(a.caseEvents, id, e)
    requires b.confirmations.Keys <= a.confirmations.Keys
    ensures RaceInv(b)
  {
    ConfirmationsKept(a, b);
    OverwrittenShape(a, b, id);
    AppendExtends(a.caseEvents, id, e);
  }

  lemma OverwrittenShape(a: Db, b: Db, id: int)
    requires Identified(a) && Linked(a) && OneActive(a.cases) && RowsKept(a, b) && b.nextCase == a.nextCase
    requires id in a.cases && id in b.cases && b.cases == a.cases[id := b.cases[id]]
    requires b.cases[id].session == a.cases[id].session && b.cases[id].tenant == a.cases[id].tenant
    requires b.cases[id].order == a.cases[id].order
    requires IsActive(b.cases[id].status) ==> !OtherActive(a.cases, id)
    ensures Identified(b) && Linked(b) && OneActive(b.cases)
  {
    // With the overwritten row ended, the rows are shaped as before; the row itself meets no other active case.
    var ended := b.(cases := a.cases[id := b.cases[id].(status := Cancelled)]);
    ShapeKept(a, ended);
    OverwrittenActive(ended.cases, b.cases, id);
  }

  lemma OverwrittenActive(a: map<int, Case>, b: map<int, Case>, id: int)
    requires id in a && id in b && b == a[id := b[id]] && OneActive(a) && b[id].session == a[id].session
    requires IsActive(b[id].status) ==> !OtherActive(a, id)
    ensures OneActive(b)
  {
    forall x, y | x in b && y in b && IsActive(b[x].status) && IsActive(b[y].status) && b[x].session == b[y].session
      ensures x == y
    {
      if x != id && y != id { assert b[x] == a[x] && b[y] == a[y]; }
    }
  }

  lemma RaceUntouched(a: Db, b: Db)
    requires RaceInv(a) && RowsKept(a, b)
    requires b.cases == a.cases && b.caseEvents == a.caseEvents && b.nextCase == a.nextCase
    requires b.confirmations.Keys <= a.confirmations.Keys
    ensures RaceInv(b)
  {
    ShapeKept(a, b);
    ConfirmationsKept(a, b);
  }

  /** What a committed move leaves in the tables, whatever it had read. */
  lemma CommittedMove(db: Db, t: MoveTicket)
    requires CommitMove(db, t).result.Ok?
    ensures t.id in db.cases && t.move.status in AllowedTransitions(t.seen)
    ensures IsActive(t.move.status) ==> !OtherActive(db.cases, t.id)
    ensures var after := CommitMove(db, t).db;
            && RowsKept(db, after) && after.sessions == db.sessions && after.nextCase == db.nextCase
            && t.id in after.cases && after.cases == db.cases[t.id := after.cases[t.id]]
            && after.cases[t.id].status == t.move.status
            && after.cases[t.id].session == db.cases[t.id].session && after.cases[t.id].tenant == db.cases[t.id].tenant
            && after.cases[t.id].order == db.cases[t.id].order
            && after.caseEvents == Append(db.caseEvents, t.id, Moved(t.seen, t.move.status, t.actor))
            && after.confirmations == db.confirmations
  {
  }

  lemma RefusedMove(db: Db, t: MoveTicket)
    requires !CommitMove(db, t).result.Ok?
    ensures CommitMove(db, t).db == db
  {
  }

  lemma RaceCommitMove(db: Db, t: MoveTicket)
    requires RaceInv(db)
    ensures RaceInv(CommitMove(db, t).db)
  {
    if CommitMove(db, t).result.Ok? {
      CommittedMove(db, t);
      RaceCaseOverwritten(db, CommitMove(db, t).db, t.id, Moved(t.seen, t.move.status, t.actor));
    } else {
      RefusedMove(db, t);
    }
  }

  lemma RaceRisk(db: Db, id: int, d: Decision)
    requires RaceInv(db) && id in db.cases && IsActive(db.cases[id].status)
    ensures RaceInv(UpdateRisk(db, id, d))
  {
    if db.cases[id].reason != d.reason {
      RaceCaseChanged(db, UpdateRisk(db, id, d), id, RiskUpdated(db.cases[id].reason, d.reason));
    }
  }

  lemma RaceMove(db: Db, id: int, r: ProviderResult, actor: Actor)
    requires RaceInv(db) && id in db.cases
    ensures RaceInv(MoveCase(db, id, r, actor).db)
  {
    var moved := MoveCase(db, id, r, actor);
    if moved.result.Ok? {
      MovedRows(db, id, r, actor);
      RaceCaseChanged(db, moved.db, id, Moved(db.cases[id].status, r.status, actor));
    }
  }

  lemma CommittedRows(db: Db, t: Ticket)
    requires Applied(CommitCancel(db, t).result)
    ensures var after := CommitCancel(db, t).db;
            RowsKept(db, after) && after.confirmations.Keys == db.confirmations.Keys
  {
  }

  lemma RaceCommit(db: Db, t: Ticket)
    requires RaceInv(db)
    ensures RaceInv(CommitCancel(db, t).db)
  {
    if Applied(CommitCancel(db, t).result) {
      AppliedCommit(db, t);
      CommittedRows(db, t);
      RaceCaseChanged(db, CommitCancel(db, t).db, t.id, Moved(t.seen.status, Cancelled, Customer));
    } else {
      UnappliedCommitChangesNothing(db, t);
    }
  }

  lemma NewRecorded(a: Db, b: Db, id: int, e: HandoffEvent)
    requires Recorded(a) && id !in a.cases && b.cases.Keys == a.cases.Keys + {id}
    requires forall k :: k in a.cases ==> b.cases[k] == a.cases[k]
    requires e.CaseRequested? && b.caseEvents == Append(a.caseEvents, id, e) && b.cases[id].status == Requested
    ensures Recorded(b)
  {
    AppendExtends(a.caseEvents, id, e);
  }

  lemma RaceInsert(db: Db, tenant: int, session: int, d: Decision)
    requires RaceInv(db) && session in db.sessions && db.sessions[session].tenant == tenant
    ensures RaceInv(InsertCase(db, tenant, session, d).db)
  {
    var r := InsertCase(db, tenant, session, d);
    if r.result.Ok? {
      InsertedRows(db, tenant, session, d);
      NewShape(db, r.db, db.nextCase);
      NewRecorded(db, r.db, db.nextCase, CaseRequested(d.reason, PriorityOf(d.reason)));
    }
  }

  lemma RaceRequest(db: Db, tenant: int, session: int, d: Decision)
    requires RaceInv(db)
    ensures RaceInv(CreateOrReuse(db, tenant, session, d).db)
  {
    if session in db.sessions && db.sessions[session].tenant == tenant {
      var active := FindActive(db.cases, session, db.nextCase);
      if active.Some? { RaceRisk(db, active.value, d); } else { RaceInsert(db, tenant, session, d); }
    }
  }

  lemma RaceConfirm(db: Db, tenant: int, session: int, state: SessionState, at: int)
    requires RaceInv(db)
    ensures RaceInv(ConfirmOrder(db, tenant, session, state, at).db)
  {
    var r := ConfirmOrder(db, tenant, session, state, at);
    if r.result.Ok? {
      ConfirmedRows(db, tenant, session, state, at);
      RaceConfirmed(db, r.db, r.result.value, session, tenant, state.draftVersion);
    }
  }

  lemma RaceConfirmed(a: Db, b: Db, oid: int, session: int, tenant: int, version: int)
    requires RaceInv(a) && ConfirmedAs(a, b, oid, session, tenant, version)
    ensures RaceInv(b)
  {
    ConfirmShape(a, b, oid, version);
  }

  lemma RaceOrderStep(db: Db, s: Step)
    requires RaceInv(db) && (s.StepInvalidate? || s.StepLifecycle? || s.StepSaveTurn? || s.StepOpenSession?)
    ensures RaceInv(Apply(db, s))
  {
    OrderStepRows(db, s, Apply(db, s));
    RaceUntouched(db, Apply(db, s));
  }

  /** Sessions may be added, orders may move; every other table stays. */
  ghost predicate OrderRowsOnly(db: Db, after: Db) {
    && RowsKept(db, after)
    && after.cases == db.cases && after.caseEvents == db.caseEvents && after.nextCase == db.nextCase
    && after.confirmations.Keys == db.confirmations.Keys
  }

  lemma OrderStepRows(db: Db, s: Step, after: Db)
    requires after == Apply(db, s) && (s.StepInvalidate? || s.StepLifecycle? || s.StepSaveTurn? || s.StepOpenSession?)
    ensures OrderRowsOnly(db, after)
  {
    match s
    case StepInvalidate(tenant, oid) => InvalidateRows(db, tenant, oid, after);
    case StepLifecycle(oid, target, fixture) => EnterRows(db, oid, target, fixture, after);
    case _ =>
  }

  lemma EnterRows(db: Db, oid: int, target: OrderStatus, fixture: bool, after: Db)
    requires after == EnterStatus(db, oid, target, fixture).db
    ensures OrderRowsOnly(db, after)
  {
  }

  lemma InvalidateRows(db: Db, tenant: int, oid: int, after: Db)
    requires after == InvalidateConfirmation(db, tenant, oid).db
    ensures OrderRowsOnly(db, after)
  {
  }

  lemma RaceStep(db: Db, s: Step)
    requires RaceInv(db)
    ensures RaceInv(Apply(db, s))
  {
    match s
    case StepConfirm(t, k, state, at) => RaceConfirm(db, t, k, state, at);
    case StepRequest(t, k, d) => RaceRequest(db, t, k, d);
    case StepQueue(t, id, k, built) =>
      if Scoped(db, id, t, None) { RaceMove(db, id, ProviderResult(Pending, None, None), SimulationProvider); }
    case StepSummaryFailure(t, id) =>
      if Scoped(db, id, t, None) { RaceMove(db, id, ProviderResult(Failed, Some(SystemError), None), System); }
    case StepProvider(t, id, key, call) =>
      if Scoped(db, id, t, key) { RaceMove(db, id, ProviderAnswer(call), SimulationProvider); }
    case StepCancel(t, id, key) =>
      var read := ReadForCancel(db, t, id, key);
      if read.Ok? { RaceCommit(db, read.value); }
    case _ => RaceOrderStep(db, s);
  }

  // ---------- sessions and cases are never removed ----------

  ghost predicate Grows(a: Db, b: Db) {
    && (forall k :: k in a.sessions ==> k in b.sessions && b.sessions[k].tenant == a.sessions[k].tenant)
    && (forall id :: id in a.cases ==> id in b.cases && b.cases[id].session == a.cases[id].session)
  }

  lemma StepGrows(db: Db, s: Step)
    requires Identified(db)
    ensures Grows(db, Apply(db, s))
  {
    match s
    case StepConfirm(t, k, state, at) =>
      if ConfirmOrder(db, t, k, state, at).result.Ok? { ConfirmedRows(db, t, k, state, at); }
    case StepCancel(t, id, key) =>
      var read := ReadForCancel(db, t, id, key);
      if read.Ok? { CommitGrows(db, read.value); }
    case StepRequest(t, k, d) =>
      if CreateOrReuse(db, t, k, d).result.Ok? { RequestGrows(db, t, k, d); }
    case StepProvider(t, id, key, call) => ProviderGrows(db, t, id, key, call);
    case _ =>
  }

  lemma ProviderGrows(db: Db, tenant: int, id: int, key: Option<int>, call: ProviderCall)
    ensures Grows(db, ProviderMove(db, tenant, id, key, call).db)
  {
  }

  lemma RequestGrows(db: Db, tenant: int, session: int, d: Decision)
    requires Identified(db)
    ensures Grows(db, CreateOrReuse(db, tenant, session, d).db)
  {
  }

  lemma InsertGrows(db: Db, tenant: int, session: int, d: Decision)
    requires Identified(db)
    ensures Grows(db, InsertCase(db, tenant, session, d).db)
  {
    if InsertCase(db, tenant, session, d).result.Ok? { InsertedRows(db, tenant, session, d); }
  }

  lemma RiskGrows(db: Db, id: int, d: Decision)
    requires id in db.cases
    ensures Grows(db, UpdateRisk(db, id, d))
  {
  }

  lemma CommitGrows(db: Db, t: Ticket)
    ensures Grows(db, CommitCancel(db, t).db)
  {
    if Applied(CommitCancel(db, t).result) { AppliedCommit(db, t); CommittedRows(db, t); }
    else { UnappliedCommitChangesNothing(db, t); }
  }

  lemma CommitMoveGrows(db: Db, t: MoveTicket)
    ensures Grows(db, CommitMove(db, t).db)
  {
    if CommitMove(db, t).result.Ok? { CommittedMove(db, t); } else { RefusedMove(db, t); }
  }

  // ---------- the invariant of a world ----------

  ghost predicate WorldInv(w: World) {
    && RaceInv(w.db)
    && forall pid :: pid in w.processes && w.processes[pid].WillInsert? ==>
         w.processes[pid].session in w.db.sessions && w.db.sessions[w.processes[pid].session].tenant == w.processes[pid].tenant
  }

  lemma ActGrows(w: World, a: Act)
    requires RaceInv(w.db)
    ensures Grows(w.db, Next(w, a).db)
  {
    match a
    case Whole(step) => StepGrows(w.db, step);
    case FinishCancel(pid) =>
      if pid in w.processes && w.processes[pid].WillCancel? { CommitGrows(w.db, w.processes[pid].ticket); }
    case FinishMove(pid) =>
      if pid in w.processes && w.processes[pid].WillMove? { CommitMoveGrows(w.db, w.processes[pid].move); }
    case FinishRequest(pid) =>
      if pid in w.processes && w.processes[pid].WillInsert? {
        InsertGrows(w.db, w.processes[pid].tenant, w.processes[pid].session, w.processes[pid].decision);
      }
    case BeginRequest(pid, tenant, session, d) =>
      var active := FindActive(w.db.cases, session, w.db.nextCase);
      if active.Some? { RiskGrows(w.db, active.value, d); }
    case FinishTurn(pid, state) =>
      if pid in w.processes && w.processes[pid].InTurn? { StepGrows(w.db, SaveOf(w.processes[pid], state)); }
    case _ =>
  }

  lemma ActKeepsRows(w: World, a: Act)
    requires WorldInv(w)
    ensures RaceInv(Next(w, a).db)
  {
    match a
    case Whole(step) => RaceStep(w.db, step);
    case BeginRequest(pid, tenant, session, d) =>
      var active := FindActive(w.db.cases, session, w.db.nextCase);
      if active.Some? { RaceRisk(w.db, active.value, d); }
    case FinishRequest(pid) =>
      if pid in w.processes && w.processes[pid].WillInsert? {
        RaceInsert(w.db, w.processes[pid].tenant, w.processes[pid].session, w.processes[pid].decision);
      }
    case FinishCancel(pid) =>
      if pid in w.processes && w.processes[pid].WillCancel? { RaceCommit(w.db, w.processes[pid].ticket); }
    case FinishMove(pid) =>
      if pid in w.processes && w.processes[pid].WillMove? { RaceCommitMove(w.db, w.processes[pid].move); }
    case FinishTurn(pid, state) =>
      if pid in w.processes && w.processes[pid].InTurn? { RaceStep(w.db, SaveOf(w.processes[pid], state)); }
    case _ =>
  }

  /** A request reaches its insert only for a session it has found. */
  lemma WaitingRequests(w: World, a: Act, pid: int)
    requires pid in Next(w, a).processes && Next(w, a).processes[pid].WillInsert?
    ensures var p := Next(w, a).processes[pid];
            || (pid in w.processes && w.processes[pid] == p)
            || (p.session in w.db.sessions && w.db.sessions[p.session].tenant == p.tenant)
  {
  }

  lemma ActKeeps(w: World, a: Act)
    requires WorldInv(w)
    ensures WorldInv(Next(w, a))
  {
    ActGrows(w, a);
    ActKeepsRows(w, a);
    var after := Next(w, a);
    forall pid | pid in after.processes && after.processes[pid].WillInsert?
      ensures after.processes[pid].session in after.db.sessions
      ensures after.db.sessions[after.processes[pid].session].tenant == after.processes[pid].tenant
    {
      WaitingRequests(w, a, pid);
    }
  }

  /** However requests, cancels and moves interleave, no session ever has two active cases. */
  lemma {:induction false} WorldsAreSafe(acts: seq<Act>)
    ensures WorldInv(RunWorld(acts))
    ensures OneActive(RunWorld(acts).db.cases)
  {
    if acts != [] {
      WorldsAreSafe(acts[..|acts| - 1]);
      ActKeeps(RunWorld(acts[..|acts| - 1]), acts[|acts| - 1]);
    }
  }

  // ---------- what a request returns ----------

  ghost predicate ReturnsActive(w: World, pid: int) {
    pid in w.processes && w.processes[pid].RequestDone? ==>
      && w.processes[pid].id in w.db.cases
      && w.db.cases[w.processes[pid].id].session == w.processes[pid].session
      && IsActive(w.db.cases[w.processes[pid].id].status)
  }

  /** A request that completes in this act hands back a case of its session that is active now. */
  lemma RequestCompletes(w: World, a: Act, pid: int)
    requires pid in w.processes ==> !w.processes[pid].RequestDone?
    ensures ReturnsActive(Next(w, a), pid)
  {
  }

  /** A request whose insert is refused has an active case of its session to look for. */
  lemma LostRaceHasWinner(w: World, pid: int)
    requires pid in w.processes && w.processes[pid].WillInsert? && Next(w, FinishRequest(pid)).processes[pid].LostRace?
    ensures Next(w, FinishRequest(pid)).db == w.db
    ensures exists id :: id in w.db.cases && w.db.cases[id].session == w.processes[pid].session && IsActive(w.db.cases[id].status)
  {
    var active := FindActive(w.db.cases, w.processes[pid].session, w.db.nextCase);
    assert active.Some?;
    var id := active.value;
    assert id in w.db.cases && w.db.cases[id].session == w.processes[pid].session && IsActive(w.db.cases[id].status);
  }

  /** Looking after a lost race hands back the session's active case, and fails only if that has ended meanwhile. */
  lemma LostRaceFinds(w: World, pid: int)
    requires RaceInv(w.db) && pid in w.processes && w.processes[pid].LostRace?
    ensures var session := w.processes[pid].session;
            var w' := Next(w, LookAfterRace(pid));
            && w'.db == w.db && pid in w'.processes
            && (forall id :: id in w.db.cases && w.db.cases[id].session == session && IsActive(w.db.cases[id].status) ==>
                  w'.processes[pid] == RequestDone(session, id))
            && ((forall id :: id in w.db.cases && w.db.cases[id].session == session ==> !IsActive(w.db.cases[id].status)) ==>
                  w'.processes[pid] == Refused(DatabaseWriteFailed))
  {
  }

  /** Whatever a request returned was an active case of its session at the moment it was read or inserted. */
  lemma {:induction false} RequestsReturnActiveCases(acts: seq<Act>, pid: int) returns (k: nat)
    requires pid in RunWorld(acts).processes && RunWorld(acts).processes[pid].RequestDone?
    ensures 0 < k <= |acts|
    ensures pid in RunWorld(acts[..k]).processes && RunWorld(acts[..k]).processes[pid] == RunWorld(acts).processes[pid]
    ensures pid in RunWorld(acts[..k - 1]).processes ==> !RunWorld(acts[..k - 1]).processes[pid].RequestDone?
    ensures ReturnsActive(RunWorld(acts[..k]), pid)
  {
    var init := acts[..|acts| - 1];
    var before := RunWorld(init);
    if pid in before.processes && before.processes[pid].RequestDone? {
      k := RequestsReturnActiveCases(init, pid);
      assert init[..k] == acts[..k] && init[..k - 1] == acts[..k - 1];
    } else {
      k := |acts|;
      assert acts[..k] == acts && acts[..k - 1] == init;
      RequestCompletes(before, acts[|acts| - 1], pid);
    }
  }

  // ---------- no session update is lost ----------

  /** A session row changes only together with its version. */
  ghost predicate VersionsAdvance(a: Db, b: Db) {
    forall k :: k in a.sessions ==> k in b.sessions && (b.sessions[k] == a.sessions[k] || b.sessions[k].version == a.sessions[k].version + 1)
  }

  lemma StepAdvances(db: Db, s: Step)
    requires Identified(db)
    ensures VersionsAdvance(db, Apply(db, s))
    ensures forall k :: k !in db.sessions && k in Apply(db, s).sessions ==> Apply(db, s).sessions[k].version == 1
  {
    match s
    case StepConfirm(t, k, state, at) => ConfirmAdvances(db, t, k, state, at);
    case StepCancel(t, id, key) =>
      var read := ReadForCancel(db, t, id, key);
      if read.Ok? { CommitAdvances(db, read.value); }
    case StepRequest(t, k, d) =>
    case StepProvider(t, id, key, call) =>
    case _ =>
  }

  lemma ConfirmAdvances(db: Db, tenant: int, session: int, state: SessionState, at: int)
    requires Identified(db)
    ensures var after := ConfirmOrder(db, tenant, session, state, at).db;
            after.sessions.Keys == db.sessions.Keys && VersionsAdvance(db, after)
  {
    if ConfirmOrder(db, tenant, session, state, at).result.Ok? {
      var p := PrepareDraft(db, tenant, session, state.draftVersion, at);
      PreparedRows(db, tenant, session, state.draftVersion, at);
      FinishedRows(p.db, p.order, session, db.sessions[session], state);
    }
  }

  lemma CommitAdvances(db: Db, t: Ticket)
    ensures var after := CommitCancel(db, t).db;
            after.sessions.Keys == db.sessions.Keys && VersionsAdvance(db, after)
  {
    if Applied(CommitCancel(db, t).result) { AppliedCommit(db, t); } else { UnappliedCommitChangesNothing(db, t); }
  }

  lemma CommitMoveAdvances(db: Db, t: MoveTicket)
    ensures CommitMove(db, t).db.sessions == db.sessions
  {
    if CommitMove(db, t).result.Ok? { CommittedMove(db, t); } else { RefusedMove(db, t); }
  }

  lemma ActAdvances(w: World, a: Act)
    requires RaceInv(w.db)
    ensures VersionsAdvance(w.db, Next(w, a).db)
    ensures forall k :: k !in w.db.sessions && k in Next(w, a).db.sessions ==> Next(w, a).db.sessions[k].version == 1
  {
    match a
    case Whole(step) => StepAdvances(w.db, step);
    case FinishCancel(pid) =>
      if pid in w.processes && w.processes[pid].WillCancel? { CommitAdvances(w.db, w.processes[pid].ticket); }
    case FinishMove(pid) =>
      if pid in w.processes && w.processes[pid].WillMove? { CommitMoveAdvances(w.db, w.processes[pid].move); }
    case FinishTurn(pid, state) =>
      if pid in w.processes && w.processes[pid].InTurn? { StepAdvances(w.db, SaveOf(w.processes[pid], state)); }
    case FinishRequest(pid) =>
      if pid in w.processes && w.processes[pid].WillInsert? {
        var p := w.processes[pid];
        if InsertCase(w.db, p.tenant, p.session, p.decision).result.Ok? { InsertedRows(w.db, p.tenant, p.session, p.decision); }
      }
    case _ =>
  }

  /** The row a writer has read: an older version than the stored row's, or that very row. */
  ghost predicate Current(db: Db, session: int, row: SessionRow) {
    && session in db.sessions && row.version <= db.sessions[session].version
    && (row.version == db.sessions[session].version ==> row == db.sessions[session])
  }

  ghost predicate ReadersCurrent(w: World) {
    forall pid :: pid in w.processes ==>
      && (w.processes[pid].WillCancel? ==> Current(w.db, w.processes[pid].ticket.session, w.processes[pid].ticket.row))
      && (w.processes[pid].InTurn? ==> Current(w.db, w.processes[pid].session, w.processes[pid].row))
  }

  lemma CurrentAdvances(a: Db, b: Db, session: int, row: SessionRow)
    requires Current(a, session, row) && VersionsAdvance(a, b)
    ensures Current(b, session, row)
  {
  }

  lemma NewReaders(w: World, a: Act, pid: int)
    requires pid in Next(w, a).processes && (Next(w, a).processes[pid].WillCancel? || Next(w, a).processes[pid].InTurn?)
    ensures var p := Next(w, a).processes[pid];
            || (pid in w.processes && w.processes[pid] == p)
            || (p.WillCancel? && Current(w.db, p.ticket.session, p.ticket.row))
            || (p.InTurn? && Current(w.db, p.session, p.row))
  {
  }

  lemma {:induction false} ReadersStayCurrent(acts: seq<Act>)
    ensures ReadersCurrent(RunWorld(acts))
  {
    if acts != [] {
      var init := acts[..|acts| - 1];
      var a := acts[|acts| - 1];
      var w := RunWorld(init);
      ReadersStayCurrent(init);
      WorldsAreSafe(init);
      ActAdvances(w, a);
      forall pid | pid in Next(w, a).processes && (Next(w, a).processes[pid].WillCancel? || Next(w, a).processes[pid].InTurn?)
        ensures Next(w, a).processes[pid].WillCancel? ==>
                  Current(Next(w, a).db, Next(w, a).processes[pid].ticket.session, Next(w, a).processes[pid].ticket.row)
        ensures Next(w, a).processes[pid].InTurn? ==>
                  Current(Next(w, a).db, Next(w, a).processes[pid].session, Next(w, a).processes[pid].row)
      {
        NewReaders(w, a, pid);
        var p := Next(w, a).processes[pid];
        if p.WillCancel? { CurrentAdvances(w.db, Next(w, a).db, p.ticket.session, p.ticket.row); }
        else { CurrentAdvances(w.db, Next(w, a).db, p.session, p.row); }
      }
    }
  }

  /** The session row a finishing turn or cancel has read. */
  function RowRead(p: Process): Option<(int, SessionRow)> {
    match p
    case WillCancel(t) => Some((t.session, t.row))
    case InTurn(_, session, row) => Some((session, row))
    case _ => None
  }

  /**
   In any interleaving of turns and cancels, a turn or cancel that commits a
   session state replaces the very row it had read, and the next version is one more.
   */
  lemma NoUpdateIsLost(acts: seq<Act>, a: Act)
    requires a.FinishTurn? || a.FinishCancel?
    requires a.pid in RunWorld(acts).processes && RowRead(RunWorld(acts).processes[a.pid]).Some?
    ensures var w := RunWorld(acts);
            var (session, row) := RowRead(w.processes[a.pid]).value;
            && session in w.db.sessions && session in Next(w, a).db.sessions
            && (Next(w, a).db.sessions[session] != w.db.sessions[session] ==>
                  row == w.db.sessions[session] && Next(w, a).db.sessions[session].version == row.version + 1)
  {
    var w := RunWorld(acts);
    ReadersStayCurrent(acts);
    WorldsAreSafe(acts);
    ActAdvances(w, a);
    if a.FinishCancel? && w.processes[a.pid].WillCancel? {
      var t := w.processes[a.pid].ticket;
      if Applied(CommitCancel(w.db, t).result) { AppliedCommit(w.db, t); } else { UnappliedCommitChangesNothing(w.db, t); }
    }
  }

  /** How many acts replaced the row of an existing session. */
  ghost function Commits(acts: seq<Act>, session: int): nat {
    if acts == [] then 0
    else
      var before := RunWorld(acts[..|acts| - 1]).db;
      var after := RunWorld(acts).db;
      Commits(acts[..|acts| - 1], session)
      + if session in before.sessions && session in after.sessions && after.sessions[session] != before.sessions[session] then 1 else 0
  }

  /** A session's version counts its commits, from 1. */
  lemma {:induction false} VersionCountsCommits(acts: seq<Act>, session: int)
    ensures var db := RunWorld(acts).db;
            if session in db.sessions then db.sessions[session].version == 1 + Commits(acts, session) else Commits(acts, session) == 0
  {
    if acts != [] {
      var init := acts[..|acts| - 1];
      VersionCountsCommits(init, session);
      WorldsAreSafe(init);
      ActAdvances(RunWorld(init), acts[|acts| - 1]);
    }
  }
}
