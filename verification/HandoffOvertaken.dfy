/**
 What a status move that was overtaken does. It has read an open case, and
 writes its own status over whatever the row says by then: it reopens a case
 that was closed meanwhile, a cancelled one can be cancelled again, and its
 event does not replay. Without such a move a case is cancelled at most once and
 a closed case is never touched again.
 */
module HandoffOvertaken {
  import opened Wrappers
  import opened Journal
  import opened HandoffModel
  import opened HandoffSteps
  import opened HandoffInvariants
  import opened HandoffCancellation
  import opened HandoffRaces

  predicate IsCancelled(db: Db, id: int) { id in db.cases && db.cases[id].status == Cancelled }

  predicate IsClosed(db: Db, id: int) { id in db.cases && AllowedTransitions(db.cases[id].status) == {} }

  /** The act is a cancel of this case, whole or finishing, that does the work. */
  predicate CancelsNow(w: World, a: Act, id: int) {
    match a
    case Whole(s) => s.StepCancel? && s.id == id && Applied(CancelCase(w.db, s.tenant, s.id, s.key).result)
    case FinishCancel(pid) =>
      pid in w.processes && w.processes[pid].WillCancel? && w.processes[pid].ticket.id == id
      && Applied(CommitCancel(w.db, w.processes[pid].ticket).result)
    case _ => false
  }

  /** The act is a move of this case that commits. */
  predicate MovesNow(w: World, a: Act, id: int) {
    && a.FinishMove? && a.pid in w.processes && w.processes[a.pid].WillMove? && w.processes[a.pid].move.id == id
    && CommitMove(w.db, w.processes[a.pid].move).result.Ok?
  }

  /** A move that read this case open commits now that it is cancelled; now that it is closed. */
  predicate Uncancels(w: World, a: Act, id: int) { MovesNow(w, a, id) && IsCancelled(w.db, id) }

  predicate Overtaken(w: World, a: Act, id: int) { MovesNow(w, a, id) && IsClosed(w.db, id) }

  function AppliedCancels(acts: seq<Act>, id: int): nat {
    if acts == [] then 0
    else AppliedCancels(acts[..|acts| - 1], id) + if CancelsNow(RunWorld(acts[..|acts| - 1]), acts[|acts| - 1], id) then 1 else 0
  }

  function Uncancelled(acts: seq<Act>, id: int): nat {
    if acts == [] then 0
    else Uncancelled(acts[..|acts| - 1], id) + if Uncancels(RunWorld(acts[..|acts| - 1]), acts[|acts| - 1], id) then 1 else 0
  }

  /** The cancel events of a journal. */
  function Cancels(entries: seq<HandoffEvent>): nat {
    if entries == [] then 0
    else Cancels(entries[..|entries| - 1]) + if IsCancel(entries[|entries| - 1]) then 1 else 0
  }

  predicate IsCancel(e: HandoffEvent) { e.Moved? && e.to == Cancelled }

  lemma AppendCounts(rows: seq<Row<HandoffEvent>>, owner: int, e: HandoffEvent, id: int)
    requires Numbered(rows)
    ensures Cancels(Entries(Append(rows, owner, e), id)) == Cancels(Entries(rows, id)) + if owner == id && IsCancel(e) then 1 else 0
  {
    AppendExtends(rows, owner, e);
    var before := Entries(rows, id);
    if owner == id { assert (before + [e])[..|before + [e]| - 1] == before; }
  }

  // ---------- cancels are counted ----------

  /** The case is cancelled after as before, and no cancel event was written for it. */
  ghost predicate NotCancelled(a: Db, b: Db, id: int) {
    IsCancelled(b, id) == IsCancelled(a, id) && Cancels(Entries(b.caseEvents, id)) == Cancels(Entries(a.caseEvents, id))
  }

  lemma AppendedQuietly(a: Db, b: Db, owner: int, e: HandoffEvent, id: int)
    requires Numbered(a.caseEvents) && b.caseEvents == Append(a.caseEvents, owner, e) && !IsCancel(e)
    requires IsCancelled(b, id) == IsCancelled(a, id)
    ensures NotCancelled(a, b, id)
  {
    AppendCounts(a.caseEvents, owner, e, id);
  }

  lemma CommitCancels(db: Db, t: Ticket, id: int)
    requires RaceInv(db)
    ensures var hit := t.id == id && Applied(CommitCancel(db, t).result);
            var after := CommitCancel(db, t).db;
            && IsCancelled(after, id) == (IsCancelled(db, id) || hit) && (hit ==> !IsCancelled(db, id))
            && Cancels(Entries(after.caseEvents, id)) == Cancels(Entries(db.caseEvents, id)) + if hit then 1 else 0
  {
    if Applied(CommitCancel(db, t).result) {
      AppliedCommit(db, t);
      AppendCounts(db.caseEvents, t.id, Moved(t.seen.status, Cancelled, Customer), id);
    } else {
      UnappliedCommitChangesNothing(db, t);
    }
  }

  lemma InsertDoesNotCancel(db: Db, tenant: int, session: int, d: Decision, id: int)
    requires RaceInv(db)
    ensures NotCancelled(db, InsertCase(db, tenant, session, d).db, id)
  {
    if InsertCase(db, tenant, session, d).result.Ok? {
      InsertedRows(db, tenant, session, d);
      AppendedQuietly(db, InsertCase(db, tenant, session, d).db, db.nextCase, CaseRequested(d.reason, PriorityOf(d.reason)), id);
    }
  }

  lemma RiskDoesNotCancel(db: Db, c: int, d: Decision, id: int)
    requires RaceInv(db) && c in db.cases
    ensures NotCancelled(db, UpdateRisk(db, c, d), id)
  {
    if db.cases[c].reason != d.reason {
      AppendedQuietly(db, UpdateRisk(db, c, d), c, RiskUpdated(db.cases[c].reason, d.reason), id);
    }
  }

  lemma RequestDoesNotCancel(db: Db, tenant: int, session: int, d: Decision, id: int)
    requires RaceInv(db)
    ensures NotCancelled(db, CreateOrReuse(db, tenant, session, d).db, id)
  {
    var active := FindActive(db.cases, session, db.nextCase);
    InsertDoesNotCancel(db, tenant, session, d, id);
    if active.Some? { RiskDoesNotCancel(db, active.value, d, id); }
  }

  /** A case that moves was open: a whole unit of work cannot take a cancelled case anywhere. */
  lemma MovesDoNotCancel(db: Db, c: int, r: ProviderResult, actor: Actor, id: int)
    requires RaceInv(db) && c in db.cases && r.status != Cancelled
    ensures NotCancelled(db, MoveCase(db, c, r, actor).db, id)
  {
    if MoveCase(db, c, r, actor).result.Ok? {
      MovedRows(db, c, r, actor);
      AppendedQuietly(db, MoveCase(db, c, r, actor).db, c, Moved(db.cases[c].status, r.status, actor), id);
    }
  }

  lemma OtherStepsDoNotCancel(db: Db, s: Step, id: int)
    requires RaceInv(db) && !s.StepCancel?
    ensures NotCancelled(db, Apply(db, s), id)
  {
    match s
    case StepConfirm(t, k, state, at) =>
      if ConfirmOrder(db, t, k, state, at).result.Ok? { ConfirmedRows(db, t, k, state, at); }
    case StepRequest(t, k, d) => RequestDoesNotCancel(db, t, k, d, id);
    case StepProvider(t, c, key, call) =>
      if Scoped(db, c, t, key) { MovesDoNotCancel(db, c, ProviderAnswer(call), SimulationProvider, id); }
    case StepQueue(t, c, k, built) =>
      if Scoped(db, c, t, None) { MovesDoNotCancel(db, c, ProviderResult(Pending, None, None), SimulationProvider, id); }
    case StepSummaryFailure(t, c) =>
      if Scoped(db, c, t, None) { MovesDoNotCancel(db, c, ProviderResult(Failed, Some(SystemError), None), System, id); }
    case _ =>
  }

  lemma CommitMoveCounts(db: Db, t: MoveTicket, id: int)
    requires RaceInv(db) && t.move.status != Cancelled
    ensures var hit := t.id == id && CommitMove(db, t).result.Ok?;
            var after := CommitMove(db, t).db;
            && IsCancelled(after, id) == (IsCancelled(db, id) && !hit)
            && Cancels(Entries(after.caseEvents, id)) == Cancels(Entries(db.caseEvents, id))
  {
    if CommitMove(db, t).result.Ok? {
      CommittedMove(db, t);
      AppendCounts(db.caseEvents, t.id, Moved(t.seen, t.move.status, t.actor), id);
    } else {
      RefusedMove(db, t);
    }
  }

  /** No unit of work that moves a case moves it to cancelled. */
  ghost predicate MovesElsewhere(w: World) {
    forall pid :: pid in w.processes && w.processes[pid].WillMove? ==> w.processes[pid].move.move.status != Cancelled
  }

  lemma ActMovesElsewhere(w: World, a: Act)
    requires MovesElsewhere(w)
    ensures MovesElsewhere(Next(w, a))
  {
    forall pid | pid in Next(w, a).processes && Next(w, a).processes[pid].WillMove?
      ensures Next(w, a).processes[pid].move.move.status != Cancelled
    {
      if pid in w.processes && w.processes[pid].WillMove? { assert w.processes[pid].move.move.status != Cancelled; }
    }
  }

  lemma {:induction false} RunMovesElsewhere(acts: seq<Act>)
    ensures MovesElsewhere(RunWorld(acts))
  {
    if acts != [] {
      RunMovesElsewhere(acts[..|acts| - 1]);
      ActMovesElsewhere(RunWorld(acts[..|acts| - 1]), acts[|acts| - 1]);
    }
  }

  /** What the act does to the cancels of a case. */
  ghost predicate Balanced(w: World, a: Act, id: int) {
    && IsCancelled(Next(w, a).db, id) == ((IsCancelled(w.db, id) && !Uncancels(w, a, id)) || CancelsNow(w, a, id))
    && (CancelsNow(w, a, id) ==> !IsCancelled(w.db, id))
    && Cancels(Entries(Next(w, a).db.caseEvents, id)) == Cancels(Entries(w.db.caseEvents, id)) + if CancelsNow(w, a, id) then 1 else 0
  }

  lemma WholeBalanced(w: World, s: Step, id: int)
    requires RaceInv(w.db)
    ensures Balanced(w, Whole(s), id)
  {
    if s.StepCancel? {
      var read := ReadForCancel(w.db, s.tenant, s.id, s.key);
      if read.Ok? { CommitCancels(w.db, read.value, id); }
    } else {
      OtherStepsDoNotCancel(w.db, s, id);
    }
  }

  lemma FinishCancelBalanced(w: World, pid: int, id: int)
    requires RaceInv(w.db)
    ensures Balanced(w, FinishCancel(pid), id)
  {
    if pid in w.processes && w.processes[pid].WillCancel? { CommitCancels(w.db, w.processes[pid].ticket, id); }
  }

  lemma FinishMoveBalanced(w: World, pid: int, id: int)
    requires RaceInv(w.db) && MovesElsewhere(w)
    ensures Balanced(w, FinishMove(pid), id)
  {
    if pid in w.processes && w.processes[pid].WillMove? { CommitMoveCounts(w.db, w.processes[pid].move, id); }
  }

  lemma OtherActsBalanced(w: World, a: Act, id: int)
    requires RaceInv(w.db) && !a.Whole? && !a.FinishCancel? && !a.FinishMove?
    ensures Balanced(w, a, id)
  {
    match a
    case BeginRequest(pid, tenant, session, d) =>
      var active := FindActive(w.db.cases, session, w.db.nextCase);
      if active.Some? { RiskDoesNotCancel(w.db, active.value, d, id); }
    case FinishRequest(pid) =>
      if pid in w.processes && w.processes[pid].WillInsert? {
        InsertDoesNotCancel(w.db, w.processes[pid].tenant, w.processes[pid].session, w.processes[pid].decision, id);
      }
    case _ =>
  }

  lemma ActBalanced(w: World, a: Act, id: int)
    requires RaceInv(w.db) && MovesElsewhere(w)
    ensures Balanced(w, a, id)
  {
    match a
    case Whole(step) => WholeBalanced(w, step, id);
    case FinishCancel(pid) => FinishCancelBalanced(w, pid, id);
    case FinishMove(pid) => FinishMoveBalanced(w, pid, id);
    case _ => OtherActsBalanced(w, a, id);
  }

  /**
   In every interleaving the cancels of a case that did the work are balanced by
   the overtaken moves that took it out of cancelled, up to the one that still
   stands; and the journal holds one cancel event for each of them.
   */
  lemma {:induction false} CancelsBalance(acts: seq<Act>, id: int)
    ensures var db := RunWorld(acts).db;
            && AppliedCancels(acts, id) == Uncancelled(acts, id) + (if IsCancelled(db, id) then 1 else 0)
            && Cancels(Entries(db.caseEvents, id)) == AppliedCancels(acts, id)
  {
    if acts != [] {
      var init := acts[..|acts| - 1];
      CancelsBalance(init, id);
      WorldsAreSafe(init);
      RunMovesElsewhere(init);
      ActBalanced(RunWorld(init), acts[|acts| - 1], id);
    }
  }

  /** No act of the run is a move, read while the case was open, that commits after the case was cancelled. */
  ghost predicate NeverUncancelled(acts: seq<Act>, id: int) {
    forall k :: 0 <= k < |acts| ==> !Uncancels(RunWorld(acts[..k]), acts[k], id)
  }

  lemma {:induction false} UncancelledZero(acts: seq<Act>, id: int)
    ensures Uncancelled(acts, id) == 0 <==> NeverUncancelled(acts, id)
  {
    if acts != [] {
      var init := acts[..|acts| - 1];
      UncancelledZero(init, id);
      assert forall k :: 0 <= k < |init| ==> init[..k] == acts[..k] && init[k] == acts[k];
      if Uncancelled(acts, id) == 0 {
        forall k | 0 <= k < |acts| ensures !Uncancels(RunWorld(acts[..k]), acts[k], id) {
          if k < |init| { assert !Uncancels(RunWorld(init[..k]), init[k], id); }
        }
      }
    }
  }

  /** A case is cancelled exactly once if it ends cancelled and never otherwise, exactly when no overtaken move took it out of cancelled. */
  lemma CancelledOnceIff(acts: seq<Act>, id: int)
    ensures AppliedCancels(acts, id) == (if IsCancelled(RunWorld(acts).db, id) then 1 else 0) <==> NeverUncancelled(acts, id)
  {
    CancelsBalance(acts, id);
    UncancelledZero(acts, id);
  }

  // ---------- closed cases ----------

  /** The case has the row and the journal it had. */
  ghost predicate CaseKept(a: Db, b: Db, id: int) {
    && (id in a.cases ==> id in b.cases && b.cases[id] == a.cases[id])
    && Entries(b.caseEvents, id) == Entries(a.caseEvents, id)
  }

  lemma MoveKeepsClosed(db: Db, c: int, r: ProviderResult, actor: Actor, id: int)
    requires RaceInv(db) && c in db.cases && IsClosed(db, id)
    ensures CaseKept(db, MoveCase(db, c, r, actor).db, id)
  {
    if MoveCase(db, c, r, actor).result.Ok? {
      MovedRows(db, c, r, actor);
      AppendExtends(db.caseEvents, c, Moved(db.cases[c].status, r.status, actor));
    }
  }

  lemma CommitKeepsClosed(db: Db, t: Ticket, id: int)
    requires RaceInv(db) && IsClosed(db, id)
    ensures CaseKept(db, CommitCancel(db, t).db, id)
  {
    if Applied(CommitCancel(db, t).result) {
      AppliedCommit(db, t);
      AppendExtends(db.caseEvents, t.id, Moved(t.seen.status, Cancelled, Customer));
    } else {
      UnappliedCommitChangesNothing(db, t);
    }
  }

  lemma InsertKeepsClosed(db: Db, tenant: int, session: int, d: Decision, id: int)
    requires RaceInv(db) && IsClosed(db, id)
    ensures CaseKept(db, InsertCase(db, tenant, session, d).db, id)
  {
    if InsertCase(db, tenant, session, d).result.Ok? {
      InsertedRows(db, tenant, session, d);
      AppendExtends(db.caseEvents, db.nextCase, CaseRequested(d.reason, PriorityOf(d.reason)));
    }
  }

  lemma RiskKeepsClosed(db: Db, c: int, d: Decision, id: int)
    requires RaceInv(db) && IsClosed(db, id) && c in db.cases && IsActive(db.cases[c].status)
    ensures CaseKept(db, UpdateRisk(db, c, d), id)
  {
    AppendExtends(db.caseEvents, c, RiskUpdated(db.cases[c].reason, d.reason));
  }

  lemma RequestKeepsClosed(db: Db, tenant: int, session: int, d: Decision, id: int)
    requires RaceInv(db) && IsClosed(db, id)
    ensures CaseKept(db, CreateOrReuse(db, tenant, session, d).db, id)
  {
    var active := FindActive(db.cases, session, db.nextCase);
    InsertKeepsClosed(db, tenant, session, d, id);
    if active.Some? { RiskKeepsClosed(db, active.value, d, id); }
  }

  lemma MoveStepKeepsClosed(db: Db, s: Step, id: int)
    requires RaceInv(db) && IsClosed(db, id) && IsMove(s)
    ensures CaseKept(db, Apply(db, s), id)
  {
    match s
    case StepProvider(t, c, key, call) =>
      if Scoped(db, c, t, key) { MoveKeepsClosed(db, c, ProviderAnswer(call), SimulationProvider, id); }
    case StepQueue(t, c, k, built) =>
      if Scoped(db, c, t, None) { MoveKeepsClosed(db, c, ProviderResult(Pending, None, None), SimulationProvider, id); }
    case StepSummaryFailure(t, c) =>
      if Scoped(db, c, t, None) { MoveKeepsClosed(db, c, ProviderResult(Failed, Some(SystemError), None), System, id); }
  }

  lemma StepKeepsClosed(db: Db, s: Step, id: int)
    requires RaceInv(db) && IsClosed(db, id)
    ensures CaseKept(db, Apply(db, s), id)
  {
    match s
    case StepConfirm(t, k, state, at) =>
      if ConfirmOrder(db, t, k, state, at).result.Ok? { ConfirmedRows(db, t, k, state, at); }
    case StepRequest(t, k, d) => RequestKeepsClosed(db, t, k, d, id);
    case StepProvider(t, c, key, call) => MoveStepKeepsClosed(db, s, id);
    case StepQueue(t, c, k, built) => MoveStepKeepsClosed(db, s, id);
    case StepSummaryFailure(t, c) => MoveStepKeepsClosed(db, s, id);
    case StepCancel(t, c, key) =>
      var read := ReadForCancel(db, t, c, key);
      if read.Ok? { CommitKeepsClosed(db, read.value, id); }
    case _ =>
  }

  /** A move that commits writes its row and its event whatever the row said. */
  lemma CommitMoveKeeps(db: Db, t: MoveTicket, id: int)
    requires RaceInv(db)
    ensures CaseKept(db, CommitMove(db, t).db, id) <==> !(t.id == id && CommitMove(db, t).result.Ok?)
  {
    if CommitMove(db, t).result.Ok? {
      CommittedMove(db, t);
      AppendExtends(db.caseEvents, t.id, Moved(t.seen, t.move.status, t.actor));
    } else {
      RefusedMove(db, t);
    }
  }

  lemma ActKeepsClosed(w: World, a: Act, id: int)
    requires RaceInv(w.db) && IsClosed(w.db, id)
    ensures CaseKept(w.db, Next(w, a).db, id) <==> !Overtaken(w, a, id)
  {
    match a
    case Whole(step) => StepKeepsClosed(w.db, step, id);
    case FinishCancel(pid) =>
      if pid in w.processes && w.processes[pid].WillCancel? { CommitKeepsClosed(w.db, w.processes[pid].ticket, id); }
    case FinishMove(pid) =>
      if pid in w.processes && w.processes[pid].WillMove? { CommitMoveKeeps(w.db, w.processes[pid].move, id); }
    case BeginRequest(pid, tenant, session, d) =>
      var active := FindActive(w.db.cases, session, w.db.nextCase);
      if active.Some? { RiskKeepsClosed(w.db, active.value, d, id); }
    case FinishRequest(pid) =>
      if pid in w.processes && w.processes[pid].WillInsert? {
        InsertKeepsClosed(w.db, w.processes[pid].tenant, w.processes[pid].session, w.processes[pid].decision, id);
      }
    case _ =>
  }

  /** From act k on, nothing happened to the case. */
  ghost predicate KeptSince(acts: seq<Act>, k: nat, id: int)
    requires k <= |acts|
  {
    forall j :: k <= j <= |acts| ==> CaseKept(RunWorld(acts[..k]).db, RunWorld(acts[..j]).db, id)
  }

  /** From act k on, no move that read the case open commits. */
  ghost predicate NotOvertakenSince(acts: seq<Act>, k: nat, id: int) {
    forall j :: k <= j < |acts| ==> !MovesNow(RunWorld(acts[..j]), acts[j], id)
  }

  lemma RunStep(acts: seq<Act>, j: nat)
    requires j < |acts|
    ensures RunWorld(acts[..j + 1]) == Next(RunWorld(acts[..j]), acts[j])
  {
    assert acts[..j + 1][..j] == acts[..j];
  }

  lemma {:induction false} KeptUntil(acts: seq<Act>, k: nat, j: nat, id: int)
    requires k <= j <= |acts| && IsClosed(RunWorld(acts[..k]).db, id) && NotOvertakenSince(acts, k, id)
    ensures CaseKept(RunWorld(acts[..k]).db, RunWorld(acts[..j]).db, id)
    decreases j
  {
    if k < j {
      KeptUntil(acts, k, j - 1, id);
      RunStep(acts, j - 1);
      WorldsAreSafe(acts[..j - 1]);
      ActKeepsClosed(RunWorld(acts[..j - 1]), acts[j - 1], id);
    }
  }

  /**
   Once a case is resolved, failed or cancelled, its row and its journal stay as
   they are from then on, exactly when no move that read the case open commits
   after it closed.
   */
  lemma ClosedCasesStayIff(acts: seq<Act>, k: nat, id: int)
    requires k <= |acts| && IsClosed(RunWorld(acts[..k]).db, id)
    ensures KeptSince(acts, k, id) <==> NotOvertakenSince(acts, k, id)
  {
    if NotOvertakenSince(acts, k, id) {
      forall j | k <= j <= |acts| ensures CaseKept(RunWorld(acts[..k]).db, RunWorld(acts[..j]).db, id) {
        KeptUntil(acts, k, j, id);
      }
    }
    if KeptSince(acts, k, id) {
      forall j | k <= j < |acts| ensures !MovesNow(RunWorld(acts[..j]), acts[j], id) {
        RunStep(acts, j);
        WorldsAreSafe(acts[..j]);
        ActKeepsClosed(RunWorld(acts[..j]), acts[j], id);
        assert CaseKept(RunWorld(acts[..k]).db, RunWorld(acts[..j]).db, id);
        assert CaseKept(RunWorld(acts[..k]).db, RunWorld(acts[..j + 1]).db, id);
      }
    }
  }

  // ---------- the journal ----------

  /** An event naming another status than the row had cannot be replayed. */
  lemma StaleEventBreaksJournal(a: Db, b: Db, id: int, seen: HandoffStatus, to: HandoffStatus, actor: Actor)
    requires Inv(a) && id in a.cases && seen != a.cases[id].status && id in b.cases
    requires b.caseEvents == Append(a.caseEvents, id, Moved(seen, to, actor))
    ensures !Inv(b)
  {
    var e := Moved(seen, to, actor);
    assert Describes(a, id, Entries(a.caseEvents, id));
    ReplaySnoc(Entries(a.caseEvents, id), e);
    AppendExtends(a.caseEvents, id, e);
    assert !Describes(b, id, Entries(b.caseEvents, id));
  }

  /** An event naming the status the row had can. */
  lemma FreshCancelKeeps(a: Db, b: Db, id: int)
    requires Inv(a) && id in a.cases && IsActive(a.cases[id].status)
    requires RowsKept(a, b) && CasesAlike(a.cases, b.cases) && b.nextCase == a.nextCase
    requires b.cases == a.cases[id := a.cases[id].(status := Cancelled, failure := Some(CaseCancelled))]
    requires b.caseEvents == Append(a.caseEvents, id, Moved(a.cases[id].status, Cancelled, Customer))
    requires forall oid :: oid in a.orders ==> (SameHold(a.orders[oid], b.orders[oid]) || Some(oid) == a.cases[id].order)
    requires b.confirmations.Keys == a.confirmations.Keys
    ensures Inv(b)
  {
    FreshCancelReplays(a, b, id, Entries(a.caseEvents, id));
    CaseChanged(a, b, id, Moved(a.cases[id].status, Cancelled, Customer));
  }

  lemma FreshCancelReplays(a: Db, b: Db, id: int, entries: seq<HandoffEvent>)
    requires id in a.cases && IsActive(a.cases[id].status) && Describes(a, id, entries)
    requires id in b.cases && b.cases[id] == a.cases[id].(status := Cancelled, failure := Some(CaseCancelled))
    ensures Describes(b, id, entries + [Moved(a.cases[id].status, Cancelled, Customer)])
  {
    ReplaySnoc(entries, Moved(a.cases[id].status, Cancelled, Customer));
  }

  lemma FreshClaimKeeps(db: Db, t: Ticket)
    requires Inv(db) && Applied(CommitCancel(db, t).result) && t.id in db.cases && t.seen.status == db.cases[t.id].status
    requires t.seen.order == db.cases[t.id].order && t.seen.tenant == db.cases[t.id].tenant
    ensures Inv(CommitCancel(db, t).db)
  {
    AppliedCommit(db, t);
    ClaimedCancel(db, t);
    FreshCancelKeeps(db, CommitCancel(db, t).db, t.id);
  }

  /**
   A cancel that wins after the case moved on still cancels it once, but its
   event names the status it read: the journal keeps replaying to the case row
   exactly when no status move came between the read and the claim.
   */
  lemma StaleClaimBreaksJournal(db: Db, t: Ticket)
    requires Inv(db) && Applied(CommitCancel(db, t).result)
    requires t.id in db.cases && t.seen.order == db.cases[t.id].order && t.seen.tenant == db.cases[t.id].tenant
    ensures Inv(CommitCancel(db, t).db) <==> t.seen.status == db.cases[t.id].status
  {
    if t.seen.status == db.cases[t.id].status {
      FreshClaimKeeps(db, t);
    } else {
      AppliedCommit(db, t);
      StaleEventBreaksJournal(db, CommitCancel(db, t).db, t.id, t.seen.status, Cancelled, Customer);
    }
  }

  lemma FreshMoveKeeps(db: Db, t: MoveTicket)
    requires Inv(db) && CommitMove(db, t).result.Ok? && t.id in db.cases && t.seen == db.cases[t.id].status
    ensures Inv(CommitMove(db, t).db)
  {
    MoveCaseKeeps(db, t.id, t.move, t.actor);
  }

  /**
   The same for a move, whose unit of work reads the case without a lock. A move
   that commits sets the status it came for whatever the row says, so a closed
   case is open again; the journal replays afterwards exactly when the status it
   read is still the row's.
   */
  lemma StaleMoveBreaksJournal(db: Db, t: MoveTicket)
    requires Inv(db) && CommitMove(db, t).result.Ok?
    ensures t.id in db.cases && t.id in CommitMove(db, t).db.cases && CommitMove(db, t).db.cases[t.id].status == t.move.status
    ensures Inv(CommitMove(db, t).db) <==> t.seen == db.cases[t.id].status
  {
    CommittedMove(db, t);
    if t.seen == db.cases[t.id].status {
      FreshMoveKeeps(db, t);
    } else {
      StaleEventBreaksJournal(db, CommitMove(db, t).db, t.id, t.seen, t.move.status, t.actor);
    }
  }

  /** A cancel that reaches its claim while another's stands reports a replay and writes nothing. */
  lemma LateCancelReplays(db: Db, t: Ticket)
    requires IsCancelled(db, t.id)
    ensures CommitCancel(db, t).db == db
    ensures CommitCancel(db, t).result.Ok? && CommitCancel(db, t).result.value.idempotentReplay
  {
  }

  /** With nothing in between, the two halves of a request, of a cancel and of a move are the whole units of work. */
  lemma UndisturbedRequest(w: World, pid: int, tenant: int, session: int, d: Decision)
    requires pid !in w.processes
    ensures Next(Next(w, BeginRequest(pid, tenant, session, d)), FinishRequest(pid)).db == CreateOrReuse(w.db, tenant, session, d).db
  {
  }

  lemma UndisturbedCancel(w: World, pid: int, tenant: int, id: int, key: Option<int>)
    requires pid !in w.processes
    ensures Next(Next(w, BeginCancel(pid, tenant, id, key)), FinishCancel(pid)).db == CancelCase(w.db, tenant, id, key).db
  {
  }

  /** For a move this needs one active case per session: then the index has nothing to object to. */
  lemma UndisturbedMove(w: World, pid: int, s: Step)
    requires RaceInv(w.db) && pid !in w.processes && IsMove(s)
    ensures Next(Next(w, BeginMove(pid, s)), FinishMove(pid)).db == Apply(w.db, s)
  {
    var read := ReadForMove(w.db, s);
    if read.Ok? && read.value.Some? { assert IsActive(read.value.value.seen) ==> !OtherActive(w.db.cases, read.value.value.id); }
  }

  // ---------- runs in which it happens ----------

  lemma RunSnoc(acts: seq<Act>, a: Act, id: int)
    ensures RunWorld(acts + [a]) == Next(RunWorld(acts), a)
    ensures AppliedCancels(acts + [a], id) == AppliedCancels(acts, id) + if CancelsNow(RunWorld(acts), a, id) then 1 else 0
  {
    assert (acts + [a])[..|acts + [a]| - 1] == acts;
  }

  const NewState: SessionState :=
    SessionState([], 1, false, false, None, Draft, "greeting", None, NotRequired, AutoDraft, None, {}, {}, {}, 0)

  const Opening: seq<Act> :=
    [Whole(StepOpenSession(1, 1, NewState)), Whole(StepRequest(1, 1, Decision(ExplicitHumanRequest, {}, {})))]

  /** One session, one requested case, no order and nothing in flight. */
  lemma OpeningRequests()
    ensures var w := RunWorld(Opening);
            && w.processes == map[] && 1 in w.db.cases && w.db.cases.Keys == {1} && 1 in w.db.sessions
            && w.db.cases[1].status == Requested && w.db.cases[1].tenant == 1 && w.db.cases[1].session == 1 && w.db.cases[1].order.None?
            && w.db.sessions[1].tenant == 1 && Inv(w.db)
  {
    var open := Whole(StepOpenSession(1, 1, NewState));
    RunSnoc([], open, 1);
    RunSnoc([open], Opening[1], 1);
    assert [] + [open] == [open] && [open] + [Opening[1]] == Opening;
    EmptyHolds();
    StepKeeps(EmptyDb, open.step);
    StepKeeps(Apply(EmptyDb, open.step), Opening[1].step);
  }

  /** A queued case: an agent is about to be assigned, the customer cancels, the assignment commits, the customer cancels again. */
  function CancelTwice(pid: int, tenant: int, id: int): seq<Act> {
    [BeginMove(pid, StepProvider(tenant, id, None, Assign)), Whole(StepCancel(tenant, id, None)),
     FinishMove(pid), Whole(StepCancel(tenant, id, None))]
  }

  function Assigning(id: int): MoveTicket { MoveTicket(id, Pending, ProviderAnswer(Assign), SimulationProvider) }

  lemma CancelApplies(db: Db, tenant: int, id: int)
    requires RaceInv(db) && Scoped(db, id, tenant, None) && IsActive(db.cases[id].status)
    ensures var r := CancelCase(db, tenant, id, None);
            && Applied(r.result) && id in r.db.cases && r.db.cases == db.cases[id := r.db.cases[id]]
            && r.db.cases[id] == db.cases[id].(status := Cancelled, failure := Some(CaseCancelled))
  {
    CancelTrichotomy(db, tenant, id, None);
    AppliedCommit(db, ReadForCancel(db, tenant, id, None).value);
  }

  lemma CancelRaces(db: Db, tenant: int, id: int)
    requires RaceInv(db)
    ensures RaceInv(CancelCase(db, tenant, id, None).db)
  {
    var read := ReadForCancel(db, tenant, id, None);
    if read.Ok? { RaceCommit(db, read.value); }
  }

  /** The cancel closes the only active case of the session. */
  lemma CancelCloses(db: Db, tenant: int, id: int)
    requires RaceInv(db) && Scoped(db, id, tenant, None) && IsActive(db.cases[id].status)
    ensures var after := CancelCase(db, tenant, id, None).db;
            && RaceInv(after) && id in after.cases && after.cases[id].status == Cancelled && after.cases[id].tenant == tenant
            && !OtherActive(after.cases, id) && Applied(CancelCase(db, tenant, id, None).result)
  {
    CancelApplies(db, tenant, id);
    CancelRaces(db, tenant, id);
    NoOtherActive(db.cases, CancelCase(db, tenant, id, None).db.cases, id);
  }

  lemma NoOtherActive(a: map<int, Case>, b: map<int, Case>, id: int)
    requires OneActive(a) && id in a && IsActive(a[id].status) && id in b && b == a[id := b[id]] && b[id].session == a[id].session
    ensures !OtherActive(b, id)
  {
    forall k | k in b && k != id ensures b[k] == a[k] {}
  }

  /** The assignment that read it queued opens it. */
  lemma AssignmentReopens(db: Db, id: int)
    requires RaceInv(db) && id in db.cases && !OtherActive(db.cases, id)
    ensures var r := CommitMove(db, Assigning(id));
            && r.result.Ok? && RaceInv(r.db) && id in r.db.cases && r.db.cases[id].status == AgentAssigned
            && r.db.cases[id].tenant == db.cases[id].tenant
  {
    CommittedMove(db, Assigning(id));
    RaceCommitMove(db, Assigning(id));
  }

  lemma BeginsAssignment(w: World, pid: int, tenant: int, id: int)
    requires pid !in w.processes && Scoped(w.db, id, tenant, None) && w.db.cases[id].status == Pending
    ensures var a := BeginMove(pid, StepProvider(tenant, id, None, Assign));
            !CancelsNow(w, a, id) && Next(w, a) == Put(w, w.db, pid, WillMove(Assigning(id)))
  {
  }

  /** One act of the run: an assignment reads a queued case. */
  lemma AssignmentBegins(acts: seq<Act>, pid: int, tenant: int, id: int)
    requires pid !in RunWorld(acts).processes && Scoped(RunWorld(acts).db, id, tenant, None)
    requires RunWorld(acts).db.cases[id].status == Pending
    ensures var w := RunWorld(acts + [BeginMove(pid, StepProvider(tenant, id, None, Assign))]);
            w.db == RunWorld(acts).db && pid in w.processes && w.processes[pid] == WillMove(Assigning(id))
    ensures AppliedCancels(acts + [BeginMove(pid, StepProvider(tenant, id, None, Assign))], id) == AppliedCancels(acts, id)
  {
    RunSnoc(acts, BeginMove(pid, StepProvider(tenant, id, None, Assign)), id);
    BeginsAssignment(RunWorld(acts), pid, tenant, id);
  }

  lemma WholeCancel(w: World, tenant: int, id: int)
    requires Applied(CancelCase(w.db, tenant, id, None).result)
    ensures var a := Whole(StepCancel(tenant, id, None));
            CancelsNow(w, a, id) && Next(w, a) == World(CancelCase(w.db, tenant, id, None).db, w.processes)
  {
  }

  /** The customer cancels an active case, and the cancel does the work. */
  lemma CustomerCancels(acts: seq<Act>, tenant: int, id: int)
    requires Scoped(RunWorld(acts).db, id, tenant, None) && IsActive(RunWorld(acts).db.cases[id].status)
    ensures var w := RunWorld(acts + [Whole(StepCancel(tenant, id, None))]);
            && w.processes == RunWorld(acts).processes && w.db == CancelCase(RunWorld(acts).db, tenant, id, None).db
            && Scoped(w.db, id, tenant, None) && w.db.cases[id].status == Cancelled && !OtherActive(w.db.cases, id)
    ensures AppliedCancels(acts + [Whole(StepCancel(tenant, id, None))], id) == AppliedCancels(acts, id) + 1
  {
    RunSnoc(acts, Whole(StepCancel(tenant, id, None)), id);
    WorldsAreSafe(acts);
    CancelCloses(RunWorld(acts).db, tenant, id);
    WholeCancel(RunWorld(acts), tenant, id);
  }

  /** The assignment commits on the cancelled case. */
  lemma AssignmentCommits(acts: seq<Act>, pid: int, tenant: int, id: int)
    requires Scoped(RunWorld(acts).db, id, tenant, None) && !OtherActive(RunWorld(acts).db.cases, id)
    requires pid in RunWorld(acts).processes && RunWorld(acts).processes[pid] == WillMove(Assigning(id))
    ensures var w := RunWorld(acts + [FinishMove(pid)]);
            w.db == CommitMove(RunWorld(acts).db, Assigning(id)).db && Scoped(w.db, id, tenant, None) && w.db.cases[id].status == AgentAssigned
    ensures AppliedCancels(acts + [FinishMove(pid)], id) == AppliedCancels(acts, id)
  {
    RunSnoc(acts, FinishMove(pid), id);
    WorldsAreSafe(acts);
    AssignmentReopens(RunWorld(acts).db, id);
  }

  /** The first three acts: the case is cancelled and open again. */
  lemma CancelledAndReopened(acts: seq<Act>, pid: int, tenant: int, id: int)
    requires pid !in RunWorld(acts).processes && Scoped(RunWorld(acts).db, id, tenant, None)
    requires RunWorld(acts).db.cases[id].status == Pending
    ensures var more := CancelTwice(pid, tenant, id);
            var last := acts + [more[0]] + [more[1]] + [more[2]];
            var db := RunWorld(last).db;
            && AppliedCancels(last, id) == AppliedCancels(acts, id) + 1
            && db == CommitMove(CancelCase(RunWorld(acts).db, tenant, id, None).db, Assigning(id)).db
            && Scoped(db, id, tenant, None) && db.cases[id].status == AgentAssigned
  {
    var more := CancelTwice(pid, tenant, id);
    AssignmentBegins(acts, pid, tenant, id);
    CustomerCancels(acts + [more[0]], tenant, id);
    AssignmentCommits(acts + [more[0]] + [more[1]], pid, tenant, id);
  }

  lemma FourActs<T>(s: seq<T>, a: T, b: T, c: T, d: T)
    ensures s + [a, b, c, d] == s + [a] + [b] + [c] + [d]
    ensures s + [a, b, c, d][..3] == s + [a] + [b] + [c]
  {
  }

  /** Whatever led up to a queued case, it can be cancelled twice, and in between its journal stops replaying. */
  lemma CancelledTwice(acts: seq<Act>, pid: int, tenant: int, id: int)
    requires pid !in RunWorld(acts).processes && Scoped(RunWorld(acts).db, id, tenant, None)
    requires RunWorld(acts).db.cases[id].status == Pending
    ensures AppliedCancels(acts + CancelTwice(pid, tenant, id), id) == AppliedCancels(acts, id) + 2
    ensures var w := RunWorld(acts + CancelTwice(pid, tenant, id)[..3]);
            id in w.db.cases && w.db.cases[id].status == AgentAssigned && (Inv(RunWorld(acts).db) ==> !Inv(w.db))
  {
    var more := CancelTwice(pid, tenant, id);
    var last := acts + [more[0]] + [more[1]] + [more[2]];
    CancelledAndReopened(acts, pid, tenant, id);
    FourActs(acts, more[0], more[1], more[2], more[3]);
    CustomerCancels(last, tenant, id);
    if Inv(RunWorld(acts).db) { OvertakenBreaks(RunWorld(acts).db, tenant, id); }
  }

  lemma OvertakenBreaks(db: Db, tenant: int, id: int)
    requires Inv(db) && Scoped(db, id, tenant, None) && db.cases[id].status == Pending
    ensures !Inv(CommitMove(CancelCase(db, tenant, id, None).db, Assigning(id)).db)
  {
    var after := CancelCase(db, tenant, id, None).db;
    CancelCaseKeeps(db, tenant, id, None);
    JournaledIsRecorded(db);
    CancelCloses(db, tenant, id);
    AssignmentReopens(after, id);
    StaleMoveBreaksJournal(after, Assigning(id));
  }

  lemma JournaledIsRecorded(db: Db)
    requires Inv(db)
    ensures RaceInv(db)
  {
    forall id | id in db.cases ensures db.cases[id].status != NotRequired { JournaledStatus(db, id); }
  }

  const Queueing: Act := Whole(StepQueue(1, 1, 1, true))

  lemma StepRuns(acts: seq<Act>, s: Step)
    ensures RunWorld(acts + [Whole(s)]) == World(Apply(RunWorld(acts).db, s), RunWorld(acts).processes)
  {
    RunSnoc(acts, Whole(s), 0);
  }

  /** A requested case is queued while its cancel is under way. */
  lemma QueuedMeanwhile(db: Db, tenant: int, id: int)
    requires Inv(db) && Scoped(db, id, tenant, None) && db.cases[id].status == Requested
    ensures ReadForCancel(db, tenant, id, None) == Ok(Ticket(id, db.cases[id], db.cases[id].session, db.sessions[db.cases[id].session]))
    ensures var queued := QueueCase(db, tenant, id, db.cases[id].session, true).db;
            && Inv(queued) && queued.sessions == db.sessions && id in queued.cases
            && queued.cases[id] == db.cases[id].(status := Pending)
  {
    QueueCaseKeeps(db, tenant, id, db.cases[id].session, true);
  }

  lemma OpeningQueues()
    ensures var w := RunWorld(Opening + [Queueing]);
            && w.processes == map[] && 1 in w.db.cases && w.db.cases[1].status == Pending && w.db.cases[1].tenant == 1 && Inv(w.db)
    ensures AppliedCancels(Opening + [Queueing], 1) == 0
  {
    OpeningRequests();
    StepRuns(Opening, Queueing.step);
    QueuedMeanwhile(RunWorld(Opening).db, 1, 1);
    OpeningCancelsNothing();
    RunSnoc(Opening, Queueing, 1);
  }

  lemma OpeningCancelsNothing()
    ensures AppliedCancels(Opening, 1) == 0
  {
    RunSnoc([], Opening[0], 1);
    RunSnoc([Opening[0]], Opening[1], 1);
    assert [] + [Opening[0]] == [Opening[0]] && [Opening[0]] + [Opening[1]] == Opening;
  }

  /**
   A reachable run in which an assignment reads a queued case, the case is
   cancelled, the assignment opens it again with an event that does not replay,
   and a second cancel does the work once more.
   */
  lemma OvertakenMoveReached()
    ensures AppliedCancels(Opening + [Queueing] + CancelTwice(7, 1, 1), 1) == 2
    ensures var w := RunWorld(Opening + [Queueing] + CancelTwice(7, 1, 1)[..3]);
            1 in w.db.cases && w.db.cases[1].status == AgentAssigned && !Inv(w.db)
  {
    OpeningQueues();
    CancelledTwice(Opening + [Queueing], 7, 1, 1);
  }

  /** A cancel does the work if the case is active and the session as it was read, whatever the case's status was then. */
  lemma TicketApplies(db: Db, t: Ticket)
    requires t.id in db.cases && IsActive(db.cases[t.id].status) && IsActive(t.seen.status)
    requires t.session in db.sessions && db.sessions[t.session].version == t.row.version
    ensures Applied(CommitCancel(db, t).result)
  {
  }

  lemma StaleClaim(db: Db, tenant: int, session: int, id: int, t: Ticket, queued: Db)
    requires Inv(db) && Scoped(db, id, tenant, None) && db.cases[id].status == Requested && db.cases[id].session == session
    requires ReadForCancel(db, tenant, id, None) == Ok(t)
    requires queued == Apply(db, StepQueue(tenant, id, session, true))
    ensures !Inv(CommitCancel(queued, t).db)
  {
    QueuedMeanwhile(db, tenant, id);
    TicketApplies(queued, t);
    StaleClaimBreaksJournal(queued, t);
  }

  /** Its three acts: the cancel reads the case, the case is queued, the cancel commits. */
  lemma ClaimBegins(acts: seq<Act>, pid: int, tenant: int, id: int)
    requires pid !in RunWorld(acts).processes && ReadForCancel(RunWorld(acts).db, tenant, id, None).Ok?
    ensures var w := RunWorld(acts + [BeginCancel(pid, tenant, id, None)]);
            && w.db == RunWorld(acts).db && pid in w.processes
            && w.processes[pid] == WillCancel(ReadForCancel(RunWorld(acts).db, tenant, id, None).value)
  {
    RunSnoc(acts, BeginCancel(pid, tenant, id, None), id);
  }

  lemma ClaimCommits(acts: seq<Act>, pid: int, t: Ticket)
    requires pid in RunWorld(acts).processes && RunWorld(acts).processes[pid] == WillCancel(t)
    ensures RunWorld(acts + [FinishCancel(pid)]).db == CommitCancel(RunWorld(acts).db, t).db
  {
    RunSnoc(acts, FinishCancel(pid), 0);
  }

  function Overtake(pid: int, tenant: int, id: int, s: Step): seq<Act> { [BeginCancel(pid, tenant, id, None), Whole(s)] }

  lemma StepOvertakes(acts: seq<Act>, pid: int, tenant: int, id: int, s: Step, t: Ticket)
    requires pid !in RunWorld(acts).processes && ReadForCancel(RunWorld(acts).db, tenant, id, None) == Ok(t)
    ensures var overtaken := acts + Overtake(pid, tenant, id, s);
            && RunWorld(overtaken).db == Apply(RunWorld(acts).db, s)
            && RunWorld(overtaken + [FinishCancel(pid)]).db
               == CommitCancel(RunWorld(overtaken).db, t).db
  {
    var begun := acts + [BeginCancel(pid, tenant, id, None)];
    assert acts + Overtake(pid, tenant, id, s) == begun + [Whole(s)];
    ClaimBegins(acts, pid, tenant, id);
    StepRuns(begun, s);
    ClaimCommits(begun + [Whole(s)], pid, t);
  }

  /** Whatever led up to a requested case: a cancel reads it, the case is queued, and the cancel writes an event that does not replay. */
  lemma ClaimOvertaken(acts: seq<Act>, pid: int, tenant: int, session: int, id: int)
    requires pid !in RunWorld(acts).processes && Inv(RunWorld(acts).db) && Scoped(RunWorld(acts).db, id, tenant, None)
    requires RunWorld(acts).db.cases[id].status == Requested && RunWorld(acts).db.cases[id].session == session
    ensures !Inv(RunWorld(acts + Overtake(pid, tenant, id, StepQueue(tenant, id, session, true)) + [FinishCancel(pid)]).db)
  {
    QueuedMeanwhile(RunWorld(acts).db, tenant, id);
    OvertakenRun(acts, pid, tenant, session, id, ReadForCancel(RunWorld(acts).db, tenant, id, None).value);
  }

  lemma OvertakenRun(acts: seq<Act>, pid: int, tenant: int, session: int, id: int, t: Ticket)
    requires pid !in RunWorld(acts).processes && Inv(RunWorld(acts).db) && Scoped(RunWorld(acts).db, id, tenant, None)
    requires RunWorld(acts).db.cases[id].status == Requested && RunWorld(acts).db.cases[id].session == session
    requires ReadForCancel(RunWorld(acts).db, tenant, id, None) == Ok(t)
    ensures !Inv(RunWorld(acts + Overtake(pid, tenant, id, StepQueue(tenant, id, session, true)) + [FinishCancel(pid)]).db)
  {
    var overtaken := acts + Overtake(pid, tenant, id, StepQueue(tenant, id, session, true));
    StepOvertakes(acts, pid, tenant, id, StepQueue(tenant, id, session, true), t);
    StaleClaim(RunWorld(acts).db, tenant, session, id, t, RunWorld(overtaken).db);
  }

  /** A reachable run in which it does. */
  lemma StaleClaimReached()
    ensures Inv(RunWorld(Opening).db)
    ensures !Inv(RunWorld(Opening + Overtake(7, 1, 1, StepQueue(1, 1, 1, true)) + [FinishCancel(7)]).db)
  {
    OpeningRequests();
    ClaimOvertaken(Opening, 7, 1, 1, 1);
  }
}
