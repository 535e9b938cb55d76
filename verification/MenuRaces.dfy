/**
 Racing publishers. A publisher checks that its version is a draft, reads the
 published version, then archives that, publishes its own and commits; anything
 may happen in between. The conditional archive and the two unique indexes keep
 one menu published. They do not keep an archived menu archived: a publisher
 that was overtaken before it read the published version brings it back.
 */
module MenuRaces {
  import opened Wrappers
  import opened IdLists
  import opened MenuModel
  import opened MenuClone
  import opened MenuCopies
  import opened MenuIsomorphism
  import opened MenuPublishing
  import opened MenuSchema
  import opened MenuRepublish

  // found records the version's own status when the published one was read; no publisher looks at it.
  datatype Publisher =
    | WillLook(restaurant: int, version: int)
    | WillPublish(restaurant: int, version: int, seen: Option<int>, found: VersionStatus)
    | WillClone(restaurant: int, source: int, number: int, catalog: Catalog)
    | HasPublished(version: int)
    | Refused(error: MenuError)

  datatype World = World(menu: Menu, publishers: map<int, Publisher>)

  datatype Act =
    | AddDraft(restaurant: int)
    | BeginPublish(pid: int, restaurant: int, version: int)
    | LookForCurrent(pid: int)
    | FinishPublish(pid: int)
    | BeginCatalog(pid: int, restaurant: int, catalog: Catalog)
    | FinishCatalog(pid: int)

  predicate NumberTaken(m: Menu, restaurant: int, number: int) {
    exists v | v in m.versions :: m.versions[v].restaurant == restaurant && m.versions[v].number == number
  }

  /** The archive must find its version still published, and the index must find no other. */
  function CommitSwap(m: Menu, restaurant: int, seen: Option<int>, v: int): Result<Menu, MenuError> {
    if seen.Some? && !(seen.value in m.versions && m.versions[seen.value].status == Published) then Err(PublishConflict)
    else
      var swapped := Swap(m, restaurant, seen, v);
      if PublishedBelow(swapped.versions, restaurant, v, swapped.nextVersion).Some? then Err(PublishConflict) else Ok(swapped)
  }

  /** Clones the version read earlier; the version to archive is read at commit. */
  function CommitClone(m: Menu, restaurant: int, source: int, number: int, catalog: Catalog): Result<Menu, MenuError> {
    if NumberTaken(m, restaurant, number) then Err(PublishConflict)
    else
      match CloneDraft(m, restaurant, number, source, catalog)
      case Err(e) => Err(e)
      case Ok(cloned) => Ok(PublishVersion(cloned, restaurant, m.nextVersion))
  }

  function Put(w: World, pid: int, p: Publisher): World {
    w.(publishers := w.publishers[pid := p])
  }

  function Settle(w: World, pid: int, r: Result<Menu, MenuError>, v: int): World {
    match r
    case Ok(m) => World(m, w.publishers[pid := HasPublished(v)])
    case Err(e) => Put(w, pid, Refused(e))
  }

  function Next(w: World, a: Act): World {
    match a
    case AddDraft(restaurant) => w.(menu := CreateDraft(w.menu, restaurant))
    case BeginPublish(pid, restaurant, v) =>
      if pid in w.publishers then w
      else if v !in w.menu.versions || w.menu.versions[v].restaurant != restaurant then Put(w, pid, Refused(VersionNotFound))
      else if w.menu.versions[v].status != DraftMenu then Put(w, pid, Refused(NotADraft))
      else Put(w, pid, WillLook(restaurant, v))
    case LookForCurrent(pid) =>
      if pid !in w.publishers || !w.publishers[pid].WillLook? || w.publishers[pid].version !in w.menu.versions then w
      else
        var p := w.publishers[pid];
        Put(w, pid, WillPublish(p.restaurant, p.version, PublishedBelow(w.menu.versions, p.restaurant, p.version, w.menu.nextVersion),
                                w.menu.versions[p.version].status))
    case FinishPublish(pid) =>
      if pid !in w.publishers || !w.publishers[pid].WillPublish? then w
      else
        var p := w.publishers[pid];
        Settle(w, pid, CommitSwap(w.menu, p.restaurant, p.seen, p.version), p.version)
    case BeginCatalog(pid, restaurant, catalog) =>
      if pid in w.publishers then w
      else
        var current := CurrentVersion(w.menu, restaurant);
        if current.None? then Put(w, pid, Refused(VersionNotFound))
        else if Complete(w.menu, current.value, catalog.version) then Put(w, pid, HasPublished(current.value))
        else Put(w, pid, WillClone(restaurant, current.value, NextNumber(w.menu, restaurant), catalog))
    case FinishCatalog(pid) =>
      if pid !in w.publishers || !w.publishers[pid].WillClone? then w
      else
        var p := w.publishers[pid];
        Settle(w, pid, CommitClone(w.menu, p.restaurant, p.source, p.number, p.catalog), w.menu.nextVersion)
  }

  function Run(w: World, acts: seq<Act>): World
    decreases |acts|
  {
    if acts == [] then w else Run(Next(w, acts[0]), acts[1..])
  }

  // ---------- what every run keeps ----------

  function Rank(s: VersionStatus): nat {
    match s
    case DraftMenu => 0
    case Published => 1
    case Archived => 2
  }

  ghost predicate SomePublished(versions: map<int, Version>, restaurant: int) {
    exists v :: PublishedOther(versions, restaurant, -1, v)
  }

  /** Versions stay, a version that left draft is no draft again, and a restaurant once served stays served. */
  ghost predicate VersionsStay(before: map<int, Version>, after: map<int, Version>) {
    && (forall v :: v in before ==> v in after && after[v].restaurant == before[v].restaurant
                                    && (after[v].status == DraftMenu ==> before[v].status == DraftMenu))
    && (forall restaurant :: SomePublished(before, restaurant) ==> SomePublished(after, restaurant))
  }

  /** Statuses only move draft, published, archived. */
  ghost predicate Forward(before: map<int, Version>, after: map<int, Version>) {
    forall v :: v in before ==> v in after && Rank(before[v].status) <= Rank(after[v].status)
  }

  /** What a publisher holds on to in every interleaving: rows of its restaurant. */
  ghost predicate Ticketed(m: Menu, p: Publisher) {
    match p
    case WillLook(restaurant, v) => v in m.versions && m.versions[v].restaurant == restaurant
    case WillPublish(restaurant, v, seen, _) =>
      && v in m.versions && m.versions[v].restaurant == restaurant
      && (seen.Some? ==>
            && seen.value in m.versions && seen.value != v && m.versions[seen.value].restaurant == restaurant
            && m.versions[seen.value].status != DraftMenu)
    case WillClone(restaurant, source, number, _) =>
      source in m.versions && m.versions[source].restaurant == restaurant && m.versions[source].status != DraftMenu
    case HasPublished(v) => v in m.versions && m.versions[v].status != DraftMenu
    case Refused(_) => true
  }

  /** Every live branch serves the published version of its restaurant. */
  ghost predicate Served(m: Menu) {
    forall b, v :: b in m.branches && Live(m.branches[b]) && PublishedOther(m.versions, m.branches[b].restaurant, -1, v) ==>
      m.branches[b].menu == Some(v)
  }

  ghost predicate Safe(w: World) {
    Schema(w.menu) && Served(w.menu) && forall pid :: pid in w.publishers ==> Ticketed(w.menu, w.publishers[pid])
  }

  // ---------- one step on the versions ----------

  lemma StayTrans(a: map<int, Version>, b: map<int, Version>, c: map<int, Version>)
    requires VersionsStay(a, b) && VersionsStay(b, c)
    ensures VersionsStay(a, c)
  {
  }

  /** One forward commit: besides, a draft stays one or is published. */
  ghost predicate OneStep(before: map<int, Version>, after: map<int, Version>) {
    VersionsStay(before, after) && Forward(before, after)
    && forall v :: v in before && before[v].status == DraftMenu ==> after[v].status != Archived
  }

  lemma TicketsKept(m: Menu, m': Menu, publishers: map<int, Publisher>)
    requires forall pid :: pid in publishers ==> Ticketed(m, publishers[pid])
    requires VersionsStay(m.versions, m'.versions)
    ensures forall pid :: pid in publishers ==> Ticketed(m', publishers[pid])
  {
  }

  /** Adding a draft. */
  lemma DraftSteps(m: Menu, restaurant: int, number: int)
    requires Keys(m.versions, m.nextVersion)
    ensures OneStep(m.versions, m.versions[m.nextVersion := Version(restaurant, number, DraftMenu)])
  {
    var after := m.versions[m.nextVersion := Version(restaurant, number, DraftMenu)];
    forall r | SomePublished(m.versions, r) ensures SomePublished(after, r) {
      var v :| PublishedOther(m.versions, r, -1, v);
      assert PublishedOther(after, r, -1, v);
    }
  }

  /** A swap that archives a published version, or none: it moves forward exactly when what it publishes was not archived. */
  lemma SwapSteps(versions: map<int, Version>, restaurant: int, seen: Option<int>, v: int)
    requires v in versions && v > 0 && versions[v].restaurant == restaurant
    requires seen.Some? ==> seen.value != v && PublishedOther(versions, restaurant, v, seen.value)
    ensures var after := SetStatus(if seen.Some? then SetStatus(versions, seen.value, Archived) else versions, v, Published);
            && VersionsStay(versions, after) && (OneStep(versions, after) <==> versions[v].status != Archived)
            && (Forward(versions, after) <==> versions[v].status != Archived)
  {
    var after := SetStatus(if seen.Some? then SetStatus(versions, seen.value, Archived) else versions, v, Published);
    forall r | SomePublished(versions, r) ensures SomePublished(after, r) {
      var w :| PublishedOther(versions, r, -1, w);
      assert r == restaurant ==> PublishedOther(after, r, -1, v);
      assert r != restaurant ==> PublishedOther(after, r, -1, w);
    }
  }

  /** After a swap that leaves one version published, every live branch serves it. */
  lemma SwapServes(m: Menu, restaurant: int, seen: Option<int>, v: int)
    requires Served(m) && v in m.versions && m.versions[v].restaurant == restaurant
    requires seen.Some? ==> seen.value in m.versions && m.versions[seen.value].restaurant == restaurant
    requires OnePublished(Swap(m, restaurant, seen, v).versions)
    ensures Served(Swap(m, restaurant, seen, v))
  {
    var m' := Swap(m, restaurant, seen, v);
    assert PublishedOther(m'.versions, restaurant, v - 1, v);
    forall b, w | b in m'.branches && Live(m'.branches[b]) && PublishedOther(m'.versions, m'.branches[b].restaurant, -1, w)
      ensures m'.branches[b].menu == Some(w)
    {
      if m.branches[b].restaurant != restaurant {
        assert PublishedOther(m.versions, m.branches[b].restaurant, -1, w);
      }
    }
  }

  // ---------- the commits ----------

  /** What a commit of version v achieves. */
  ghost predicate Committed(m: Menu, m': Menu, restaurant: int, v: int) {
    && Schema(m') && Served(m') && VersionsStay(m.versions, m'.versions)
    && v in m'.versions && m'.versions[v].restaurant == restaurant && m'.versions[v].status == Published
    && forall b :: b in m'.branches && m'.branches[b].restaurant == restaurant && Live(m'.branches[b]) ==> m'.branches[b].menu == Some(v)
  }

  /** A commit has archived the restaurant's published version, if there was one besides its own. */
  lemma CommitFinds(m: Menu, restaurant: int, seen: Option<int>, v: int)
    requires Schema(m) && Ticketed(m, WillPublish(restaurant, v, seen, DraftMenu)) && CommitSwap(m, restaurant, seen, v).Ok?
    ensures seen.Some? ==> PublishedOther(m.versions, restaurant, v, seen.value)
    ensures forall w :: PublishedOther(m.versions, restaurant, v, w) ==> seen == Some(w)
  {
    var swapped := Swap(m, restaurant, seen, v);
    PublishedBelowFinds(swapped.versions, restaurant, v, swapped.nextVersion);
    forall w | PublishedOther(m.versions, restaurant, v, w) ensures seen == Some(w) {
      if seen != Some(w) { assert PublishedOther(swapped.versions, restaurant, v, w); }
    }
  }

  /**
   A commit on an earlier read leaves its version the one published and served,
   whatever happened since; statuses move forward exactly when that version was
   not archived meanwhile.
   */
  lemma CommitSwapCommits(m: Menu, restaurant: int, seen: Option<int>, v: int)
    requires Schema(m) && Served(m) && Ticketed(m, WillPublish(restaurant, v, seen, DraftMenu)) && CommitSwap(m, restaurant, seen, v).Ok?
    ensures Committed(m, CommitSwap(m, restaurant, seen, v).value, restaurant, v)
    ensures Forward(m.versions, CommitSwap(m, restaurant, seen, v).value.versions) <==> m.versions[v].status != Archived
    ensures OneStep(m.versions, CommitSwap(m, restaurant, seen, v).value.versions) <==> m.versions[v].status != Archived
  {
    CommitFinds(m, restaurant, seen, v);
    SwapKeepsSchema(m, restaurant, seen, v);
    SwapSteps(m.versions, restaurant, seen, v);
    SwapServes(m, restaurant, seen, v);
  }

  lemma OneStepTrans(a: map<int, Version>, b: map<int, Version>, c: map<int, Version>)
    requires OneStep(a, b) && OneStep(b, c)
    requires forall v :: v in a ==> b[v] == a[v]
    ensures OneStep(a, c)
  {
  }

  lemma CommitCloneCommits(m: Menu, restaurant: int, source: int, number: int, catalog: Catalog)
    requires Schema(m) && Served(m) && CommitClone(m, restaurant, source, number, catalog).Ok?
    ensures Committed(m, CommitClone(m, restaurant, source, number, catalog).value, restaurant, m.nextVersion)
    ensures OneStep(m.versions, CommitClone(m, restaurant, source, number, catalog).value.versions)
  {
    var cloned := Cloned(m, restaurant, number, source, catalog);
    CommitCloneIs(m, restaurant, source, number, catalog);
    CloneKeepsSchema(m, restaurant, number, source, catalog);
    DraftCommitted(m, cloned, restaurant, number);
  }

  lemma CommitCloneIs(m: Menu, restaurant: int, source: int, number: int, catalog: Catalog)
    requires CommitClone(m, restaurant, source, number, catalog).Ok?
    ensures !NumberTaken(m, restaurant, number) && Refusal(m, source, catalog).None?
    ensures CommitClone(m, restaurant, source, number, catalog).value
         == PublishVersion(Cloned(m, restaurant, number, source, catalog), restaurant, m.nextVersion)
  {
    assert CloneDraft(m, restaurant, number, source, catalog) == Ok(Cloned(m, restaurant, number, source, catalog));
  }

  lemma DraftCommitted(m: Menu, cloned: Menu, restaurant: int, number: int)
    requires Keys(m.versions, m.nextVersion) && Served(m) && Schema(cloned) && cloned.branches == m.branches
    requires cloned.versions == m.versions[m.nextVersion := Version(restaurant, number, DraftMenu)]
    ensures Committed(m, PublishVersion(cloned, restaurant, m.nextVersion), restaurant, m.nextVersion)
    ensures OneStep(m.versions, PublishVersion(cloned, restaurant, m.nextVersion).versions)
  {
    DraftSteps(m, restaurant, number);
    DraftServed(m, cloned, restaurant, number);
    DraftPublished(cloned, restaurant, m.nextVersion);
    OneStepTrans(m.versions, cloned.versions, PublishVersion(cloned, restaurant, m.nextVersion).versions);
  }

  lemma DraftServed(m: Menu, m': Menu, restaurant: int, number: int)
    requires Served(m) && Keys(m.versions, m.nextVersion) && m'.branches == m.branches
    requires m'.versions == m.versions[m.nextVersion := Version(restaurant, number, DraftMenu)]
    ensures Served(m')
  {
    forall b, w | b in m'.branches && Live(m'.branches[b]) && PublishedOther(m'.versions, m'.branches[b].restaurant, -1, w)
      ensures m'.branches[b].menu == Some(w)
    {
      assert PublishedOther(m.versions, m.branches[b].restaurant, -1, w);
    }
  }

  /** Publishing a draft in one go. */
  lemma DraftPublished(m: Menu, restaurant: int, v: int)
    requires Schema(m) && Served(m) && v in m.versions && m.versions[v].restaurant == restaurant && m.versions[v].status == DraftMenu
    ensures Committed(m, PublishVersion(m, restaurant, v), restaurant, v)
    ensures OneStep(m.versions, PublishVersion(m, restaurant, v).versions)
  {
    var current := PublishedBelow(m.versions, restaurant, v, m.nextVersion);
    PublishedBelowFinds(m.versions, restaurant, v, m.nextVersion);
    SwapKeepsSchema(m, restaurant, current, v);
    SwapSteps(m.versions, restaurant, current, v);
    SwapServes(m, restaurant, current, v);
  }

  // ---------- every run ----------

  lemma CreateDraftKeeps(m: Menu, restaurant: int)
    requires Schema(m) && Served(m)
    ensures Schema(CreateDraft(m, restaurant)) && Served(CreateDraft(m, restaurant))
    ensures OneStep(m.versions, CreateDraft(m, restaurant).versions)
  {
    NextNumberIsFree(m, restaurant);
    DraftSteps(m, restaurant, NextNumber(m, restaurant));
    DraftServed(m, CreateDraft(m, restaurant), restaurant, NextNumber(m, restaurant));
  }

  lemma Unmoved(versions: map<int, Version>)
    ensures OneStep(versions, versions)
  {
  }

  lemma BeginPublishKeeps(w: World, pid: int, restaurant: int, v: int)
    requires Safe(w)
    ensures var w' := Next(w, BeginPublish(pid, restaurant, v)); Safe(w') && w'.menu == w.menu
  {
    PublishedBelowFinds(w.menu.versions, restaurant, v, w.menu.nextVersion);
  }

  lemma LookKeeps(w: World, pid: int)
    requires Safe(w)
    ensures var w' := Next(w, LookForCurrent(pid)); Safe(w') && w'.menu == w.menu
  {
    if pid in w.publishers && w.publishers[pid].WillLook? {
      PublishedBelowFinds(w.menu.versions, w.publishers[pid].restaurant, w.publishers[pid].version, w.menu.nextVersion);
    }
  }

  lemma BeginCatalogKeeps(w: World, pid: int, restaurant: int, catalog: Catalog)
    requires Safe(w)
    ensures var w' := Next(w, BeginCatalog(pid, restaurant, catalog)); Safe(w') && w'.menu == w.menu
  {
    PublishedBelowFinds(w.menu.versions, restaurant, -1, w.menu.nextVersion);
  }

  lemma SettleKeeps(w: World, pid: int, r: Result<Menu, MenuError>, restaurant: int, v: int)
    requires Safe(w) && (r.Ok? ==> Committed(w.menu, r.value, restaurant, v))
    ensures Safe(Settle(w, pid, r, v)) && VersionsStay(w.menu.versions, Settle(w, pid, r, v).menu.versions)
  {
    Unmoved(w.menu.versions);
    if r.Ok? { TicketsKept(w.menu, r.value, w.publishers); }
  }

  lemma StepKeeps(w: World, a: Act)
    requires Safe(w)
    ensures Safe(Next(w, a)) && VersionsStay(w.menu.versions, Next(w, a).menu.versions)
  {
    Unmoved(w.menu.versions);
    match a
    case AddDraft(restaurant) =>
      CreateDraftKeeps(w.menu, restaurant);
      TicketsKept(w.menu, CreateDraft(w.menu, restaurant), w.publishers);
    case BeginPublish(pid, restaurant, v) => BeginPublishKeeps(w, pid, restaurant, v);
    case LookForCurrent(pid) => LookKeeps(w, pid);
    case BeginCatalog(pid, restaurant, catalog) => BeginCatalogKeeps(w, pid, restaurant, catalog);
    case FinishPublish(pid) =>
      if pid in w.publishers && w.publishers[pid].WillPublish? {
        var p := w.publishers[pid];
        var r := CommitSwap(w.menu, p.restaurant, p.seen, p.version);
        if r.Ok? { CommitSwapCommits(w.menu, p.restaurant, p.seen, p.version); }
        SettleKeeps(w, pid, r, p.restaurant, p.version);
      }
    case FinishCatalog(pid) =>
      if pid in w.publishers && w.publishers[pid].WillClone? {
        var p := w.publishers[pid];
        var r := CommitClone(w.menu, p.restaurant, p.source, p.number, p.catalog);
        if r.Ok? { CommitCloneCommits(w.menu, p.restaurant, p.source, p.number, p.catalog); }
        SettleKeeps(w, pid, r, p.restaurant, w.menu.nextVersion);
      }
  }

  /**
   In every interleaving of publishers the world stays safe: one published version
   per restaurant, served by every live branch; and versions stay, none returns to
   draft, and a restaurant once served stays served.
   */
  lemma {:induction false} RunKeeps(w: World, acts: seq<Act>)
    requires Safe(w)
    ensures Safe(Run(w, acts)) && VersionsStay(w.menu.versions, Run(w, acts).menu.versions)
    decreases |acts|
  {
    if acts == [] {
      Unmoved(w.menu.versions);
    } else {
      StepKeeps(w, acts[0]);
      RunKeeps(Next(w, acts[0]), acts[1..]);
      StayTrans(w.menu.versions, Next(w, acts[0]).menu.versions, Run(w, acts).menu.versions);
    }
  }

  /** Whatever publishers race, each restaurant has one published version and every branch serves that or nothing. */
  lemma OneMenuServed(m: Menu, acts: seq<Act>, b: int, v: int)
    requires Schema(m) && Served(m)
    ensures var m' := Run(World(m, map[]), acts).menu;
      b in m'.branches && PublishedOther(m'.versions, m'.branches[b].restaurant, -1, v) ==>
        ActiveVersion(m', b) in {None, Some(v)} && (Live(m'.branches[b]) ==> ActiveVersion(m', b) == Some(v))
  {
    RunKeeps(World(m, map[]), acts);
  }

  // ---------- when statuses only move forward ----------

  /**
   A publisher as it is while statuses have only moved forward: what it read is
   still safe to act on, or will be refused, unless its version was archived when
   it read the published one, and then it is archived still.
   */
  ghost predicate Prompt(m: Menu, p: Publisher) {
    p.WillPublish? && p.version in m.versions ==>
      if p.found == Archived then m.versions[p.version].status == Archived
      else
        && (p.seen.Some? && p.seen.value in m.versions && m.versions[p.seen.value].status == Published ==>
              m.versions[p.version].status == DraftMenu)
        && (p.seen.None? && m.versions[p.version].status != DraftMenu ==> SomePublished(m.versions, p.restaurant))
  }

  ghost predicate AllPrompt(w: World) {
    forall pid :: pid in w.publishers ==> Prompt(w.menu, w.publishers[pid])
  }

  lemma PromptKept(m: Menu, m': Menu, p: Publisher)
    requires Ticketed(m, p) && Prompt(m, p) && OneStep(m.versions, m'.versions) && OnePublished(m'.versions) && Keys(m.versions, m.nextVersion)
    ensures Prompt(m', p)
  {
    if p.WillPublish? && p.seen.None? && m'.versions[p.version].status != DraftMenu && m.versions[p.version].status == DraftMenu {
      assert PublishedOther(m'.versions, p.restaurant, -1, p.version);
    }
  }

  lemma PromptsKept(m: Menu, m': Menu, publishers: map<int, Publisher>)
    requires forall pid :: pid in publishers ==> Ticketed(m, publishers[pid]) && Prompt(m, publishers[pid])
    requires OneStep(m.versions, m'.versions) && OnePublished(m'.versions) && Keys(m.versions, m.nextVersion)
    ensures forall pid :: pid in publishers ==> Prompt(m', publishers[pid])
  {
    forall pid | pid in publishers ensures Prompt(m', publishers[pid]) { PromptKept(m, m', publishers[pid]); }
  }

  /** While statuses have only moved forward, a publisher that commits finds its version archived exactly if it was when it looked. */
  lemma TicketStillGood(m: Menu, p: Publisher)
    requires Schema(m) && p.WillPublish? && Ticketed(m, p) && Prompt(m, p) && CommitSwap(m, p.restaurant, p.seen, p.version).Ok?
    ensures m.versions[p.version].status == Archived <==> p.found == Archived
  {
    CommitFinds(m, p.restaurant, p.seen, p.version);
    forall w | PublishedOther(m.versions, p.restaurant, -1, w) && m.versions[p.version].status == Archived
      ensures PublishedOther(m.versions, p.restaurant, p.version, w)
    {
    }
  }

  /** The act commits a version that was archived already when its publisher read the published one. */
  predicate Late(w: World, a: Act) {
    && a.FinishPublish? && a.pid in w.publishers && w.publishers[a.pid].WillPublish? && w.publishers[a.pid].found == Archived
    && CommitSwap(w.menu, w.publishers[a.pid].restaurant, w.publishers[a.pid].seen, w.publishers[a.pid].version).Ok?
  }

  ghost predicate NoneLate(w: World, acts: seq<Act>)
    decreases |acts|
  {
    acts == [] || (!Late(w, acts[0]) && NoneLate(Next(w, acts[0]), acts[1..]))
  }

  ghost predicate MovesForward(w: World, acts: seq<Act>)
    decreases |acts|
  {
    acts == [] || (Forward(w.menu.versions, Next(w, acts[0]).menu.versions) && MovesForward(Next(w, acts[0]), acts[1..]))
  }

  lemma LookIsPrompt(w: World, pid: int)
    requires Safe(w) && AllPrompt(w)
    ensures AllPrompt(Next(w, LookForCurrent(pid)))
  {
    if pid in w.publishers && w.publishers[pid].WillLook? {
      var p := w.publishers[pid];
      PublishedBelowFinds(w.menu.versions, p.restaurant, p.version, w.menu.nextVersion);
      if w.menu.versions[p.version].status == Published { assert PublishedOther(w.menu.versions, p.restaurant, -1, p.version); }
    }
  }

  lemma SettlePrompt(w: World, pid: int, r: Result<Menu, MenuError>, v: int)
    requires Safe(w) && AllPrompt(w) && (r.Ok? ==> Schema(r.value) && OneStep(w.menu.versions, r.value.versions))
    ensures AllPrompt(Settle(w, pid, r, v)) && Forward(w.menu.versions, Settle(w, pid, r, v).menu.versions)
  {
    Unmoved(w.menu.versions);
    if r.Ok? { PromptsKept(w.menu, r.value, w.publishers); }
  }

  lemma FinishForwardIff(w: World, pid: int)
    requires Safe(w) && AllPrompt(w)
    ensures var w' := Next(w, FinishPublish(pid));
            && (Forward(w.menu.versions, w'.menu.versions) <==> !Late(w, FinishPublish(pid)))
            && (!Late(w, FinishPublish(pid)) ==> AllPrompt(w'))
  {
    Unmoved(w.menu.versions);
    if pid in w.publishers && w.publishers[pid].WillPublish? {
      var p := w.publishers[pid];
      var r := CommitSwap(w.menu, p.restaurant, p.seen, p.version);
      if r.Ok? {
        TicketStillGood(w.menu, p);
        CommitSwapCommits(w.menu, p.restaurant, p.seen, p.version);
      }
      if !Late(w, FinishPublish(pid)) { SettlePrompt(w, pid, r, p.version); }
    }
  }

  lemma StepForwardIff(w: World, a: Act)
    requires Safe(w) && AllPrompt(w)
    ensures Forward(w.menu.versions, Next(w, a).menu.versions) <==> !Late(w, a)
    ensures !Late(w, a) ==> AllPrompt(Next(w, a))
  {
    Unmoved(w.menu.versions);
    match a
    case AddDraft(restaurant) =>
      CreateDraftKeeps(w.menu, restaurant);
      PromptsKept(w.menu, CreateDraft(w.menu, restaurant), w.publishers);
    case BeginPublish(pid, restaurant, v) =>
    case LookForCurrent(pid) => LookIsPrompt(w, pid);
    case BeginCatalog(pid, restaurant, catalog) =>
    case FinishPublish(pid) => FinishForwardIff(w, pid);
    case FinishCatalog(pid) =>
      if pid in w.publishers && w.publishers[pid].WillClone? {
        var p := w.publishers[pid];
        var r := CommitClone(w.menu, p.restaurant, p.source, p.number, p.catalog);
        if r.Ok? { CommitCloneCommits(w.menu, p.restaurant, p.source, p.number, p.catalog); }
        SettlePrompt(w, pid, r, w.menu.nextVersion);
      }
  }

  /**
   In an interleaving of publishers statuses only ever move draft, published,
   archived, exactly when nobody commits a version that was archived already
   when its publisher read the published one.
   */
  lemma {:induction false} ForwardIff(w: World, acts: seq<Act>)
    requires Safe(w) && AllPrompt(w)
    ensures MovesForward(w, acts) <==> NoneLate(w, acts)
    decreases |acts|
  {
    if acts != [] {
      StepKeeps(w, acts[0]);
      StepForwardIff(w, acts[0]);
      if !Late(w, acts[0]) { ForwardIff(Next(w, acts[0]), acts[1..]); }
    }
  }

  // ---------- what versions show never changes ----------

  ghost predicate SameRows(m: Menu, m': Menu) {
    && m'.categories == m.categories && m'.items == m.items && m'.nextItem == m.nextItem
    && m'.groups == m.groups && m'.nextGroup == m.nextGroup && m'.choices == m.choices && m'.nextChoice == m.nextChoice
    && m'.declarations == m.declarations && m'.links == m.links && m'.stock == m.stock
  }

  lemma SameRowsShow(m: Menu, m': Menu, b: int, v: int, all: bool)
    requires Counted(m) && CategoriesOwned(m) && LinksOwned(m) && SameRows(m, m')
    ensures ShowVersion(m', b, v, all) == ShowVersion(m, b, v, all)
  {
    assert Retains(m, m', v);
    RetainedIsomorphic(m, m', v);
    VersionsShownAlike(m, v, m', v, Identity(m, v), b, all);
  }

  lemma CommittedIsClone(m: Menu, restaurant: int, source: int, number: int, catalog: Catalog)
    ensures var m' := PublishVersion(Cloned(m, restaurant, number, source, catalog), restaurant, m.nextVersion);
      IsClone(m, m', source, catalog.version) && m'.stock == NewStock(m, restaurant, source, m.nextVersion)
  {
  }

  lemma StepShows(w: World, a: Act, b: int, v: int, all: bool)
    requires Safe(w) && v in w.menu.versions
    ensures ShowVersion(Next(w, a).menu, b, v, all) == ShowVersion(w.menu, b, v, all)
  {
    SchemaOwned(w.menu);
    if a.FinishCatalog? && a.pid in w.publishers && w.publishers[a.pid].WillClone? {
      var p := w.publishers[a.pid];
      if CommitClone(w.menu, p.restaurant, p.source, p.number, p.catalog).Ok? {
        CommitCloneIs(w.menu, p.restaurant, p.source, p.number, p.catalog);
        CommittedIsClone(w.menu, p.restaurant, p.source, p.number, p.catalog);
        RetainedView(w.menu, Next(w, a).menu, p.restaurant, p.source, p.catalog.version, v, b, all);
      }
    } else {
      OtherActsKeepRows(w, a);
      SameRowsShow(w.menu, Next(w, a).menu, b, v, all);
    }
  }

  lemma OtherActsKeepRows(w: World, a: Act)
    requires !a.FinishCatalog? || !(a.pid in w.publishers && w.publishers[a.pid].WillClone?)
    ensures SameRows(w.menu, Next(w, a).menu)
  {
  }

  /** No draft, publish or clone changes what an existing version shows. */
  lemma {:induction false} RunShows(w: World, acts: seq<Act>, b: int, v: int, all: bool)
    requires Safe(w) && v in w.menu.versions
    ensures ShowVersion(Run(w, acts).menu, b, v, all) == ShowVersion(w.menu, b, v, all)
    decreases |acts|
  {
    if acts != [] {
      StepKeeps(w, acts[0]);
      StepShows(w, acts[0], b, v, all);
      RunShows(Next(w, acts[0]), acts[1..], b, v, all);
    }
  }

  lemma CommitCloneShows(m: Menu, restaurant: int, source: int, number: int, catalog: Catalog, b: int, all: bool)
    requires Schema(m) && Served(m) && CommitClone(m, restaurant, source, number, catalog).Ok?
    requires b in m.branches && m.branches[b].restaurant == restaurant && Live(m.branches[b])
    ensures View(CommitClone(m, restaurant, source, number, catalog).value, b, all) == ShowVersion(m, b, source, all)
  {
    SchemaOwned(m);
    CommitCloneCommits(m, restaurant, source, number, catalog);
    CommitCloneIs(m, restaurant, source, number, catalog);
    CommittedIsClone(m, restaurant, source, number, catalog);
    var m' := CommitClone(m, restaurant, source, number, catalog).value;
    CopyView(m, m', restaurant, source, catalog.version, b, all);
    assert b in m'.branches && ActiveVersion(m', b) == Some(m.nextVersion);
  }

  lemma CatalogTicket(w: World, pid: int, restaurant: int, catalog: Catalog)
    requires pid !in w.publishers && Next(w, BeginCatalog(pid, restaurant, catalog)).publishers[pid].WillClone?
    ensures CurrentVersion(w.menu, restaurant).Some?
    ensures Next(w, BeginCatalog(pid, restaurant, catalog)).publishers[pid]
         == WillClone(restaurant, CurrentVersion(w.menu, restaurant).value, NextNumber(w.menu, restaurant), catalog)
  {
  }

  lemma TicketShows(w: World, pid: int, b: int, all: bool)
    requires Safe(w) && pid in w.publishers && w.publishers[pid].WillClone?
    requires Next(w, FinishCatalog(pid)).publishers[pid].HasPublished?
    requires b in w.menu.branches && w.menu.branches[b].restaurant == w.publishers[pid].restaurant && Live(w.menu.branches[b])
    ensures View(Next(w, FinishCatalog(pid)).menu, b, all) == ShowVersion(w.menu, b, w.publishers[pid].source, all)
  {
    var p := w.publishers[pid];
    CommitCloneShows(w.menu, p.restaurant, p.source, p.number, p.catalog, b, all);
  }

  /**
   A catalog publish that commits shows every live branch the menu it read at its start,
   so a menu published in between is replaced by a copy of the older one.
   */
  lemma CatalogPublishesWhatItRead(w: World, pid: int, restaurant: int, catalog: Catalog, acts: seq<Act>, b: int, all: bool)
    requires Safe(w) && pid !in w.publishers
    requires var w1 := Next(w, BeginCatalog(pid, restaurant, catalog)); var w2 := Run(w1, acts);
      && w1.publishers[pid].WillClone? && pid in w2.publishers && w2.publishers[pid] == w1.publishers[pid]
      && Next(w2, FinishCatalog(pid)).publishers[pid].HasPublished?
      && b in w2.menu.branches && w2.menu.branches[b].restaurant == restaurant && Live(w2.menu.branches[b])
    ensures var w3 := Next(Run(Next(w, BeginCatalog(pid, restaurant, catalog)), acts), FinishCatalog(pid));
      CurrentVersion(w.menu, restaurant).Some?
      && View(w3.menu, b, all) == ShowVersion(w.menu, b, CurrentVersion(w.menu, restaurant).value, all)
  {
    var w1 := Next(w, BeginCatalog(pid, restaurant, catalog));
    BeginCatalogKeeps(w, pid, restaurant, catalog);
    CatalogTicket(w, pid, restaurant, catalog);
    RunKeeps(w1, acts);
    RunShows(w1, acts, b, w1.publishers[pid].source, all);
    TicketShows(Run(w1, acts), pid, b, all);
  }
}
