# Verified model of the ordering agent

This project models the parts of a restaurant ordering agent whose correctness spans several
functions: the handoff, order and session protocol; cloning and publishing menus; the conversation
turn; and three algorithms (menu-name matching, modifier validation, opening hours). Each unit of
work is a function on the rows it reads and writes. A class with the same operations, written as the
program writes them, is proved to compute these functions, and the properties below are proved about
the functions: for every input, for every run of whole units of work, and, where a row says so, for every
interleaving of their reads and writes.

Run `dafny verify dfyconfig.toml`, or `dafny verify *.dfy`.

## How it is organised

- `Journal`, `HandoffModel`, `HandoffSteps`: event journals, the rows, one function per unit of work.
  `UnitOfWork`, `HandoffService`, `OrderLifecycle`: the repositories and services that change the
  tables, proved against those functions.
- `HandoffInvariants`, `HandoffCancellation`, `HandoffHold`, `OrderHistory`: what every run keeps.
  `HandoffRaces`: the same tables under interleaved requests, cancels, moves and turns, with the read
  and the write of each as separate acts. `HandoffOvertaken`: what a move does that was overtaken.
  `HandoffEffects`: when each unit of work succeeds and what it leaves, column by column, in terms of the
  rows alone. `HandoffTenants`: tenants do not touch each other's rows.
- `IdLists`: rows listed by id or by key and id, and what renaming ids does to such lists. `MenuModel`: menu tables, queries, clone and
  publish. `MenuClone`, `MenuCopies`, `MenuIsomorphism`: the clone is a graph isomorphism that
  every query observes. `MenuPublishing`, `MenuSchema`, `MenuRepublish`: views across a publish, keys,
  publishing twice. `MenuRaces`: racing publishers. `MenuExamples`: menus and runs that show what can
  go wrong. `MenuViews`, `MenuWrites`: what a branch shows, and what a publish checks and writes, in
  terms of the tables alone. `MenuRepository`: the copying loops and the management service.
- `ConversationModel`, `ConversationTurns`: what each agent proposes, and one turn.
  `ConversationProperties`, `ConversationPending`, `ConversationRollback`: what every conversation
  keeps. `ConversationEffects`: what each message leaves in each field, and what a new order starts with.
  `Orchestrator`: the class that mutates a session.
- `MenuMatching`, `ModifierValidation`, `OpeningHours`: the algorithms.

## What is proved false, and exactly when it holds

- A cancel releases the order only if the case was opened for, and last reported as, an explicit human
  request; a mandatory risk reported in between does not keep the hold
  (`CancelReleasesExactly`, `MandatoryReportDoesNotHold`).
- A status move reads its case without a lock and then writes the status by primary key. If the case was
  closed in between, the move opens it again, unless another case of the session is active, and a
  cancelled case can be cancelled a second time (`OvertakenMoveReached`). A closed case keeps its row and
  journal exactly when no such move commits (`ClosedCasesStayIff`), a case is cancelled at most once
  exactly when none takes it out of cancelled (`CancelledOnceIff`), and in general the cancels that did the
  work balance those moves (`CancelsBalance`).
- A cancel or a move that read the case before another status move writes an event that cannot be
  replayed: the journal survives exactly when no move came in between (`StaleClaimBreaksJournal`,
  `StaleMoveBreaksJournal`); reachable runs are `StaleClaimReached` and `OvertakenMoveReached`.
- Publishing a clone keeps a branch's view exactly when being live and having served the old version
  agree (`PublishCatalogViewIff`): an inactive branch loses the menu it served (`InactiveBranchLosesItsMenu`).
- Publishing the same catalog twice is publishing it once exactly when the published menu was complete for
  it already, or has items and all their old aliases lie in the three locales (`PublishTwice`); one alias in
  a fourth locale is enough to clone again (`FourthLocaleIsNeverComplete`).
- A publisher checks that its version is a draft before it reads the published one. If the version was
  published and archived in between, an archived menu is published again (`ArchivedMenuComesBackReached`).
  Statuses only move draft, published, archived exactly when nobody commits a version that was archived
  when its publisher read the published one (`ForwardIff`).
- A catalog publish copies the version it read at its start, so a menu published meanwhile is replaced
  by a copy of the older one (`CatalogPublishesWhatItRead`, `PublishedMenuIsReplacedReached`).
- A correction restores the last change exactly when that change did not submit the order and nothing
  cleared the order since, even an already empty one (`CorrectionInvertsChange`,
  `ClearingEmptyOrderForgets`); it never restores the fulfilment type (`PickupOutlivesItsCorrection`).
- A dated closure is looked up on the date of the instant, not on the date a night slot began
  (`ClosureReadingsAgreeIff`, `NightOfAClosedMonday`).

Where code and documentation differ the code is followed. The handoff document says that cancelling an
explicit request advances the bound draft version; the code advances it only when the order's current
version has a confirmation row, or the session is confirmed or submitted. It also says that opening a
case moves the in-session draft back to DRAFT; opening a case does not touch the session row.

## Model

| member | source | states |
|---|---|---|
| Journal.AppendExtends | backend/app/repositories/safety_repository.py:92-96 | numbering by the owner's largest sequence plus one keeps every journal 1..n without gaps and appends to exactly one journal |
| HandoffSteps.FindActive | backend/app/repositories/safety_repository.py:54-61 | returns an active case of the session, and None only if there is none |
| HandoffSteps.LatestOrder | backend/app/repositories/order_repository.py:33-53 | returns the session's order that is last by creation time and then id |
| HandoffInvariants.LegalJournalIsShort | backend/app/services/handoff_service.py:36-57 | a replayable case journal has at most four status moves, however many risk updates interleave |
| HandoffInvariants.RunKeeps | backend/app/services/handoff_service.py:114-586 | every run of units of work keeps: one active case per session, every active case's order on hold for a matching reason, journals that replay to the rows, confirmations never above the order's version |
| HandoffInvariants.ReachableCases | backend/app/services/handoff_service.py:506-586 | from the empty database every case's journal is numbered 1..n, replays along allowed edges to its status, reason and priority, and holds at most four moves |
| HandoffInvariants.CancelCaseKeeps | backend/app/services/handoff_service.py:236-278 | a cancel keeps the whole run invariant |
| HandoffInvariants.ConfirmOrderKeeps | backend/app/services/order_persistence_service.py:154-295 | confirming an order keeps the whole run invariant |
| HandoffCancellation.CancelTrichotomy | backend/app/services/handoff_service.py:236-278 | a cancel of a visible case does the work if and only if the case is active, replays if and only if it is cancelled, and otherwise is refused as an illegal transition |
| HandoffCancellation.AppliedCommit | backend/app/services/handoff_service.py:267-278 | the cancel that does the work claims an active case, writes one case event and one session version and touches no other row |
| HandoffCancellation.VersionsAfterCancel | backend/app/services/handoff_service.py:291-346 | after a cancel with an order both draft versions agree, none fell, at most one advance happened, no confirmation exists at the new version and the old one is withdrawn |
| HandoffCancellation.ReplayReportsTheSame | backend/app/services/handoff_service.py:385-412 | cancelling again right away writes nothing and gives the same report with the replay flag set |
| HandoffHold.MandatoryHoldSurvives | backend/app/services/order_lifecycle_service.py:39-44 | a hold placed for any reason but an explicit request survives every run until another case opens on the order; meanwhile the order enters no submission status and its session confirms nothing |
| HandoffHold.StepRespectsHold | backend/app/services/handoff_service.py:305-321 | no single step that opens no case on the order clears such a hold or enters a blocked status |
| HandoffHold.ActiveCaseBlocksConfirmation | backend/app/services/order_persistence_service.py:154-200 | while a case with an order is active, its session's confirmation is refused |
| HandoffHold.CancelReleasesExactly | backend/app/services/handoff_service.py:309-383 | a cancel releases the order if and only if the case was opened for and last reported as an explicit request, and the report's flags say so |
| HandoffHold.ReconfirmAfterCancel | backend/app/services/handoff_service.py:291-346 | after a cancel the session's own state can be confirmed exactly when the report says the draft may continue, reusing the order if it is a draft |
| HandoffHold.MandatoryReportDoesNotHold | backend/app/services/handoff_service.py:438-459 | explicit, mandatory, explicit: risks and priority accumulate; a cancel applies either way, and after the last report it releases the order |
| HandoffHold.RequestEndsQueuedOrFailed | backend/app/services/handoff_service.py:114-158 | an undisturbed request ends with a queued or failed case, the latest order held and its confirmation withdrawn |
| HandoffEffects.StatusMovesIff | backend/app/services/order_lifecycle_service.py:8-61 | an order enters a status if and only if the pair is one of the table, a hold does not block it and a merchant's status comes from the fixture for a synthetic order; which error otherwise, and exactly what is written |
| HandoffEffects.CaseMovesIff | backend/app/services/handoff_service.py:36-57 | a case moves if and only if the pair is one of the table and a resolution or failure comes with what it needs |
| HandoffEffects.CaseMoveWrites | backend/app/services/handoff_service.py:506-563 | a move sets status, failure and resolution; a resolution that changed the draft sends the order back to draft, on hold, one version on, in the row and in its event; nothing else changes |
| HandoffEffects.ProviderMoves | backend/app/services/handoff_service.py:414-431 | a provider call moves a case visible to the tenant and session to what it asks for; an unsafe resolution is refused first |
| HandoffEffects.QueueingMoves | backend/app/services/handoff_service.py:140-155 | queueing needs case, session and summary, in that order of errors; failing it afterwards moves only a requested or pending case |
| HandoffEffects.CaseGathers | backend/app/services/handoff_service.py:433-476 | in every reachable state a case holds exactly the risks and blocked actions of all reports on it, the last reason, and critical or high priority exactly when a reported reason is urgent or pressing |
| HandoffEffects.CancelSaves | backend/app/services/handoff_service.py:320-346 | the session after a cancel, column by column: it blocks exactly what the case blocked, or nothing if the reason is an explicit request; reason, stage, case, fields and confirmation as told |
| HandoffEffects.CancelBlocksWhatWasReported | backend/app/services/handoff_service.py:325-346 | over whole runs: after a cancel the session blocks exactly the actions some report on the case blocked, or none if the last report was an explicit request |
| HandoffEffects.CancelVersions | backend/app/services/handoff_service.py:291-322 | the new draft version is the order's, one more if a confirmation or submission is withdrawn, and at least the session's; a confirmed order is a draft again |
| HandoffEffects.CancelTells | backend/app/services/handoff_service.py:348-383 | the report and the order's event say what the rows were before and are after |
| HandoffEffects.ReplayTells | backend/app/services/handoff_service.py:385-412 | cancelling a cancelled case reports how order and session are now, however much later |
| HandoffEffects.ConfirmsIff | backend/app/services/order_persistence_service.py:154-295 | an order is confirmed if and only if the draft seen is the draft stored, nobody saved meanwhile, the latest order is not held and its version was never confirmed |
| HandoffEffects.ConfirmWrites | backend/app/services/order_persistence_service.py:154-295 | what a confirmation writes: the latest order if it is the draft of this version, else a new one, its confirmation, two events and the submitted session; nothing else |
| HandoffEffects.ConfirmErrors | backend/app/services/order_persistence_service.py:154-185 | which error a refused confirmation gets, and that it writes nothing |
| HandoffEffects.WithdrawsIff | backend/app/services/order_persistence_service.py:313-331 | a confirmation is withdrawn if and only if it stands and the order can still be cancelled; then the order is cancelled, one version on |
| HandoffEffects.SavesIff | backend/app/repositories/session_repository.py:53-59 | a turn is saved if and only if the session is the tenant's and at the version read, and only that row changes |
| HandoffTenants.TenantsApart | backend/app/services/handoff_service.py:589-610 | over whole runs a tenant's work leaves every other tenant's sessions, cases, orders and confirmations as they were |
| OrderHistory.PathIsLegal | backend/app/services/order_lifecycle_service.py:8-61 | since its last return to DRAFT an order moved through the statuses in order, in at most five moves, entering the last three with no hold |
| OrderHistory.ReachableOrders | backend/app/services/order_lifecycle_service.py:28-61 | every reachable order's journal is numbered 1..n and replays to its status |
| HandoffRaces.WorldsAreSafe | backend/app/db/models.py:787-797 | in every interleaving of requests, cancels, moves and turns, overtaken moves included, no session has two active cases and journals stay numbered |
| HandoffRaces.RequestsReturnActiveCases | backend/app/services/handoff_service.py:433-504 | whatever a racing request returned was an active case of its session when it was read or inserted |
| HandoffRaces.RequestCompletes | backend/app/services/handoff_service.py:496-504 | a request that completes hands back an active case of its session, also after losing the insert race |
| HandoffRaces.LostRaceHasWinner | backend/app/services/handoff_service.py:433-504 | an insert is refused only while the session has an active case, and writes nothing |
| HandoffRaces.LostRaceFinds | backend/app/services/handoff_service.py:496-504 | after losing, the request hands back the session's active case whichever it is, and fails if and only if none is left |
| HandoffOvertaken.CancelsBalance | backend/app/services/handoff_service.py:267-278 | in every interleaving the cancels that did the work number the overtaken moves that undid a cancel, plus one if the case ends cancelled, and the journal holds one cancel event for each |
| HandoffOvertaken.CancelledOnceIff | backend/app/services/handoff_service.py:267-278 | a case is cancelled once if it ends cancelled and never otherwise, if and only if no move that read it open commits after a cancel |
| HandoffOvertaken.ClosedCasesStayIff | backend/app/services/handoff_service.py:414-431 | from any moment a case is closed, its row and journal never change again if and only if no move that read it open commits from then on |
| HandoffOvertaken.CancelledTwice | backend/app/services/handoff_service.py:267-278 | every run that reaches a queued case extends to one in which two cancels of it do the work, with a journal in between that does not replay |
| HandoffOvertaken.OvertakenMoveReached | backend/app/services/handoff_service.py:414-431 | the same as a run from the empty database |
| HandoffOvertaken.StaleClaimBreaksJournal | backend/app/services/handoff_service.py:267-278 | a winning cancel keeps the run invariant, the replayable journal included, if and only if no status move came between its read and its claim |
| HandoffOvertaken.StaleClaimReached | backend/app/services/handoff_service.py:236-278 | a run from the empty database in which one did |
| HandoffOvertaken.StaleMoveBreaksJournal | backend/app/services/handoff_service.py:414-431 | a move that commits sets its status whatever the row says, and keeps the run invariant if and only if the status it read is still the row's |
| HandoffRaces.NoUpdateIsLost | backend/app/repositories/session_repository.py:53-59 | in every interleaving, a session state that a turn or a cancel commits replaces the very row it had read |
| HandoffRaces.VersionCountsCommits | backend/app/repositories/session_repository.py:53-59 | a session's version grows by exactly the number of commits |
| UnitOfWork.Tables.SaveOptimistic | backend/app/repositories/session_repository.py:53-59 | saves and reports success exactly on a version match, else changes nothing |
| UnitOfWork.Tables.ClaimCancellation | backend/app/repositories/safety_repository.py:80-90 | claims exactly an active case and otherwise changes nothing |
| UnitOfWork.Tables.GetActive | backend/app/repositories/safety_repository.py:54-61 | the scan finds the active case the specification finds |
| UnitOfWork.Tables.GetLatestForSession | backend/app/repositories/order_repository.py:33-53 | the scan finds the latest order by creation time and id |
| UnitOfWork.Tables.AddCaseEvent | backend/app/services/handoff_service.py:576-586 | appends the event under the next number |
| UnitOfWork.Tables.InvalidateConfirmation | backend/app/services/handoff_service.py:487-492 | withdraws exactly the confirmation of that order and version, if it exists |
| HandoffServices.HandoffService.ApplyTransition | backend/app/services/handoff_service.py:506-563 | moves case, order and journals in place as the step function says, or names the error |
| HandoffServices.HandoffService.CreateOrReuse | backend/app/services/handoff_service.py:433-494 | opens or reuses a case in place as the step function says, errors included |
| HandoffServices.HandoffService.UpdateRisk | backend/app/services/handoff_service.py:438-459 | widens an active case on a different reason, in place, and leaves it alone on the same one |
| HandoffServices.HandoffService.MarkSummaryFailure | backend/app/services/handoff_service.py:565-574 | fails a case that is still requested or pending and leaves any other alone |
| HandoffServices.HandoffService.RequestHandoff | backend/app/services/handoff_service.py:114-158 | the whole request, failure of its summary included |
| HandoffServices.HandoffService.ProviderTransition | backend/app/services/handoff_service.py:414-431 | provider moves in place, rolled back on error |
| HandoffServices.HandoffService.ApplyCancellationEffects | backend/app/services/handoff_service.py:280-383 | order, confirmation, hold, session and journal change in place as the step function says |
| HandoffServices.HandoffService.Cancel | backend/app/services/handoff_service.py:236-278 | the whole cancel: report, replay or error, with every table rolled back on error |
| OrderLifecycle.Transition | backend/app/services/order_lifecycle_service.py:28-61 | hold, fixture and table guards in order, then status and event |
| IdLists.SortSorts | backend/app/repositories/menu_repository.py:52-57 | the listing order is by key, then id, and keeps the rows |
| IdLists.SortRenamed | backend/app/repositories/menu_repository.py:386-615 | ordering commutes with a renaming that keeps ids in order and keys unchanged |
| MenuClone.VersionsShownAlike | backend/app/repositories/menu_repository.py:48-138 | isomorphic versions list the same items in the same order with the same modifiers, ties by id included |
| MenuClone.ModifiersAlike | backend/app/repositories/menu_repository.py:260-299 | the modifier configuration of an item and its image agree up to row ids |
| MenuViews.ViewShowsTables | backend/app/repositories/menu_repository.py:36-138 | a branch shows exactly the dishes of the version it serves that are active with no row of this branch saying unavailable, or all if asked, each once, by category sort order then id, with the fields, allergens and modifiers of the tables; nothing if it serves none |
| MenuViews.GroupsAreShown | backend/app/repositories/menu_repository.py:260-299 | a dish's modifiers are exactly its linked groups by link order then id, each with exactly its options by sort order then id, as the tables have them |
| MenuIsomorphism.CloneIsomorphic | backend/app/repositories/menu_repository.py:386-615 | the cloned rows are a graph isomorphism of the source: items, categories, groups, options, links and declarations |
| MenuIsomorphism.CloneRetains | backend/app/repositories/menu_repository.py:386-615 | the clone leaves every other version's rows as they were |
| MenuCopies.StockCopied | backend/app/repositories/menu_repository.py:585-613 | every undeleted branch of the restaurant gets an availability row for each copy: the dish's own row, or an available one if it had none |
| MenuPublishing.PublishCatalogKeepsViews | backend/app/services/menu_management_service.py:47-62 | a live branch that served the copied menu, and every branch of another restaurant, sees the same menu after the publish |
| MenuPublishing.PublishCatalogViewIff | backend/app/repositories/menu_repository.py:617-647 | when a clone is published, a branch of the restaurant sees the same rows if and only if being live and having served the copied version agree |
| MenuExamples.InactiveBranchLosesItsMenu | backend/app/repositories/menu_repository.py:639-647 | a menu and an inactive branch that serves it and does not see it after a publish |
| MenuPublishing.LiveBranchView | backend/app/repositories/menu_repository.py:639-647 | every live branch shows the copied version's rows after the publish |
| MenuPublishing.OtherRestaurantView | backend/app/repositories/menu_repository.py:617-647 | no branch of another restaurant sees a change |
| MenuWrites.PublishIff | backend/app/services/menu_management_service.py:32-45 | exactly a draft of the restaurant is published, else which error; then the published version is archived and the live branches point at the new one, and nothing else changes |
| MenuWrites.RefusedIff | backend/app/repositories/menu_repository.py:397-568 | a version cannot be cloned if and only if the catalog leaves a category, dish or option untranslated, or two dishes would go by one name |
| MenuWrites.CompleteIff | backend/app/repositories/menu_repository.py:338-384 | a version is complete if and only if it has dishes, all marked with the catalog, and dishes, aliases, groups and options are in exactly the three locales |
| MenuWrites.CatalogAnswers | backend/app/services/menu_management_service.py:47-62 | what a catalog publish answers: a replay, a missing translation, a doubled name or the new version |
| MenuWrites.DishCopyAliases | backend/app/repositories/menu_repository.py:455-479 | the copy of a dish goes by its old names and the catalog's, and no other |
| MenuWrites.DishCopyTexts | backend/app/repositories/menu_repository.py:455-463 | the copy of a dish is translated to the languages the catalog has for it |
| MenuSchema.CloneKeepsSchema | backend/app/db/models.py:52-420 | the clone satisfies the keys of versions, branches, categories, items, groups, options, links, declarations, availability, translations and aliases: primary, foreign, and the unique codes, numbers, aliases and published version |
| MenuSchema.SwapKeepsSchema | backend/app/db/models.py:60-66 | archiving the published version and publishing another keeps every key, the one-published index included |
| MenuSchema.NextNumberIsFree | backend/app/repositories/menu_repository.py:326-328 | the next version number is above all numbers of the restaurant and one more than one of them, or 1 |
| MenuRepublish.CloneCompleteIff | backend/app/repositories/menu_repository.py:338-384 | the clone passes the completeness check if and only if the menu has items and their aliases lie in the three locales |
| MenuRepublish.PublishCatalogKeepsSchema | backend/app/services/menu_management_service.py:47-62 | a catalog publish keeps every key and leaves the answered version published |
| MenuRepublish.PublishTwice | backend/app/services/menu_management_service.py:47-62 | the second publish changes nothing and answers the same version if and only if the published menu was complete before the first, or is non-empty with known aliases |
| MenuExamples.FourthLocaleIsNeverComplete | backend/app/repositories/menu_repository.py:338-384 | a menu with one alias in a fourth locale, published twice with the second publish cloning again |
| MenuRaces.RunKeeps | backend/app/services/menu_management_service.py:32-62 | in every interleaving of publishers all keys hold, one published version included, live branches serve it, no version returns to draft and a restaurant once served stays served |
| MenuRaces.ForwardIff | backend/app/services/menu_management_service.py:32-45 | in an interleaving statuses only move draft, published, archived if and only if nobody commits a version that was archived when its publisher read the published one |
| MenuExamples.ArchivedMenuComesBack | backend/app/services/menu_management_service.py:32-45 | from any two drafts of a restaurant, a run in which one is published, archived and published again by a publisher that was overtaken |
| MenuExamples.ArchivedMenuComesBackReached | backend/app/services/menu_management_service.py:32-45 | the same as a run from a restaurant without menus |
| MenuRaces.CommitSwapCommits | backend/app/repositories/menu_repository.py:617-647 | a publish that commits on an earlier read leaves its version the one published and served by every live branch; statuses move forward if and only if that version was not archived meanwhile |
| MenuRaces.CommitCloneCommits | backend/app/services/menu_management_service.py:47-60 | the same for a catalog publish that commits on an earlier read |
| MenuRaces.OneMenuServed | backend/app/repositories/menu_repository.py:36-46 | whatever races, a branch serves its restaurant's one published version or nothing, and a live branch serves it |
| MenuRaces.TicketStillGood | backend/app/repositories/menu_repository.py:617-635 | while statuses have only moved forward, a publisher overtaken after it read the published version is refused by the conditional archive or the index |
| MenuRaces.RunShows | backend/app/repositories/menu_repository.py:386-647 | no draft, publish or clone changes what an existing version shows |
| MenuExamples.UndisturbedPublish | backend/app/services/menu_management_service.py:32-45 | with nothing in between, the acts of a publisher are the whole call, refusals included |
| MenuExamples.UndisturbedCatalog | backend/app/services/menu_management_service.py:47-62 | and so are those of a catalog publisher |
| MenuRaces.CatalogPublishesWhatItRead | backend/app/services/menu_management_service.py:47-60 | a committed catalog publish shows live branches the version read at its start, also when another was published in between |
| MenuExamples.PublishedMenuIsReplacedReached | backend/app/services/menu_management_service.py:47-60 | a run in which a branch shows a menu published meanwhile and, after the catalog publisher commits, the older one again |
| MenuRepositories.CopyCategories | backend/app/repositories/menu_repository.py:397-421 | the loop fills the category table and map in sort order, or finds a missing translation |
| MenuRepositories.CopyItems | backend/app/repositories/menu_repository.py:423-480 | the loop fills the item table and map in id order, or finds a missing translation |
| MenuRepositories.CopyDeclarations | backend/app/repositories/menu_repository.py:482-498 | every declaration of the version is copied through the item map, whatever the order |
| MenuRepositories.CopyGroups | backend/app/repositories/menu_repository.py:500-534 | the loop fills the group table, map and translations in id order |
| MenuRepositories.CopyChoices | backend/app/repositories/menu_repository.py:536-568 | the loop copies the options of the copied groups, or finds a missing translation |
| MenuRepositories.CopyLinks | backend/app/repositories/menu_repository.py:570-583 | every link is copied through both maps, whatever the order |
| MenuRepositories.CopyStock | backend/app/repositories/menu_repository.py:585-613 | branch by branch and item by item, the availability rows of the copies |
| MenuRepositories.CopyTexts | backend/app/repositories/menu_repository.py:455-479 | translations and aliases of the copies, and whether two of them own one alias |
| MenuRepositories.MenuRepository.ListItems | backend/app/repositories/menu_repository.py:48-138 | lists exactly the branch's view |
| MenuRepositories.MenuRepository.PublishForRestaurant | backend/app/repositories/menu_repository.py:617-647 | archives, publishes and points the live branches in place |
| MenuRepositories.MenuRepository.CloneDraft | backend/app/repositories/menu_repository.py:386-615 | the tables end as the clone, or as they were on an error |
| MenuRepositories.MenuRepository.PublishCatalog | backend/app/services/menu_management_service.py:47-62 | the whole call: replay, clone and publish, or error |
| MenuRepositories.MenuRepository.Publish | backend/app/services/menu_management_service.py:32-45 | publishes a draft of the restaurant, or names the error |
| MenuRepositories.MenuRepository.CreateDraft | backend/app/services/menu_management_service.py:13-22 | adds an empty draft under the next number |
| ConversationProperties.ReadOnlyPatch | backend/app/agents/orchestrator.py:1116-1127 | a read-only intent's patch is let through if and only if it leaves order, address and phone as they are |
| ConversationProperties.RunSettles | backend/app/agents/orchestrator.py:152-244 | in every conversation submitted, order id, customer-confirmed and valid confirmation go together |
| ConversationProperties.LockedUntilNewOrder | backend/app/agents/orchestrator.py:246-323 | a submitted conversation changes only by starting a new order |
| ConversationEffects.NewOrderStartsClean | backend/app/agents/orchestrator.py:246-265 | a new order after a submitted one has no dish, address, phone, candidate, pending action, snapshot or order id; delivery, version 1, unlocked |
| ConversationEffects.ConfirmAfterNewOrder | backend/app/agents/orchestrator.py:246-323 | in every conversation, confirming right after starting a new order submits nothing |
| ConversationEffects.TurnLeaves | backend/app/agents/orchestrator.py:152-244 | after a turn with a single message order, address, candidate, phone, fulfilment, pending action, stage and submission are what a table of each field says of the message |
| ConversationEffects.CompositeLeaves | backend/app/agents/orchestrator.py:1014-1057 | each child of a composite message leaves these fields as the message alone would after the children before it |
| ConversationEffects.PreparedFinds | backend/app/agents/orchestrator.py:1088-1114 | which proposals and address candidates a message still finds |
| ConversationProperties.ChangeIsDraft | backend/app/agents/orchestrator.py:1212-1229 | after a material change of an order that is not submitted the order is an unconfirmed draft |
| ConversationProperties.VersionMoves | backend/app/agents/orchestrator.py:1212-1229 | the draft version moves, by one, exactly when the material content of an unsubmitted order moves |
| ConversationProperties.VersionIdentifiesDraft | backend/app/agents/orchestrator.py:152-208 | while drafting the version never falls, and equal versions mean equal order, fulfilment, address and phone, rollbacks included |
| ConversationProperties.SingleSubmitKeepsOrder | backend/app/agents/confirmation_agent.py:16-59 | only a confirm submits, and a single message that submits changes nothing it submits |
| ConversationProperties.NothingSubmitsWithoutConfirm | backend/app/agents/confirmation_agent.py:16-59 | a message with no confirm at any depth, single or composite, submits nothing |
| ConversationProperties.VersionMovesWithContent | backend/app/agents/orchestrator.py:1212-1229 | for every message the router builds, submissions and rollbacks included, the draft version moves by one exactly when order, fulfilment, address or phone moves |
| ConversationPending.ShortLivedIsFresh | backend/app/agents/orchestrator.py:1097-1109 | a bulk-add, category-removal or conditional proposal that is pending was made by the turn that just ended |
| ConversationPending.ConfirmExecutes | backend/app/agents/confirmation_agent.py:16-127 | what a confirm turn does for each pending action, and exactly when it submits |
| ConversationPending.ConfirmExecutesFreshProposal | backend/app/agents/confirmation_agent.py:61-127 | in every conversation a confirm executes such a proposal only if the directly preceding turn made it |
| ConversationPending.OnlyCancelProposesClear | backend/app/agents/orchestrator.py:935-955 | clearing is proposed if and only if a cancel meets an order with nothing pending |
| ConversationPending.ConfirmClearsOnlyIfProposed | backend/app/agents/orchestrator.py:1097-1109 | a confirm clears the order only if a turn proposed it and no read-only, fallback or recommendation turn followed |
| ConversationRollback.CorrectionInvertsChange | backend/app/agents/orchestrator.py:1141-1203 | after an unconfirmed change, one that a confirm executed included, and any quiet turns a correction restores all five fields if and only if the change did not submit and nothing cleared the order since |
| ConversationRollback.CorrectionRestores | backend/app/agents/orchestrator.py:1183-1203 | a correction restores the recorded fields, never the fulfilment type, and leaves nothing pending and no candidate; or it does nothing |
| ConversationRollback.SecondCorrectionDoesNothing | backend/app/agents/orchestrator.py:1183-1203 | a second correction restores nothing |
| ConversationRollback.OnlyClearsForget | backend/app/agents/order_agent.py:426-443 | exactly clearing the order, directly or by confirming it, drops the snapshot |
| ConversationRollback.EmptyingForgets | backend/app/agents/orchestrator.py:1141-1181 | a turn that empties the order leaves nothing to take back, whatever emptied it |
| ConversationRollback.PickupOutlivesItsCorrection | backend/app/agents/delivery_agent.py:34-48 | taking back a switch to pickup restores the address but leaves the order a pickup |
| ConversationRollback.ClearingEmptyOrderForgets | backend/app/agents/order_agent.py:426-443 | after clearing an empty order an address given before can no longer be taken back |
| Orchestrators.Orchestrator.ApplyPatch | backend/app/agents/orchestrator.py:1129-1139 | sets exactly the keys in the patch |
| Orchestrators.Orchestrator.ExpireStalePendingState | backend/app/agents/orchestrator.py:1088-1114 | clears exactly the expired pending action and address candidate |
| Orchestrators.Orchestrator.RecordMutationSnapshot | backend/app/agents/orchestrator.py:1141-1181 | records the changed ones of the five fields, or forgets when the order was emptied |
| Orchestrators.Orchestrator.MaybeApplyRollback | backend/app/agents/orchestrator.py:1183-1203 | rolls back exactly an unconfirmed snapshot, on a disowning message |
| Orchestrators.Orchestrator.AdvanceDraftVersion | backend/app/agents/orchestrator.py:1212-1229 | advances the version on a material change of an unsubmitted order |
| Orchestrators.Orchestrator.HandleComposite | backend/app/agents/orchestrator.py:1014-1057 | dispatches, validates and applies the children one after the other |
| Orchestrators.Orchestrator.AnswerSingle | backend/app/agents/orchestrator.py:180-206 | validates, applies, then rolls back or records a single message |
| Orchestrators.Orchestrator.HandleUserMessage | backend/app/agents/orchestrator.py:152-244 | one whole turn, submitted lifecycle included |
| MenuMatching.FindIsFirst | backend/app/services/menu_service.py:154-169 | the occurrence found is the first |
| MenuMatching.FindItemByName | backend/app/services/menu_service.py:154-169 | the loops find an exact name first, else the first of the best occurrences |
| MenuMatching.FoundIsBest | backend/app/services/menu_service.py:154-169 | the dish found has the text as one of its names, first of all dishes, or has a name standing earliest in the text, longest there, first in the menu |
| MenuMatching.FindItemsInText | backend/app/services/menu_service.py:171-190 | the loops choose what the greedy specification chooses |
| MenuMatching.ChosenDishes | backend/app/services/menu_service.py:171-190 | the chosen spans are real occurrences side by side in order, of different dishes, and a dish is mentioned if and only if its best span is chosen, or overlaps a chosen span ahead of it or shares its id |
| MenuMatching.ChosenSideBySide | backend/app/services/menu_service.py:183-189 | hits taken in order end side by side in reading order |
| MenuMatching.LeftOutIsBlocked | backend/app/services/menu_service.py:183-189 | a hit that is not taken has a character in common with a taken one listed before it, or its dish's id |
| MenuMatching.ChosenDoNotClash | backend/app/services/menu_service.py:183-189 | no two taken hits have a character or a dish id in common |
| MenuMatching.HitIsBest | backend/app/services/menu_service.py:176-182 | nothing of a dish stands earlier in the text than its span, nor longer at the same place |
| MenuMatching.SearchesAgree | backend/app/services/menu_service.py:154-190 | one search is empty if and only if the other finds nothing, and the first dish of all is the single best one, exact names and ties included |
| ModifierValidation.Validate | backend/app/services/modifier_validation_service.py:19-50 | the loops compute the specified answer or the specified first error |
| ModifierValidation.ResolveIff | backend/app/services/modifier_validation_service.py:52-79 | a selection resolves if and only if it stands for exactly one option of all groups, and that one is active in an active group |
| ModifierValidation.CheckGroupsIff | backend/app/services/modifier_validation_service.py:29-40 | the group scan finds nothing wrong if and only if every active group has between its minimum and maximum options, and at least one if required |
| ModifierValidation.AcceptedIff | backend/app/services/modifier_validation_service.py:19-50 | validation succeeds if and only if every selection resolves, no option repeats and every active group has between its minimum and maximum options, and at least one if required |
| ModifierValidation.ResolveMeans | backend/app/services/modifier_validation_service.py:52-79 | in terms of the configuration: a selection resolves to the one active option of an active group it names by code or name, is ambiguous if and only if it names two, and else is unavailable |
| ModifierValidation.ValidatedFits | backend/app/services/modifier_validation_service.py:19-50 | an answer is given if and only if it lists options the selections mean, all different, with every active group's number chosen in its range |
| ModifierValidation.BrokenGroupsIff | backend/app/services/modifier_validation_service.py:29-40 | the group error names the first active group out of range: required if none is chosen, else too few, else too many |
| ModifierValidation.RejectedIff | backend/app/services/modifier_validation_service.py:19-40 | which error a rejection gives: the first selection that does not resolve, else a repeated option, else the first group out of range |
| ModifierValidation.OrderDoesNotMatter | backend/app/services/modifier_validation_service.py:19-50 | success does not depend on the order of the selections, and the answer is reordered with them |
| ModifierValidation.ResubmittedUnchanged | backend/app/services/modifier_validation_service.py:42-79 | with unique codes, resubmitting the structured answer returns it unchanged |
| OpeningHours.OpenIffCovered | backend/app/services/opening_hours_service.py:11-37 | the branch is open if and only if no closure is dated today and some slot of some day, undated or dated that very day, covers the instant as an interval of absolute time |
| OpeningHours.OnlyTwoDaysMatter | backend/app/services/opening_hours_service.py:20-35 | only today's and yesterday's slots can reach an instant of today |
| OpeningHours.OtherDatesDoNotMatter | backend/app/services/opening_hours_service.py:20-35 | a slot dated neither today nor, if it is a night slot, yesterday changes nothing, open or closed |
| OpeningHours.PreviousWeekday | backend/app/services/opening_hours_service.py:22 | the weekday looked up for yesterday is yesterday's, across the Sunday to Monday wrap |
| OpeningHours.ListHoursMembers | backend/app/repositories/operations_repository.py:15-24 | exactly the slots of the weekday that are undated or dated that day count |
| OpeningHours.ClosureReadingsAgreeIff | backend/app/services/opening_hours_service.py:23-36 | reading closures on the instant's date agrees with reading them on the slot's date if and only if yesterday's night does not make the difference |
| OpeningHours.NightOfAClosedMonday | backend/app/services/opening_hours_service.py:23-36 | a night slot and a closure dated on either of its days, where the two readings differ |

## Left out

- Idempotency records of confirmations and their replay; a confirmation is one insert at the order's current draft version.
- Order items, delivery fields, prices and contact snapshots; an order row holds status, versions, owner and hold.
- Clocks, timestamps, public ids, masking and logging; creation times are inputs and a case's id stands for its public id.
- Summaries, their JSON and their schema checks; whether a summary could be built, and whether a resolution is safe, are inputs.
- Session reset and deletion, and the session key table; a session's key is its id.
- Risk ids and blocked actions are sets, so the order in which a case lists them is not modelled.
- HandoffRaces.WorldsAreSafe: requests, cancels, status moves and conversation turns are split into read and write; confirmations, withdrawn confirmations and order status moves are single acts. What a move reads after its case (its order, sequence numbers) is read when it commits. Row locks are not modelled, so interleavings that a lock would forbid are included.
- HandoffRaces.NoUpdateIsLost: confirmations are whole acts in these interleavings, and one whose state carries persistence version 0 skips the first version check; the statement is about turns and cancels.
- MenuSchema.CloneKeepsSchema: an allergen is an opaque id, so the tenant keys of allergens and declarations, and the copied restaurant of a declaration, are not modelled; neither are translations' texts or category translations.
- ConversationProperties.VersionMovesWithContent: messages are arbitrary trees of intents; it speaks of those the router builds, whose composites hold no confirm.
- Category, item, group and option translations' texts; only which locales they exist in. Names, descriptions and alias spellings are meant to change with the catalog; a clone's category translations are not stored.
- MenuRepositories.MenuRepository.CloneDraft: when a catalog both misses a translation and brings an alias clash, the missing translation is reported; the program reports whichever its flushes meet first. The loops for translations and aliases run after the item loop instead of inside it, and the tables are replaced when all loops are done, so half-written tables inside a transaction are not modelled.
- MenuViews.ViewShowsTables: the catalog marker among a dish's attributes, which every clone sets, is not part of what is shown.
- Edits of a draft menu's rows between creation and publishing.
- Interpretation of messages: intents, entities, address and phone parsing, the language model and its validation are inputs of a turn.
- Orders' arithmetic: the order operations of a turn are arbitrary functions from order to order.
- Orchestrators.Orchestrator.ApplyPatch: the session is one record that each assignment replaces, so aliasing between a state and its lists is not modelled.
- Response texts and traces of a turn, recommendations, viewed categories and preferences, which are one opaque value.
- MenuMatching.FindItemByName: sorting is a function, not a loop; letter case and Unicode forms are those of the given strings.
- Time zones: opening hours start from a local date and time of day.
- Routes, voice gateway, speech, migrations, seeding and evaluation scripts.
