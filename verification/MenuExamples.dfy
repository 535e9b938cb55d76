/**
 Menus and runs, reachable from a seeded menu, in which a publish does something
 its caller may not expect: a branch loses its menu, a second publish is not a
 replay, an archived menu comes back, a menu published meanwhile is replaced.
 */
module MenuExamples {
  import opened Wrappers
  import opened IdLists
  import opened MenuModel
  import opened MenuClone
  import opened MenuCopies
  import opened MenuIsomorphism
  import opened MenuPublishing
  import opened MenuSchema
  import opened MenuRepublish
  import opened MenuRaces

  // ---------- one dish ----------

  const French: Alias := Alias(1, 1, OtherLocale("fr-FR"), "riz")

  /** One published version with one dish with one option, and one branch that serves it. */
  function RiceMenu(active: bool, aliases: set<Alias>): Menu {
    Menu(map[1 := Version(1, 1, Published)], 2,
         map[1 := Branch(1, active, false, Some(1))],
         map[1 := Category(1, "main", 0, true)], 2,
         map[1 := Item(1, 1, "rice", 1000, "HKD", true, map[])], 2,
         map[1 := Group(1, "size", "Size", false, 0, 1, 0, true)], 2,
         map[1 := Choice(1, "large", "Large", 200, 0, true)], 2,
         map[(1, 5) := Declared(1, "CONTAINS", "menu", None)],
         map[(1, 1) := Link(1, 0)],
         map[(1, 1) := Stock(1, true, None, None)],
         {}, aliases, {}, {})
  }

  const RiceCatalog: Catalog :=
    Catalog("2", map["main" := LOCALES], map["rice" := map[ZhCN := {"fan"}, YueHantHK := {"faan"}, EnHK := {"rice"}]],
            map["Large" := LOCALES])

  lemma RiceSchema(active: bool, aliases: set<Alias>)
    requires aliases <= {French}
    ensures Schema(RiceMenu(active, aliases)) && Served(RiceMenu(active, aliases))
  {
    RiceVersions(active, aliases);
    RiceRows(active, aliases);
    RiceTexts(active, aliases);
  }

  lemma RiceVersions(active: bool, aliases: set<Alias>)
    ensures var m := RiceMenu(active, aliases);
            && Keys(m.versions, m.nextVersion) && OnePublished(m.versions) && Numbered(m.versions) && VersionsKnown(m)
            && BranchesOwned(m) && Served(m)
  {
  }

  lemma RiceRows(active: bool, aliases: set<Alias>)
    ensures var m := RiceMenu(active, aliases);
            && CategoriesOwned(m) && ChoicesOwned(m) && DeclarationsOwned(m) && LinksOwned(m) && StockOwned(m) && StockTenants(m)
            && CodesUnique(m.items) && CategoryCodesUnique(m.categories) && GroupCodesUnique(m.groups) && ChoiceCodesUnique(m.choices)
  {
  }

  lemma RiceTexts(active: bool, aliases: set<Alias>)
    requires aliases <= {French}
    ensures var m := RiceMenu(active, aliases); TextsOwned(m) && AliasesOwned(m) && AliasesUnique(m.aliases)
  {
  }

  lemma RiceCatalogShape()
    ensures CatalogShape(RiceCatalog)
  {
    var texts := RiceCatalog.items["rice"];
    assert texts.Keys == LOCALES;
    assert "fan" in texts[ZhCN] && "faan" in texts[YueHantHK] && "rice" in texts[EnHK];
  }

  /** The rows of the dish, in whatever other versions the menu has. */
  predicate HoldsRice(m: Menu) {
    && m.categories == RiceMenu(true, {}).categories && m.items == RiceMenu(true, {}).items
    && m.choices == RiceMenu(true, {}).choices && m.groups == RiceMenu(true, {}).groups
    && m.nextCategory == 2 && m.nextItem == 2 && m.nextGroup == 2 && m.nextChoice == 2
  }

  lemma OneDish(m: Menu)
    requires HoldsRice(m)
    ensures ItemsOf(m, 1) == {1} && ItemList(m, 1) == [1] && CategoriesOf(m, 1) == {1} && ChoicesOf(m, 1) == {1}
  {
    assert ItemsOf(m, 1) == {1} && GroupsOf(m, 1) == {1};
    assert Ascending({1}, 1) == [] by { assert Ascending({1}, 0) == []; }
  }

  lemma RiceIsCloned(m: Menu)
    requires HoldsRice(m)
    ensures Refusal(m, 1, RiceCatalog).None? && !Complete(m, 1, RiceCatalog.version)
  {
    OneDish(m);
    ListsInTables(m, 1);
    var copies := AliasCopies(m, ItemList(m, 1), m.nextItem, m.nextVersion, RiceCatalog);
    forall a | a in copies ensures a.item == 2 {}
    assert ZhCN in LOCALES && Terms(RiceCatalog, "Large") == LOCALES && ZhCN in CatalogTexts(RiceCatalog, "rice");
    assert Covers(RiceCatalog, m, 1) && !AliasClash(copies);
    assert 1 in ItemsOf(m, 1) && !ItemComplete(m, 1, RiceCatalog.version);
  }

  lemma RiceIsPublished(active: bool, aliases: set<Alias>)
    requires aliases <= {French}
    ensures var m := RiceMenu(active, aliases);
            && CurrentVersion(m, 1) == Some(1) && !Complete(m, 1, RiceCatalog.version) && 1 in ItemsOf(m, 1)
            && Refusal(m, 1, RiceCatalog).None?
  {
    var m := RiceMenu(active, aliases);
    RiceIsCloned(m);
    OneDish(m);
    assert PublishedBelow(m.versions, 1, -1, 1).None? by { assert PublishedBelow(m.versions, 1, -1, 0).None?; }
  }

  lemma UnrefusedPublishes(m: Menu, restaurant: int, catalog: Catalog)
    requires CurrentVersion(m, restaurant).Some? && Refusal(m, CurrentVersion(m, restaurant).value, catalog).None?
    ensures PublishCatalog(m, restaurant, catalog).result.Ok?
  {
    var src := CurrentVersion(m, restaurant).value;
    if Complete(m, src, catalog.version) {
      assert PublishCatalog(m, restaurant, catalog) == MenuOutcome(m, Ok(PublishedCatalog(src, true)));
    } else {
      var cloned := Cloned(m, restaurant, NextNumber(m, restaurant), src, catalog);
      assert CloneDraft(m, restaurant, NextNumber(m, restaurant), src, catalog) == Ok(cloned);
      assert PublishCatalog(m, restaurant, catalog)
          == MenuOutcome(PublishVersion(cloned, restaurant, m.nextVersion), Ok(PublishedCatalog(m.nextVersion, false)));
    }
  }

  lemma InactiveBranchLoses(m: Menu, restaurant: int, catalog: Catalog, b: int, v: int)
    requires Schema(m) && CurrentVersion(m, restaurant) == Some(v) && Refusal(m, v, catalog).None? && !Complete(m, v, catalog.version)
    requires b in m.branches && m.branches[b].restaurant == restaurant && m.branches[b].menu == Some(v) && !Live(m.branches[b])
    requires ItemsOf(m, v) != {}
    ensures PublishCatalog(m, restaurant, catalog).result.Ok?
    ensures View(m, b, true) != [] && View(PublishCatalog(m, restaurant, catalog).menu, b, true) != View(m, b, true)
  {
    UnrefusedPublishes(m, restaurant, catalog);
    PublishCatalogViewIff(m, restaurant, catalog, b);
    SchemaOwned(m);
    VersionShowsItems(m, b, v);
    PublishedBelowFinds(m.versions, restaurant, -1, m.nextVersion);
    assert ActiveVersion(m, b) == Some(v);
  }

  lemma UnknownAliasIsNeverComplete(m: Menu, restaurant: int, catalog: Catalog, a: Alias, v: int)
    requires Schema(m) && CatalogShape(catalog)
    requires CurrentVersion(m, restaurant) == Some(v) && Refusal(m, v, catalog).None? && !Complete(m, v, catalog.version)
    requires a in m.aliases && a.item in ItemsOf(m, v) && a.locale !in LOCALES
    ensures var first := PublishCatalog(m, restaurant, catalog);
            && first.result.Ok?
            && PublishCatalog(first.menu, restaurant, catalog) != MenuOutcome(first.menu, Ok(PublishedCatalog(first.result.value.version, true)))
  {
    UnrefusedPublishes(m, restaurant, catalog);
    PublishTwice(m, restaurant, catalog);
  }

  /** The seeded menu, whose branch may be inactive and whose dish may have an alias in a fourth locale. */
  lemma Seeded(active: bool, aliases: set<Alias>) returns (m: Menu, catalog: Catalog)
    requires aliases <= {French}
    ensures Schema(m) && CatalogShape(catalog)
    ensures CurrentVersion(m, 1) == Some(1) && Refusal(m, 1, catalog).None? && !Complete(m, 1, catalog.version) && 1 in ItemsOf(m, 1)
    ensures m.branches == map[1 := Branch(1, active, false, Some(1))] && m.aliases == aliases
  {
    m, catalog := RiceMenu(active, aliases), RiceCatalog;
    RiceSchema(active, aliases);
    RiceCatalogShape();
    RiceIsPublished(active, aliases);
  }

  /** An inactive branch that served the published menu shows another one, none, once a catalog is published. */
  lemma InactiveBranchLosesItsMenu() returns (m: Menu, catalog: Catalog)
    ensures Schema(m) && CatalogShape(catalog) && PublishCatalog(m, 1, catalog).result.Ok?
    ensures View(m, 1, true) != [] && View(PublishCatalog(m, 1, catalog).menu, 1, true) != View(m, 1, true)
  {
    m, catalog := Seeded(false, {});
    InactiveBranchLoses(m, 1, catalog, 1, 1);
  }

  /** A menu whose dish has an alias in a fourth locale is cloned again by the second publish. */
  lemma FourthLocaleIsNeverComplete() returns (m: Menu, catalog: Catalog)
    ensures Schema(m) && CatalogShape(catalog) && PublishCatalog(m, 1, catalog).result.Ok?
    ensures var first := PublishCatalog(m, 1, catalog);
            PublishCatalog(first.menu, 1, catalog) != MenuOutcome(first.menu, Ok(PublishedCatalog(first.result.value.version, true)))
  {
    m, catalog := Seeded(true, {French});
    assert French in m.aliases && French.locale !in LOCALES;
    UnknownAliasIsNeverComplete(m, 1, catalog, French, 1);
  }

  // ---------- a publisher with nothing in between ----------

  function WholePublish(pid: int, restaurant: int, v: int): seq<Act> {
    [BeginPublish(pid, restaurant, v), LookForCurrent(pid), FinishPublish(pid)]
  }

  lemma {:induction false} RunOn(w: World, first: seq<Act>, second: seq<Act>)
    ensures Run(w, first + second) == Run(Run(w, first), second)
    decreases |first|
  {
    if first == [] {
      assert first + second == second;
    } else {
      assert (first + second)[1..] == first[1..] + second;
      RunOn(Next(w, first[0]), first[1..], second);
    }
  }

  /** The swap a publisher makes who reads the published version now. */
  lemma SwapNow(m: Menu, restaurant: int, v: int)
    requires Schema(m) && v in m.versions && m.versions[v].restaurant == restaurant
    ensures var seen := PublishedBelow(m.versions, restaurant, v, m.nextVersion);
            CommitSwap(m, restaurant, seen, v) == Ok(PublishVersion(m, restaurant, v))
  {
    var seen := PublishedBelow(m.versions, restaurant, v, m.nextVersion);
    PublishedBelowFinds(m.versions, restaurant, v, m.nextVersion);
    SwapKeepsSchema(m, restaurant, seen, v);
    var swapped := Swap(m, restaurant, seen, v);
    PublishedBelowFinds(swapped.versions, restaurant, v, swapped.nextVersion);
    assert swapped.versions[v].status == Published;
  }

  /** Publishing v leaves it published and every other version that was published archived. */
  lemma PublishedNow(m: Menu, restaurant: int, v: int)
    requires Schema(m) && v in m.versions && m.versions[v].restaurant == restaurant
    ensures var after := PublishVersion(m, restaurant, v).versions;
            && after.Keys == m.versions.Keys && after[v] == m.versions[v].(status := Published)
            && forall u :: u in m.versions && u != v ==>
                 after[u] == if PublishedOther(m.versions, restaurant, v, u) then m.versions[u].(status := Archived) else m.versions[u]
  {
    PublishedBelowFinds(m.versions, restaurant, v, m.nextVersion);
  }

  lemma RunTwo(w: World, a: Act, b: Act)
    ensures Run(w, [a, b]) == Next(Next(w, a), b)
  {
    assert [a, b][1..] == [b] && [b][1..] == [];
    assert Run(Next(w, a), [b]) == Run(Next(Next(w, a), b), []);
  }

  /** The last two acts of a publisher whose draft check lies behind. */
  lemma LookAndPublish(w: World, pid: int, restaurant: int, v: int)
    requires Schema(w.menu) && pid in w.publishers && w.publishers[pid] == WillLook(restaurant, v)
    requires v in w.menu.versions && w.menu.versions[v].restaurant == restaurant
    ensures Run(w, [LookForCurrent(pid), FinishPublish(pid)])
         == World(PublishVersion(w.menu, restaurant, v), w.publishers[pid := HasPublished(v)])
  {
    RunTwo(w, LookForCurrent(pid), FinishPublish(pid));
    SwapNow(w.menu, restaurant, v);
  }

  lemma BeginsAlone(w: World, pid: int, restaurant: int, v: int)
    requires pid !in w.publishers
    requires v in w.menu.versions && w.menu.versions[v].restaurant == restaurant && w.menu.versions[v].status == DraftMenu
    ensures Run(w, [BeginPublish(pid, restaurant, v)]) == Put(w, pid, WillLook(restaurant, v))
  {
    assert [BeginPublish(pid, restaurant, v)][1..] == [];
  }

  lemma PublishAlone(w: World, pid: int, restaurant: int, v: int)
    requires Schema(w.menu) && pid !in w.publishers
    requires v in w.menu.versions && w.menu.versions[v].restaurant == restaurant && w.menu.versions[v].status == DraftMenu
    ensures Run(w, WholePublish(pid, restaurant, v)) == World(PublishVersion(w.menu, restaurant, v), w.publishers[pid := HasPublished(v)])
  {
    var begin := BeginPublish(pid, restaurant, v);
    assert WholePublish(pid, restaurant, v) == [begin] + [LookForCurrent(pid), FinishPublish(pid)];
    RunOn(w, [begin], [LookForCurrent(pid), FinishPublish(pid)]);
    BeginsAlone(w, pid, restaurant, v);
    LookAndPublish(Put(w, pid, WillLook(restaurant, v)), pid, restaurant, v);
  }

  /** Where a publisher ends up that is done. */
  function Ends(r: Result<int, MenuError>): Publisher {
    match r
    case Ok(v) => HasPublished(v)
    case Err(e) => MenuRaces.Refused(e)
  }

  /** With nothing in between, the three acts of a publisher are the whole call, refusals included. */
  lemma UndisturbedPublish(w: World, pid: int, restaurant: int, v: int)
    requires Schema(w.menu) && pid !in w.publishers
    ensures Run(w, WholePublish(pid, restaurant, v))
         == World(Publish(w.menu, restaurant, v).menu, w.publishers[pid := Ends(Publish(w.menu, restaurant, v).result)])
  {
    if v in w.menu.versions && w.menu.versions[v].restaurant == restaurant && w.menu.versions[v].status == DraftMenu {
      PublishAlone(w, pid, restaurant, v);
    } else {
      RefusedAlone(w, pid, restaurant, v);
    }
  }

  lemma RefusedAlone(w: World, pid: int, restaurant: int, v: int)
    requires pid !in w.publishers && Publish(w.menu, restaurant, v).result.Err?
    ensures Run(w, WholePublish(pid, restaurant, v))
         == World(w.menu, w.publishers[pid := MenuRaces.Refused(Publish(w.menu, restaurant, v).result.error)])
  {
    var begin := BeginPublish(pid, restaurant, v);
    var refused := Put(w, pid, MenuRaces.Refused(Publish(w.menu, restaurant, v).result.error));
    assert WholePublish(pid, restaurant, v) == [begin] + [LookForCurrent(pid), FinishPublish(pid)];
    RunOn(w, [begin], [LookForCurrent(pid), FinishPublish(pid)]);
    assert [begin][1..] == [] && Run(w, [begin]) == refused;
    RunTwo(refused, LookForCurrent(pid), FinishPublish(pid));
  }

  function EndsCatalog(r: Result<PublishedCatalog, MenuError>): Publisher {
    match r
    case Ok(answer) => HasPublished(answer.version)
    case Err(e) => MenuRaces.Refused(e)
  }

  /** And so are the two of a catalog publisher. */
  lemma UndisturbedCatalog(w: World, pid: int, restaurant: int, catalog: Catalog)
    requires Keys(w.menu.versions, w.menu.nextVersion) && pid !in w.publishers
    ensures Next(Next(w, BeginCatalog(pid, restaurant, catalog)), FinishCatalog(pid))
         == World(PublishCatalog(w.menu, restaurant, catalog).menu,
                  w.publishers[pid := EndsCatalog(PublishCatalog(w.menu, restaurant, catalog).result)])
  {
    var current := CurrentVersion(w.menu, restaurant);
    if current.Some? && !Complete(w.menu, current.value, catalog.version) {
      CatalogAlone(w, pid, restaurant, catalog, current.value);
    }
  }

  lemma CatalogAlone(w: World, pid: int, restaurant: int, catalog: Catalog, src: int)
    requires Keys(w.menu.versions, w.menu.nextVersion) && pid !in w.publishers
    requires CurrentVersion(w.menu, restaurant) == Some(src) && !Complete(w.menu, src, catalog.version)
    ensures Next(Next(w, BeginCatalog(pid, restaurant, catalog)), FinishCatalog(pid))
         == World(PublishCatalog(w.menu, restaurant, catalog).menu,
                  w.publishers[pid := EndsCatalog(PublishCatalog(w.menu, restaurant, catalog).result)])
  {
    var number := NextNumber(w.menu, restaurant);
    var waiting := WillClone(restaurant, src, number, catalog);
    CatalogBegins(w, pid, restaurant, catalog, src);
    NextNumberIsFree(w.menu, restaurant);
    Settles(Put(w, pid, waiting), pid, waiting);
    CatalogCommits(w.menu, restaurant, catalog, src);
    CatalogSettles(w, pid, waiting, CommitClone(w.menu, restaurant, src, number, catalog), PublishCatalog(w.menu, restaurant, catalog));
  }

  lemma CatalogBegins(w: World, pid: int, restaurant: int, catalog: Catalog, src: int)
    requires pid !in w.publishers && CurrentVersion(w.menu, restaurant) == Some(src) && !Complete(w.menu, src, catalog.version)
    ensures Next(w, BeginCatalog(pid, restaurant, catalog)) == Put(w, pid, WillClone(restaurant, src, NextNumber(w.menu, restaurant), catalog))
  {
  }

  lemma CatalogSettles(w: World, pid: int, waiting: Publisher, r: Result<Menu, MenuError>, whole: MenuOutcome<PublishedCatalog>)
    requires if r.Ok? then whole == MenuOutcome(r.value, Ok(PublishedCatalog(w.menu.nextVersion, false)))
             else whole == MenuOutcome(w.menu, Err(r.error))
    ensures Settle(Put(w, pid, waiting), pid, r, w.menu.nextVersion) == World(whole.menu, w.publishers[pid := EndsCatalog(whole.result)])
  {
    assert w.publishers[pid := waiting][pid := EndsCatalog(whole.result)] == w.publishers[pid := EndsCatalog(whole.result)];
  }

  lemma CatalogCommits(m: Menu, restaurant: int, catalog: Catalog, src: int)
    requires CurrentVersion(m, restaurant) == Some(src) && !Complete(m, src, catalog.version)
    requires !NumberTaken(m, restaurant, NextNumber(m, restaurant))
    ensures var r, whole := CommitClone(m, restaurant, src, NextNumber(m, restaurant), catalog), PublishCatalog(m, restaurant, catalog);
            if r.Ok? then whole == MenuOutcome(r.value, Ok(PublishedCatalog(m.nextVersion, false)))
            else whole == MenuOutcome(m, Err(r.error))
  {
  }

  // ---------- an archived menu comes back ----------

  /**
   From any two drafts of a restaurant: one publisher checks that v is a draft, v and
   then u are published by others, and the first publisher goes on. In between v is
   archived, at the end it is published again.
   */
  lemma ArchivedMenuComesBack(w: World, restaurant: int, v: int, u: int)
    requires Safe(w) && 0 !in w.publishers && 1 !in w.publishers && 2 !in w.publishers && u != v
    requires v in w.menu.versions && w.menu.versions[v].restaurant == restaurant && w.menu.versions[v].status == DraftMenu
    requires u in w.menu.versions && w.menu.versions[u].restaurant == restaurant && w.menu.versions[u].status == DraftMenu
    ensures var overtake := [BeginPublish(0, restaurant, v)] + WholePublish(1, restaurant, v) + WholePublish(2, restaurant, u);
            var w1 := Run(w, overtake);
            var w2 := Run(w, overtake + [LookForCurrent(0), FinishPublish(0)]);
            && v in w1.menu.versions && w1.menu.versions[v].status == Archived
            && v in w2.menu.versions && w2.menu.versions[v].status == Published
  {
    var begin, first, second := [BeginPublish(0, restaurant, v)], WholePublish(1, restaurant, v), WholePublish(2, restaurant, u);
    var last := [LookForCurrent(0), FinishPublish(0)];
    RunOn(w, begin + first + second, last);
    RunOn(w, begin + first, second);
    RunOn(w, begin, first);
    RunKeeps(w, begin);
    RunKeeps(w, begin + first);
    RunKeeps(w, begin + first + second);
    Overtaking(Run(w, begin), restaurant, v, u);
    assert begin[1..] == [];
  }

  lemma Overtaking(w: World, restaurant: int, v: int, u: int)
    requires Safe(w) && 0 in w.publishers && w.publishers[0] == WillLook(restaurant, v) && 1 !in w.publishers && 2 !in w.publishers && u != v
    requires v in w.menu.versions && w.menu.versions[v].restaurant == restaurant && w.menu.versions[v].status == DraftMenu
    requires u in w.menu.versions && w.menu.versions[u].restaurant == restaurant && w.menu.versions[u].status == DraftMenu
    ensures var w1 := Run(Run(w, WholePublish(1, restaurant, v)), WholePublish(2, restaurant, u));
            var w2 := Run(w1, [LookForCurrent(0), FinishPublish(0)]);
            && v in w1.menu.versions && w1.menu.versions[v].status == Archived
            && v in w2.menu.versions && w2.menu.versions[v].status == Published
  {
    var m1 := PublishVersion(w.menu, restaurant, v);
    PublishAlone(w, 1, restaurant, v);
    PublishedNow(w.menu, restaurant, v);
    DraftPublished(w.menu, restaurant, v);
    var w1 := Run(w, WholePublish(1, restaurant, v));
    assert !PublishedOther(w.menu.versions, restaurant, v, u);
    PublishAlone(w1, 2, restaurant, u);
    PublishedNow(m1, restaurant, u);
    DraftPublished(m1, restaurant, u);
    assert PublishedOther(m1.versions, restaurant, u, v);
    var w2 := Run(w1, WholePublish(2, restaurant, u));
    LookAndPublish(w2, 0, restaurant, v);
    PublishedNow(w2.menu, restaurant, v);
  }

  const NewRestaurant: Menu := Menu(map[], 1, map[1 := Branch(1, true, false, None)], map[], 1, map[], 1, map[], 1, map[], 1, map[], map[], map[], {}, {}, {}, {})

  /** Two drafts of a new restaurant are enough: a reachable run in which an archived menu is published again. */
  lemma ArchivedMenuComesBackReached()
    ensures var overtake := [AddDraft(1), AddDraft(1)] + ([BeginPublish(0, 1, 1)] + WholePublish(1, 1, 1) + WholePublish(2, 1, 2));
            var w := World(NewRestaurant, map[]);
            && Safe(w) && AllPrompt(w)
            && 1 in Run(w, overtake).menu.versions && Run(w, overtake).menu.versions[1].status == Archived
            && 1 in Run(w, overtake + [LookForCurrent(0), FinishPublish(0)]).menu.versions
            && Run(w, overtake + [LookForCurrent(0), FinishPublish(0)]).menu.versions[1].status == Published
  {
    var w := World(NewRestaurant, map[]);
    var drafts := [AddDraft(1), AddDraft(1)];
    var overtake := [BeginPublish(0, 1, 1)] + WholePublish(1, 1, 1) + WholePublish(2, 1, 2);
    var last := [LookForCurrent(0), FinishPublish(0)];
    TwoDrafts();
    RunKeeps(w, drafts);
    RunOnBoth(w, drafts, overtake, last);
    ArchivedMenuComesBack(Run(w, drafts), 1, 1, 2);
  }

  lemma RunOnBoth(w: World, first: seq<Act>, second: seq<Act>, third: seq<Act>)
    ensures Run(w, first + second) == Run(Run(w, first), second)
    ensures Run(w, first + second + third) == Run(Run(w, first), second + third)
  {
    RunOn(w, first, second);
    RunOn(w, first, second + third);
    assert first + second + third == first + (second + third);
  }

  lemma TwoDrafts()
    ensures var w := Run(World(NewRestaurant, map[]), [AddDraft(1), AddDraft(1)]);
            && w.publishers == map[] && 1 in w.menu.versions && 2 in w.menu.versions
            && w.menu.versions[1].restaurant == 1 && w.menu.versions[1].status == DraftMenu
            && w.menu.versions[2].restaurant == 1 && w.menu.versions[2].status == DraftMenu
  {
    assert [AddDraft(1), AddDraft(1)][1..] == [AddDraft(1)] && [AddDraft(1)][1..] == [];
  }

  // ---------- a menu published meanwhile is replaced ----------

  lemma EmptyVersionShowsNothing(m: Menu, b: int, v: int, all: bool)
    requires ItemsOf(m, v) == {}
    ensures ShowVersion(m, b, v, all) == []
  {
    var ids := Ascending(ItemsOf(m, v), m.nextItem);
    AscendingBelow(ItemsOf(m, v), m.nextItem);
    IncreasingUnique(ids, []);
    SortMembers(ids, ItemOrder(m));
  }

  /** A seeded menu with a second, empty draft. */
  function RiceAndDraft(): World {
    Next(World(RiceMenu(true, {}), map[]), AddDraft(1))
  }

  ghost predicate HasRiceAndDraft(w: World) {
    && Safe(w) && w.publishers == map[] && HoldsRice(w.menu)
    && 1 in w.menu.branches && w.menu.branches[1] == Branch(1, true, false, Some(1))
    && w.menu.versions == map[1 := Version(1, 1, Published), 2 := Version(1, 2, DraftMenu)] && w.menu.nextVersion == 3
  }

  lemma RiceAndDraftHasThem()
    ensures HasRiceAndDraft(RiceAndDraft())
  {
    var m := RiceMenu(true, {});
    RiceSchema(true, {});
    StepKeeps(World(m, map[]), AddDraft(1));
    NextIsTwo(m);
  }

  lemma NextIsTwo(m: Menu)
    requires m.versions == map[1 := Version(1, 1, Published)] && m.nextVersion == 2
    ensures NextNumber(m, 1) == 2
  {
    assert HighestNumber(m.versions, 1, 1) == 0 by { assert HighestNumber(m.versions, 1, 0) == 0; }
  }

  lemma NumbersWithDraft(m: Menu)
    requires m.versions == map[1 := Version(1, 1, Published), 2 := Version(1, 2, DraftMenu)] && m.nextVersion == 3
    ensures CurrentVersion(m, 1) == Some(1) && NextNumber(m, 1) == 3
  {
    assert HighestNumber(m.versions, 1, 1) == 0 by { assert HighestNumber(m.versions, 1, 0) == 0; }
    assert HighestNumber(m.versions, 1, 2) == 1;
    assert PublishedBelow(m.versions, 1, -1, 1).None? by { assert PublishedBelow(m.versions, 1, -1, 0).None?; }
    assert PublishedBelow(m.versions, 1, -1, 2) == Some(1);
  }

  lemma CatalogReads(w: World)
    requires HasRiceAndDraft(w)
    ensures var w1 := Next(w, BeginCatalog(0, 1, RiceCatalog));
            w1 == Put(w, 0, WillClone(1, 1, 3, RiceCatalog)) && Safe(w1)
  {
    RiceIsCloned(w.menu);
    NumbersWithDraft(w.menu);
    BeginCatalogKeeps(w, 0, 1, RiceCatalog);
  }

  /** The catalog publisher has read the dish; then the empty draft is published. */
  lemma DraftPublishedMeanwhile(w: World, w1: World)
    requires HasRiceAndDraft(w) && w1 == Put(w, 0, WillClone(1, 1, 3, RiceCatalog)) && Safe(w1)
    ensures var w2 := Run(w1, WholePublish(1, 1, 2));
            && Safe(w2) && 0 in w2.publishers && w2.publishers[0] == w1.publishers[0] && HoldsRice(w2.menu)
            && 1 in w2.menu.branches && w2.menu.branches[1] == Branch(1, true, false, Some(2)) && ActiveVersion(w2.menu, 1) == Some(2)
            && w2.menu.versions == map[1 := Version(1, 1, Archived), 2 := Version(1, 2, Published)]
  {
    PublishAlone(w1, 1, 1, 2);
    DraftPublishedRows(w.menu);
    RunKeeps(w1, WholePublish(1, 1, 2));
  }

  lemma DraftPublishedRows(m: Menu)
    requires Schema(m) && 1 in m.branches && m.branches[1] == Branch(1, true, false, Some(1))
    requires m.versions == map[1 := Version(1, 1, Published), 2 := Version(1, 2, DraftMenu)]
    ensures var after := PublishVersion(m, 1, 2);
            && after == m.(versions := after.versions, branches := after.branches)
            && 1 in after.branches && after.branches[1] == Branch(1, true, false, Some(2)) && ActiveVersion(after, 1) == Some(2)
            && after.versions == map[1 := Version(1, 1, Archived), 2 := Version(1, 2, Published)]
  {
    PublishedNow(m, 1, 2);
    assert PublishedOther(m.versions, 1, 2, 1);
  }

  lemma RiceIsCommitted(w: World)
    requires 0 in w.publishers && w.publishers[0] == WillClone(1, 1, 3, RiceCatalog) && HoldsRice(w.menu)
    requires w.menu.versions == map[1 := Version(1, 1, Archived), 2 := Version(1, 2, Published)]
    ensures 0 in Next(w, FinishCatalog(0)).publishers && Next(w, FinishCatalog(0)).publishers[0].HasPublished?
  {
    RiceIsCloned(w.menu);
    assert !NumberTaken(w.menu, 1, 3);
    CloneCommits(w.menu, 1, 1, 3, RiceCatalog);
    Settles(w, 0, w.publishers[0]);
    SettledPublishes(w, 0, CommitClone(w.menu, 1, 1, 3, RiceCatalog), w.menu.nextVersion);
  }

  lemma CloneCommits(m: Menu, restaurant: int, source: int, number: int, catalog: Catalog)
    requires !NumberTaken(m, restaurant, number) && Refusal(m, source, catalog).None?
    ensures CommitClone(m, restaurant, source, number, catalog).Ok?
  {
    assert CloneDraft(m, restaurant, number, source, catalog).Ok?;
  }

  lemma Settles(w: World, pid: int, p: Publisher)
    requires pid in w.publishers && w.publishers[pid] == p && p.WillClone?
    ensures Next(w, FinishCatalog(pid))
         == Settle(w, pid, CommitClone(w.menu, p.restaurant, p.source, p.number, p.catalog), w.menu.nextVersion)
  {
  }

  lemma SettledPublishes(w: World, pid: int, r: Result<Menu, MenuError>, v: int)
    requires r.Ok?
    ensures pid in Settle(w, pid, r, v).publishers && Settle(w, pid, r, v).publishers[pid].HasPublished?
  {
  }

  /** The catalog publisher commits all the same: the branch that showed the new menu shows the old dish again. */
  lemma PublishedMenuIsReplaced(w: World)
    requires HasRiceAndDraft(w)
    ensures var w2 := Run(Next(w, BeginCatalog(0, 1, RiceCatalog)), WholePublish(1, 1, 2));
            var w3 := Next(w2, FinishCatalog(0));
            && View(w.menu, 1, true) != [] && View(w2.menu, 1, true) == [] && View(w3.menu, 1, true) == View(w.menu, 1, true)
  {
    var w1 := Next(w, BeginCatalog(0, 1, RiceCatalog));
    var w2 := Run(w1, WholePublish(1, 1, 2));
    CatalogReads(w);
    DraftPublishedMeanwhile(w, w1);
    RiceIsCommitted(w2);
    NumbersWithDraft(w.menu);
    DishIsShown(w.menu);
    DishIsNotShown(w2.menu);
    CatalogPublishesWhatItRead(w, 0, 1, RiceCatalog, WholePublish(1, 1, 2), 1, true);
  }

  lemma DishIsShown(m: Menu)
    requires Schema(m) && HoldsRice(m) && 1 in m.branches && m.branches[1] == Branch(1, true, false, Some(1))
    requires 1 in m.versions && m.versions[1] == Version(1, 1, Published)
    ensures View(m, 1, true) == ShowVersion(m, 1, 1, true) != []
  {
    OneDish(m);
    SchemaOwned(m);
    VersionShowsItems(m, 1, 1);
  }

  lemma DishIsNotShown(m: Menu)
    requires HoldsRice(m) && ActiveVersion(m, 1) == Some(2)
    ensures View(m, 1, true) == []
  {
    EmptyVersionShowsNothing(m, 1, 2, true);
  }

  /** A reachable run in which a menu published meanwhile is replaced by a copy of the older one. */
  lemma PublishedMenuIsReplacedReached()
    ensures var w := RiceAndDraft();
            var w2 := Run(Next(w, BeginCatalog(0, 1, RiceCatalog)), WholePublish(1, 1, 2));
            var w3 := Next(w2, FinishCatalog(0));
            && View(w.menu, 1, true) != [] && View(w2.menu, 1, true) == [] && View(w3.menu, 1, true) == View(w.menu, 1, true)
  {
    RiceAndDraftHasThem();
    PublishedMenuIsReplaced(RiceAndDraft());
  }
}
