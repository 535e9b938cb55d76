/** Publishing a cloned catalog: which branches see the same menu, and when a second publish changes nothing. */
module MenuPublishing {
  import opened Wrappers
  import opened IdLists
  import opened MenuModel
  import opened MenuClone
  import opened MenuCopies
  import opened MenuIsomorphism

  // ---------- finding the published version ----------

  predicate PublishedOther(versions: map<int, Version>, restaurant: int, other: int, v: int) {
    v in versions && v != other && versions[v].restaurant == restaurant && versions[v].status == Published
  }

  lemma {:induction false} PublishedBelowFinds(versions: map<int, Version>, restaurant: int, other: int, bound: int)
    ensures var f := PublishedBelow(versions, restaurant, other, bound);
      && (f.Some? ==> 0 <= f.value < bound && PublishedOther(versions, restaurant, other, f.value))
      && (f.None? ==> forall v :: 0 <= v < bound ==> !PublishedOther(versions, restaurant, other, v))
    decreases bound
  {
    if bound > 0 { PublishedBelowFinds(versions, restaurant, other, bound - 1); }
  }

  /** With one published version per restaurant, the search finds exactly it. */
  lemma FindsTheOne(versions: map<int, Version>, next: int, restaurant: int, other: int, v: int)
    requires Keys(versions, next) && OnePublished(versions) && PublishedOther(versions, restaurant, other, v)
    ensures PublishedBelow(versions, restaurant, other, next) == Some(v)
  {
    PublishedBelowFinds(versions, restaurant, other, next);
  }

  // ---------- views across a publish ----------

  ghost predicate PublishedAs(m: Menu, m': Menu, restaurant: int, number: int, src: int, catalog: Catalog) {
    m' == Swap(Cloned(m, restaurant, number, src, catalog), restaurant, Some(src), m.nextVersion)
  }

  lemma PublishedIsClone(m: Menu, m': Menu, restaurant: int, number: int, src: int, catalog: Catalog)
    requires PublishedAs(m, m', restaurant, number, src, catalog)
    ensures IsClone(m, m', src, catalog.version)
    ensures m'.stock == NewStock(m, restaurant, src, m.nextVersion)
    ensures m'.branches == Activate(m.branches, restaurant, m.nextVersion)
    ensures m'.versions == SwappedVersions(m, restaurant, number, src)
  {
  }

  function SwappedVersions(m: Menu, restaurant: int, number: int, src: int): map<int, Version> {
    SetStatus(SetStatus(m.versions[m.nextVersion := Version(restaurant, number, DraftMenu)], src, Archived), m.nextVersion, Published)
  }

  lemma StockForCopies(m: Menu, m': Menu, restaurant: int, src: int, b: int)
    requires StockOwned(m) && m'.stock == NewStock(m, restaurant, src, m.nextVersion)
    requires b in m.branches && m.branches[b].restaurant == restaurant && !m.branches[b].deleted
    ensures SameStock(m, m', b, ItemMap(m, src))
  {
    Numbers(ItemsOf(m, src), m.nextItem);
    forall x | x in ItemMap(m, src)
      ensures ((b, x) in m.stock ==> m.stock[(b, x)].available)
           == ((b, ItemMap(m, src)[x]) in m'.stock ==> m'.stock[(b, ItemMap(m, src)[x])].available)
    {
      StockCopied(m, restaurant, src, m.nextVersion, b, x);
    }
  }

  lemma StockRetained(m: Menu, m': Menu, restaurant: int, src: int, b: int, w: int)
    requires StockOwned(m) && m'.stock == NewStock(m, restaurant, src, m.nextVersion)
    ensures SameStock(m, m', b, Itself(ItemsOf(m, w)))
  {
  }

  lemma CopyView(m: Menu, m': Menu, restaurant: int, src: int, catalogVersion: string, b: int, all: bool)
    requires Owned(m) && Counted(m) && IsClone(m, m', src, catalogVersion) && m'.stock == NewStock(m, restaurant, src, m.nextVersion)
    requires b in m.branches && m.branches[b].restaurant == restaurant && !m.branches[b].deleted
    ensures ShowVersion(m', b, m.nextVersion, all) == ShowVersion(m, b, src, all)
  {
    CloneCounted(m, m', src, catalogVersion);
    CloneIsomorphic(m, m', src, catalogVersion);
    StockForCopies(m, m', restaurant, src, b);
    VersionsShownAlike(m, src, m', m.nextVersion, CloneRenaming(m, src), b, all);
  }

  lemma RetainedView(m: Menu, m': Menu, restaurant: int, src: int, catalogVersion: string, w: int, b: int, all: bool)
    requires Owned(m) && Counted(m) && IsClone(m, m', src, catalogVersion) && m'.stock == NewStock(m, restaurant, src, m.nextVersion)
    requires w != m.nextVersion
    ensures ShowVersion(m', b, w, all) == ShowVersion(m, b, w, all)
  {
    CloneCounted(m, m', src, catalogVersion);
    CloneRetains(m, m', src, catalogVersion, w);
    RetainedIsomorphic(m, m', w);
    StockRetained(m, m', restaurant, src, b, w);
    VersionsShownAlike(m, w, m', w, Identity(m, w), b, all);
  }

  /** Which version each branch serves after the swap. */
  lemma ActiveAfter(m: Menu, m': Menu, restaurant: int, number: int, src: int, b: int)
    requires m'.branches == Activate(m.branches, restaurant, m.nextVersion)
    requires m'.versions == SwappedVersions(m, restaurant, number, src)
    requires Keys(m.versions, m.nextVersion) && OnePublished(m.versions)
    requires src in m.versions && m.versions[src].restaurant == restaurant && m.versions[src].status == Published
    requires b in m.branches && (m.branches[b].menu.Some? ==> m.branches[b].menu.value in m.versions)
    ensures ActiveVersion(m', b) ==
            if m.branches[b].restaurant != restaurant then ActiveVersion(m, b)
            else if Live(m.branches[b]) then Some(m.nextVersion)
            else None
  {
  }

  /** A live branch that served the copied version serves its copy, and cannot tell. */
  lemma LiveBranchView(m: Menu, m': Menu, restaurant: int, number: int, src: int, catalog: Catalog, b: int, all: bool)
    requires Schema(m) && PublishedAs(m, m', restaurant, number, src, catalog)
    requires src in m.versions && m.versions[src].restaurant == restaurant && m.versions[src].status == Published
    requires b in m.branches && m.branches[b].restaurant == restaurant && Live(m.branches[b])
    ensures View(m', b, all) == ShowVersion(m, b, src, all)
  {
    SchemaOwned(m);
    PublishedIsClone(m, m', restaurant, number, src, catalog);
    ActiveAfter(m, m', restaurant, number, src, b);
    CopyView(m, m', restaurant, src, catalog.version, b, all);
  }

  lemma SameVersionView(m: Menu, m': Menu, restaurant: int, src: int, catalogVersion: string, b: int, all: bool)
    requires Owned(m) && Counted(m) && IsClone(m, m', src, catalogVersion) && m'.stock == NewStock(m, restaurant, src, m.nextVersion)
    requires ActiveVersion(m', b) == ActiveVersion(m, b) && Keys(m.versions, m.nextVersion)
    ensures View(m', b, all) == View(m, b, all)
  {
    if ActiveVersion(m, b).Some? {
      RetainedView(m, m', restaurant, src, catalogVersion, ActiveVersion(m, b).value, b, all);
    }
  }

  /** A branch of another restaurant is not touched. */
  lemma OtherRestaurantView(m: Menu, m': Menu, restaurant: int, number: int, src: int, catalog: Catalog, b: int, all: bool)
    requires Schema(m) && PublishedAs(m, m', restaurant, number, src, catalog)
    requires src in m.versions && m.versions[src].restaurant == restaurant && m.versions[src].status == Published
    requires b in m.branches && m.branches[b].restaurant != restaurant
    ensures View(m', b, all) == View(m, b, all)
  {
    SchemaOwned(m);
    PublishedIsClone(m, m', restaurant, number, src, catalog);
    ActiveAfter(m, m', restaurant, number, src, b);
    SameVersionView(m, m', restaurant, src, catalog.version, b, all);
  }

  // ---------- the whole call ----------

  /** A call that publishes a clone swaps it for the one published version. */
  lemma PublishesClone(m: Menu, restaurant: int, catalog: Catalog)
    requires Keys(m.versions, m.nextVersion) && OnePublished(m.versions)
    requires PublishCatalog(m, restaurant, catalog).result.Ok?
    ensures CurrentVersion(m, restaurant).Some? && PublishedOther(m.versions, restaurant, -1, CurrentVersion(m, restaurant).value)
    ensures var o := PublishCatalog(m, restaurant, catalog);
      if o.result.value.replayed then o.menu == m
      else PublishedAs(m, o.menu, restaurant, NextNumber(m, restaurant), CurrentVersion(m, restaurant).value, catalog)
  {
    PublishedBelowFinds(m.versions, restaurant, -1, m.nextVersion);
    var src := CurrentVersion(m, restaurant).value;
    if Complete(m, src, catalog.version) {
      assert PublishCatalog(m, restaurant, catalog) == MenuOutcome(m, Ok(PublishedCatalog(src, true)));
    } else {
      var number := NextNumber(m, restaurant);
      var cloned := Cloned(m, restaurant, number, src, catalog);
      assert CloneDraft(m, restaurant, number, src, catalog) == Ok(cloned);
      assert PublishCatalog(m, restaurant, catalog)
          == MenuOutcome(PublishVersion(cloned, restaurant, m.nextVersion), Ok(PublishedCatalog(m.nextVersion, false)));
      SwapsCurrent(m, restaurant, number, src, catalog);
    }
  }

  /** A call finds its work done exactly when the published menu is complete for the catalog. */
  lemma ReplayedIff(m: Menu, restaurant: int, catalog: Catalog)
    requires PublishCatalog(m, restaurant, catalog).result.Ok?
    ensures CurrentVersion(m, restaurant).Some?
    ensures PublishCatalog(m, restaurant, catalog).result.value.replayed <==> Complete(m, CurrentVersion(m, restaurant).value, catalog.version)
  {
  }

  lemma SwapsCurrent(m: Menu, restaurant: int, number: int, src: int, catalog: Catalog)
    requires Keys(m.versions, m.nextVersion) && OnePublished(m.versions) && PublishedOther(m.versions, restaurant, -1, src)
    ensures PublishedAs(m, PublishVersion(Cloned(m, restaurant, number, src, catalog), restaurant, m.nextVersion),
                        restaurant, number, src, catalog)
  {
    var cloned := Cloned(m, restaurant, number, src, catalog);
    DraftAdded(m, restaurant, number);
    FindsTheOne(cloned.versions, cloned.nextVersion, restaurant, m.nextVersion, src);
  }

  lemma DraftAdded(m: Menu, restaurant: int, number: int)
    requires Keys(m.versions, m.nextVersion) && OnePublished(m.versions)
    ensures Keys(m.versions[m.nextVersion := Version(restaurant, number, DraftMenu)], m.nextVersion + 1)
    ensures OnePublished(m.versions[m.nextVersion := Version(restaurant, number, DraftMenu)])
  {
  }

  lemma {:induction false} FlatMapSome<T>(s: seq<int>, f: int -> seq<T>, x: int)
    requires x in s && f(x) != []
    ensures FlatMap(s, f) != []
  {
    if s[0] != x { FlatMapSome(s[1..], f, x); }
  }

  lemma VersionShowsItems(m: Menu, b: int, v: int)
    requires Counted(m)
    ensures ItemsOf(m, v) != {} ==> ShowVersion(m, b, v, true) != []
  {
    if ItemsOf(m, v) != {} {
      var i := SomeMember(ItemsOf(m, v));
      AscendingLists(ItemsOf(m, v), m.nextItem);
      SortMembers(Ascending(ItemsOf(m, v), m.nextItem), ItemOrder(m));
      FlatMapSome(ListedItems(m, v), i => ShowIfOffered(m, b, i, true), i);
    }
  }

  /**
   Publishing a catalog keeps what every branch sees that served the copied menu and
   is live, and what every branch of another restaurant sees.
   */
  lemma PublishCatalogKeepsViews(m: Menu, restaurant: int, catalog: Catalog, b: int, all: bool)
    requires Schema(m) && b in m.branches && PublishCatalog(m, restaurant, catalog).result.Ok?
    requires m.branches[b].restaurant == restaurant ==> Live(m.branches[b]) && m.branches[b].menu == CurrentVersion(m, restaurant)
    ensures View(PublishCatalog(m, restaurant, catalog).menu, b, all) == View(m, b, all)
  {
    PublishesClone(m, restaurant, catalog);
    var o := PublishCatalog(m, restaurant, catalog);
    var src := CurrentVersion(m, restaurant).value;
    if !o.result.value.replayed {
      if m.branches[b].restaurant == restaurant {
        LiveBranchView(m, o.menu, restaurant, NextNumber(m, restaurant), src, catalog, b, all);
      } else {
        OtherRestaurantView(m, o.menu, restaurant, NextNumber(m, restaurant), src, catalog, b, all);
      }
    }
  }

  /**
   The exact condition for a branch of the restaurant: when a clone of a non-empty menu
   is published, the branch sees the same rows if and only if being live and having
   served the copied version agree. An inactive branch loses the menu it served.
   */
  lemma PublishCatalogViewIff(m: Menu, restaurant: int, catalog: Catalog, b: int)
    requires Schema(m) && b in m.branches && m.branches[b].restaurant == restaurant
    requires PublishCatalog(m, restaurant, catalog).result.Ok? && !Complete(m, CurrentVersion(m, restaurant).value, catalog.version)
    requires ItemsOf(m, CurrentVersion(m, restaurant).value) != {}
    ensures View(PublishCatalog(m, restaurant, catalog).menu, b, true) == View(m, b, true)
       <==> (Live(m.branches[b]) <==> m.branches[b].menu == CurrentVersion(m, restaurant))
  {
    PublishesClone(m, restaurant, catalog);
    ReplayedIff(m, restaurant, catalog);
    var m' := PublishCatalog(m, restaurant, catalog).menu;
    var number := NextNumber(m, restaurant);
    var src := CurrentVersion(m, restaurant).value;
    SchemaOwned(m);
    VersionShowsItems(m, b, src);
    PublishedIsClone(m, m', restaurant, number, src, catalog);
    ActiveAfter(m, m', restaurant, number, src, b);
    assert ActiveVersion(m, b) == if m.branches[b].menu == Some(src) then Some(src) else None;
    if Live(m.branches[b]) { LiveBranchView(m, m', restaurant, number, src, catalog, b, true); }
  }
}
