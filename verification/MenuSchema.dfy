/** Cloning and publishing keep every key of the schema. */
module MenuSchema {
  import opened Wrappers
  import opened IdLists
  import opened MenuModel
  import opened MenuClone
  import opened MenuCopies
  import opened MenuIsomorphism
  import opened MenuPublishing

  // ---------- the clone ----------

  lemma CloneCategoryRefs(m: Menu, src: int, v: int, catalogVersion: string)
    requires CategoriesOwned(m) && Keys(m.items, m.nextItem)
    ensures var categories, items := NewCategories(m, src, v), NewItems(m, src, v, catalogVersion);
      && (forall c :: c in categories ==> categories[c].version == v || (c in m.categories && categories[c] == m.categories[c]))
      && (forall i :: i in items ==> items[i].version == v || (i in m.items && items[i] == m.items[i]))
      && (forall i :: i in items ==> items[i].category in categories && categories[items[i].category].version == items[i].version)
  {
    CopiesCategories(m, src, v);
    CopiesItems(m, src, v, catalogVersion);
    var categories, items := NewCategories(m, src, v), NewItems(m, src, v, catalogVersion);
    forall i | i in items
      ensures items[i].category in categories && categories[items[i].category].version == items[i].version
    {
      if i in m.items {
        assert items[i] == m.items[i];
      } else {
        var x :| x in ItemMap(m, src) && ItemMap(m, src)[x] == i;
        assert m.items[x].category in CategoriesOf(m, src);
      }
    }
  }

  lemma CloneDeclarationRefs(m: Menu, src: int, v: int, catalogVersion: string)
    requires DeclarationsOwned(m)
    ensures var items, table := NewItems(m, src, v, catalogVersion), NewDeclarations(m, src, v);
      forall i, a :: (i, a) in table ==> i in items && table[(i, a)].version == items[i].version
  {
    CopiesItems(m, src, v, catalogVersion);
    var items, table := NewItems(m, src, v, catalogVersion), NewDeclarations(m, src, v);
    forall i, a | (i, a) in table ensures i in items && table[(i, a)].version == items[i].version {
      DeclarationKeys(m, src, v, i, a);
      if i in m.items {
        OldDeclarations(m, src, v, i, a);
      } else {
        var x :| x in ItemMap(m, src) && ItemMap(m, src)[x] == i;
        DeclarationCopy(m, src, v, x, a);
      }
    }
  }

  lemma CloneLinkRefs(m: Menu, src: int, catalogVersion: string)
    requires LinksOwned(m)
    ensures var items, groups, table := NewItems(m, src, m.nextVersion, catalogVersion), NewGroups(m, src, m.nextVersion),
                                        NewLinks(m, src, m.nextVersion);
      forall i, g :: (i, g) in table ==> i in items && g in groups && table[(i, g)].version == items[i].version == groups[g].version
  {
    var v := m.nextVersion;
    CopiesItems(m, src, v, catalogVersion);
    CopiesGroups(m, src, v);
    var items, groups, table := NewItems(m, src, v, catalogVersion), NewGroups(m, src, v), NewLinks(m, src, v);
    forall i, g | (i, g) in table
      ensures i in items && g in groups && table[(i, g)].version == items[i].version == groups[g].version
    {
      LinkKeys(m, src, v, i, g);
      if (i, g) in m.links {
        OldLinks(m, src, i, g);
      } else {
        var x, h :| x in ItemMap(m, src) && ItemMap(m, src)[x] == i && h in GroupMap(m, src) && GroupMap(m, src)[h] == g;
        LinkCopy(m, src, v, x, h);
      }
    }
  }

  lemma CloneStockRefs(m: Menu, restaurant: int, src: int, v: int, catalogVersion: string)
    requires StockOwned(m)
    ensures var items, table := NewItems(m, src, v, catalogVersion), NewStock(m, restaurant, src, v);
      forall b, i :: (b, i) in table ==>
        i in items && table[(b, i)].version == items[i].version
        && ((b, i) in m.stock || (items[i].version == v && b in m.branches && m.branches[b].restaurant == restaurant))
  {
    ItemsElsewhere(m, src, v, catalogVersion);
    NewIds(m, src, v, catalogVersion);
    var items, table := NewItems(m, src, v, catalogVersion), NewStock(m, restaurant, src, v);
    forall b, i | (b, i) in table
      ensures i in items && table[(b, i)].version == items[i].version
      ensures (b, i) in m.stock || (items[i].version == v && b in m.branches && m.branches[b].restaurant == restaurant)
    {
      StockKeys(m, restaurant, src, v, b, i);
    }
  }

  lemma CloneChoiceRefs(m: Menu, m': Menu, src: int)
    requires ChoicesOwned(m) && VersionsBelow(m, m.nextVersion)
    requires m'.groups == NewGroups(m, src, m.nextVersion) && m'.choices == NewChoices(m, src)
    ensures forall o :: o in m'.choices ==> m'.choices[o].group in m'.groups
    ensures forall g :: g in m'.groups ==> m'.groups[g].version == m.nextVersion || (g in m.groups && m'.groups[g] == m.groups[g])
  {
    ChoicesElsewhere(m, m', src);
    GroupsElsewhere(m, src, m.nextVersion);
    assert forall o :: o in m.choices ==> m'.choices[o] == m.choices[o];
  }

  lemma CloneCodes(m: Menu, src: int, catalogVersion: string)
    requires Keys(m.items, m.nextItem) && CodesUnique(m.items) && VersionsBelow(m, m.nextVersion)
    ensures CodesUnique(NewItems(m, src, m.nextVersion, catalogVersion))
  {
    var v := m.nextVersion;
    CopiesItems(m, src, v, catalogVersion);
    var items, r := NewItems(m, src, v, catalogVersion), ItemMap(m, src);
    forall i, j | i in items && j in items && items[i].version == items[j].version && items[i].code == items[j].code ensures i == j {
      if i !in m.items && j !in m.items {
        var x :| x in r && r[x] == i;
        var y :| y in r && r[y] == j;
        assert m.items[x].version == m.items[y].version && m.items[x].code == m.items[y].code;
      } else {
        ItemsElsewhere(m, src, v, catalogVersion);
      }
    }
  }

  lemma CloneCategoryCodes(m: Menu, src: int)
    requires Keys(m.categories, m.nextCategory) && CategoryCodesUnique(m.categories) && VersionsKnown(m) && Keys(m.versions, m.nextVersion)
    ensures CategoryCodesUnique(NewCategories(m, src, m.nextVersion))
  {
    CopiesCategories(m, src, m.nextVersion);
    var table, r := NewCategories(m, src, m.nextVersion), CategoryMap(m, src);
    forall i | i in table && i !in m.categories ensures exists x :: x in r && r[x] == i && table[i] == m.categories[x].(version := m.nextVersion) {
      var x :| x in r && r[x] == i;
    }
    forall i, j | i in table && j in table && table[i].version == table[j].version && table[i].code == table[j].code ensures i == j {
      assert i in m.categories <==> j in m.categories;
      if i !in m.categories {
        var x :| x in r && r[x] == i;
        var y :| y in r && r[y] == j;
        assert m.categories[x].version == m.categories[y].version && m.categories[x].code == m.categories[y].code;
      }
    }
  }

  lemma CloneGroupCodes(m: Menu, src: int)
    requires Keys(m.groups, m.nextGroup) && GroupCodesUnique(m.groups) && VersionsBelow(m, m.nextVersion)
    ensures GroupCodesUnique(NewGroups(m, src, m.nextVersion))
  {
    CopiesGroups(m, src, m.nextVersion);
    GroupsElsewhere(m, src, m.nextVersion);
    var table, r := NewGroups(m, src, m.nextVersion), GroupMap(m, src);
    forall i, j | i in table && j in table && table[i].version == table[j].version && table[i].code == table[j].code ensures i == j {
      assert i in m.groups <==> j in m.groups;
      if i !in m.groups {
        var x :| x in r && r[x] == i;
        var y :| y in r && r[y] == j;
        assert m.groups[x].version == m.groups[y].version && m.groups[x].code == m.groups[y].code;
      }
    }
  }

  /** Copied options keep their codes, and their groups are copied to different groups. */
  lemma CloneChoiceCodes(m: Menu, m': Menu, src: int)
    requires ChoicesOwned(m) && ChoiceCodesUnique(m.choices) && VersionsBelow(m, m.nextVersion)
    requires m'.groups == NewGroups(m, src, m.nextVersion) && m'.choices == NewChoices(m, src)
    ensures ChoiceCodesUnique(m'.choices)
  {
    CopiesChoices(m, src);
    CopiesGroups(m, src, m.nextVersion);
    ChoicesElsewhere(m, m', src);
    var table, r, groups := m'.choices, ChoiceMap(m, src), GroupMap(m, src);
    forall i, j | i in table && j in table && table[i].group == table[j].group && table[i].code == table[j].code ensures i == j {
      assert i in m.choices <==> j in m.choices;
      if i !in m.choices {
        var x :| x in r && r[x] == i;
        var y :| y in r && r[y] == j;
        assert m.choices[x].group in groups && m.choices[y].group in groups;
        assert groups[m.choices[x].group] == groups[m.choices[y].group];
        assert m.choices[x].group == m.choices[y].group && m.choices[x].code == m.choices[y].code;
      }
    }
  }

  lemma CloneTexts(m: Menu, src: int, v: int, catalog: Catalog)
    requires TextsOwned(m) && Keys(m.items, m.nextItem) && Keys(m.groups, m.nextGroup) && Keys(m.choices, m.nextChoice)
    ensures forall t :: t in NewItemTexts(m, src, catalog) ==> t.owner in NewItems(m, src, v, catalog.version)
    ensures forall t :: t in NewGroupTexts(m, src) ==> t.owner in NewGroups(m, src, v)
    ensures forall t :: t in NewChoiceTexts(m, src, catalog) ==> t.owner in NewChoices(m, src)
  {
    NewIds(m, src, v, catalog.version);
    CopiesChoices(m, src);
    ItemsElsewhere(m, src, v, catalog.version);
    GroupsElsewhere(m, src, v);
  }

  lemma CopiedAliases(m: Menu, src: int, v: int, catalog: Catalog, a: Alias)
    requires a in NewAliases(m, src, v, catalog) && a !in m.aliases
    ensures forall i :: 0 <= i < |ItemList(m, src)| ==> ItemList(m, src)[i] in m.items
    ensures a in AliasCopies(m, ItemList(m, src), m.nextItem, v, catalog)
    ensures m.nextItem <= a.item < m.nextItem + |ItemList(m, src)| && a.version == v
  {
    ListsInTables(m, src);
  }

  lemma CloneAliases(m: Menu, src: int, catalog: Catalog)
    requires AliasesOwned(m) && Keys(m.items, m.nextItem) && VersionsBelow(m, m.nextVersion)
    requires AliasesUnique(m.aliases) && Refusal(m, src, catalog).None?
    ensures AliasesUnique(NewAliases(m, src, m.nextVersion, catalog))
    ensures forall a :: a in NewAliases(m, src, m.nextVersion, catalog) ==>
              a.item in NewItems(m, src, m.nextVersion, catalog.version)
              && a.version == NewItems(m, src, m.nextVersion, catalog.version)[a.item].version
  {
    var v := m.nextVersion;
    ListsInTables(m, src);
    NewIds(m, src, v, catalog.version);
    ItemsElsewhere(m, src, v, catalog.version);
    var all := NewAliases(m, src, v, catalog);
    forall a | a in all && a !in m.aliases ensures a.item in NewItems(m, src, v, catalog.version) && a.version == v {
      CopiedAliases(m, src, v, catalog, a);
    }
    forall a, b | a in all && b in all && a.version == b.version && a.locale == b.locale && a.normalized == b.normalized
      ensures a.item == b.item
    {
      assert a in m.aliases <==> b in m.aliases;
      if a !in m.aliases {
        CopiedAliases(m, src, v, catalog, a);
        CopiedAliases(m, src, v, catalog, b);
      }
    }
  }

  // ---------- version numbers ----------

  ghost predicate NumberOf(versions: map<int, Version>, restaurant: int, number: int) {
    exists v :: v in versions && versions[v].restaurant == restaurant && versions[v].number == number
  }

  lemma {:induction false} HighestNumberIsAbove(versions: map<int, Version>, restaurant: int, bound: int)
    ensures HighestNumber(versions, restaurant, bound) >= 0
    ensures HighestNumber(versions, restaurant, bound) > 0 ==> NumberOf(versions, restaurant, HighestNumber(versions, restaurant, bound))
    ensures forall v :: 0 <= v < bound && v in versions && versions[v].restaurant == restaurant ==>
              versions[v].number <= HighestNumber(versions, restaurant, bound)
    decreases bound
  {
    if bound > 0 { HighestNumberIsAbove(versions, restaurant, bound - 1); }
  }

  /** The next number is above all numbers of the restaurant and one more than one of them, or 1. */
  lemma NextNumberIsFree(m: Menu, restaurant: int)
    requires Keys(m.versions, m.nextVersion)
    ensures NextNumber(m, restaurant) > 0
    ensures forall v :: v in m.versions && m.versions[v].restaurant == restaurant ==> m.versions[v].number < NextNumber(m, restaurant)
    ensures NextNumber(m, restaurant) == 1 || NumberOf(m.versions, restaurant, NextNumber(m, restaurant) - 1)
  {
    HighestNumberIsAbove(m.versions, restaurant, m.nextVersion);
  }

  // ---------- the whole schema ----------

  lemma CloneVersions(m: Menu, restaurant: int, number: int)
    requires Keys(m.versions, m.nextVersion) && OnePublished(m.versions) && Numbered(m.versions)
    requires forall v :: v in m.versions && m.versions[v].restaurant == restaurant ==> m.versions[v].number != number
    ensures var versions := m.versions[m.nextVersion := Version(restaurant, number, DraftMenu)];
      Keys(versions, m.nextVersion + 1) && OnePublished(versions) && Numbered(versions)
  {
  }

  lemma CloneVersionsKnown(m: Menu, restaurant: int, number: int, src: int, catalog: Catalog)
    requires Schema(m)
    ensures VersionsKnown(Cloned(m, restaurant, number, src, catalog))
  {
    CloneCategoryRefs(m, src, m.nextVersion, catalog.version);
    GroupsElsewhere(m, src, m.nextVersion);
  }

  lemma CloneBranches(m: Menu, m': Menu, restaurant: int, number: int)
    requires BranchesOwned(m) && Keys(m.versions, m.nextVersion)
    requires m'.branches == m.branches && m'.versions == m.versions[m.nextVersion := Version(restaurant, number, DraftMenu)]
    ensures BranchesOwned(m')
  {
  }

  lemma CloneStockTenants(m: Menu, m': Menu, restaurant: int, number: int, src: int, catalogVersion: string)
    requires StockOwned(m) && StockTenants(m) && Keys(m.versions, m.nextVersion)
    requires m'.branches == m.branches && m'.versions == m.versions[m.nextVersion := Version(restaurant, number, DraftMenu)]
    requires m'.items == NewItems(m, src, m.nextVersion, catalogVersion) && m'.stock == NewStock(m, restaurant, src, m.nextVersion)
    ensures StockTenants(m')
  {
    CloneStockRefs(m, restaurant, src, m.nextVersion, catalogVersion);
    ItemsElsewhere(m, src, m.nextVersion, catalogVersion);
    forall b, i | (b, i) in m'.stock
      ensures b in m'.branches && i in m'.items && m'.items[i].version in m'.versions
              && m'.versions[m'.items[i].version].restaurant == m'.branches[b].restaurant
    {
      if (b, i) in m.stock { assert m'.items[i] == m.items[i]; }
    }
  }

  lemma CloneStockOwned(m: Menu, m': Menu, restaurant: int, src: int, catalogVersion: string)
    requires StockOwned(m) && m'.nextItem == m.nextItem + |ItemList(m, src)|
    requires m'.items == NewItems(m, src, m.nextVersion, catalogVersion) && m'.stock == NewStock(m, restaurant, src, m.nextVersion)
    ensures StockOwned(m')
  {
    CloneStockRefs(m, restaurant, src, m.nextVersion, catalogVersion);
    CopiesItems(m, src, m.nextVersion, catalogVersion);
  }

  lemma CloneOwned(m: Menu, restaurant: int, number: int, src: int, catalog: Catalog)
    requires Owned(m)
    ensures var m' := Cloned(m, restaurant, number, src, catalog);
      CategoriesOwned(m') && ChoicesOwned(m') && DeclarationsOwned(m') && LinksOwned(m')
  {
    var v := m.nextVersion;
    var m' := Cloned(m, restaurant, number, src, catalog);
    CopiesCategories(m, src, v);
    CloneCategoryRefs(m, src, v, catalog.version);
    assert Counted(m') by { CloneCounted(m, m', src, catalog.version); }
    CloneChoiceRefs(m, m', src);
    CloneDeclarationRefs(m, src, v, catalog.version);
    CloneLinkRefs(m, src, catalog.version);
  }

  /** The cloned draft satisfies every key. */
  lemma CloneKeepsSchema(m: Menu, restaurant: int, number: int, src: int, catalog: Catalog)
    requires Schema(m) && Refusal(m, src, catalog).None?
    requires forall v :: v in m.versions && m.versions[v].restaurant == restaurant ==> m.versions[v].number != number
    ensures Schema(Cloned(m, restaurant, number, src, catalog))
  {
    SchemaOwned(m);
    CloneVersions(m, restaurant, number);
    CloneVersionsKnown(m, restaurant, number, src, catalog);
    CloneOwned(m, restaurant, number, src, catalog);
    var m' := Cloned(m, restaurant, number, src, catalog);
    CloneStockTenants(m, m', restaurant, number, src, catalog.version);
    CloneStockOwned(m, m', restaurant, src, catalog.version);
    CloneTexts(m, src, m.nextVersion, catalog);
    CloneAliases(m, src, catalog);
    CloneBranches(m, m', restaurant, number);
    CloneCodes(m, src, catalog.version);
    CloneCategoryCodes(m, src);
    CloneGroupCodes(m, src);
    CloneChoiceCodes(m, m', src);
  }

  /** Swapping the published version keeps every key, when the archived one is the only one in the way. */
  lemma SwapKeepsSchema(m: Menu, restaurant: int, current: Option<int>, v: int)
    requires Schema(m) && v in m.versions && m.versions[v].restaurant == restaurant
    requires current.Some? ==> current.value != v
    requires forall w :: PublishedOther(m.versions, restaurant, v, w) ==> current == Some(w)
    ensures Schema(Swap(m, restaurant, current, v))
  {
    SwapOnePublished(m.versions, restaurant, current, v);
  }

  lemma SwapOnePublished(versions: map<int, Version>, restaurant: int, current: Option<int>, v: int)
    requires OnePublished(versions) && v in versions && versions[v].restaurant == restaurant
    requires forall w :: PublishedOther(versions, restaurant, v, w) ==> current == Some(w)
    ensures OnePublished(SetStatus(if current.Some? then SetStatus(versions, current.value, Archived) else versions, v, Published))
  {
    var after := SetStatus(if current.Some? then SetStatus(versions, current.value, Archived) else versions, v, Published);
    forall x, y | x in after && y in after && after[x].status == Published && after[y].status == Published
                  && after[x].restaurant == after[y].restaurant
      ensures x == y
    {
      assert x != v && after[x].restaurant == restaurant ==> !PublishedOther(versions, restaurant, v, x) || x == v;
      assert y != v && after[y].restaurant == restaurant ==> !PublishedOther(versions, restaurant, v, y) || y == v;
    }
  }
}
