/** The clone of a version is isomorphic to it, and versions cloned past keep their own shape. */
module MenuIsomorphism {
  import opened Wrappers
  import opened IdLists
  import opened MenuModel
  import opened MenuClone
  import opened MenuCopies

  ghost predicate VersionsBelow(m: Menu, v: int) {
    && (forall c :: c in m.categories ==> m.categories[c].version != v)
    && (forall i :: i in m.items ==> m.items[i].version != v)
    && (forall g :: g in m.groups ==> m.groups[g].version != v)
  }

  /** The part of the schema the copy relies on. */
  ghost predicate Owned(m: Menu) {
    && CategoriesOwned(m) && ChoicesOwned(m) && DeclarationsOwned(m) && LinksOwned(m) && StockOwned(m)
    && VersionsBelow(m, m.nextVersion)
  }

  lemma SchemaOwned(m: Menu)
    requires Schema(m)
    ensures Owned(m) && Counted(m)
  {
  }

  ghost predicate IsClone(m: Menu, m': Menu, src: int, catalogVersion: string) {
    && m'.categories == NewCategories(m, src, m.nextVersion)
    && m'.items == NewItems(m, src, m.nextVersion, catalogVersion) && m'.nextItem == m.nextItem + |ItemList(m, src)|
    && m'.groups == NewGroups(m, src, m.nextVersion) && m'.nextGroup == m.nextGroup + |GroupList(m, src)|
    && m'.choices == NewChoices(m, src) && m'.nextChoice == m.nextChoice + |ChoiceList(m, src)|
    && m'.declarations == NewDeclarations(m, src, m.nextVersion) && m'.links == NewLinks(m, src, m.nextVersion)
  }

  lemma CloneCounted(m: Menu, m': Menu, src: int, catalogVersion: string)
    requires Counted(m) && IsClone(m, m', src, catalogVersion)
    ensures Counted(m')
  {
    assert Keys(m'.items, m'.nextItem) by { CopiesItems(m, src, m.nextVersion, catalogVersion); }
    assert Keys(m'.groups, m'.nextGroup) by { CopiesGroups(m, src, m.nextVersion); }
    assert Keys(m'.choices, m'.nextChoice) by { CopiesChoices(m, src); }
  }

  lemma ItemsRenamed(m: Menu, m': Menu, src: int, catalogVersion: string)
    requires Keys(m.items, m.nextItem) && VersionsBelow(m, m.nextVersion)
    requires m'.items == NewItems(m, src, m.nextVersion, catalogVersion)
    ensures Renames(ItemMap(m, src), ItemsOf(m, src), ItemsOf(m', m.nextVersion))
  {
    CopiesItems(m, src, m.nextVersion, catalogVersion);
  }

  lemma GroupsRenamed(m: Menu, m': Menu, src: int)
    requires Keys(m.groups, m.nextGroup) && VersionsBelow(m, m.nextVersion)
    requires m'.groups == NewGroups(m, src, m.nextVersion)
    ensures Renames(GroupMap(m, src), GroupsOf(m, src), GroupsOf(m', m.nextVersion))
  {
    CopiesGroups(m, src, m.nextVersion);
  }

  /** The copied group of an option's group, and back. */
  lemma ChoiceGroups(m: Menu, m': Menu, src: int, o: int)
    requires ChoicesOwned(m) && VersionsBelow(m, m.nextVersion)
    requires m'.groups == NewGroups(m, src, m.nextVersion) && m'.choices == NewChoices(m, src)
    requires o in ChoicesOf(m, src)
    ensures o in ChoiceMap(m, src) && SameChoice(m, o, m', ChoiceMap(m, src)[o])
    ensures m.choices[o].group in GroupMap(m, src)
    ensures m'.choices[ChoiceMap(m, src)[o]].group == GroupMap(m, src)[m.choices[o].group]
  {
    CopiesChoices(m, src);
    CopiesGroups(m, src, m.nextVersion);
    ChoiceRow(m, src, o);
  }

  lemma ChoicesRenamed(m: Menu, m': Menu, src: int)
    requires ChoicesOwned(m) && VersionsBelow(m, m.nextVersion)
    requires m'.groups == NewGroups(m, src, m.nextVersion) && m'.choices == NewChoices(m, src)
    ensures Renames(ChoiceMap(m, src), ChoicesOf(m, src), ChoicesOf(m', m.nextVersion))
  {
    CopiesChoices(m, src);
    GroupsRenamed(m, m', src);
    CopiesGroups(m, src, m.nextVersion);
    var r := ChoiceMap(m, src);
    forall o | o in ChoicesOf(m, src) ensures r[o] in ChoicesOf(m', m.nextVersion) {
      ChoiceGroups(m, m', src, o);
    }
    forall y | y in ChoicesOf(m', m.nextVersion) ensures exists o :: o in ChoicesOf(m, src) && r[o] == y {
      assert y !in m.choices;
    }
  }

  lemma ItemCopySame(m: Menu, m': Menu, src: int, catalogVersion: string, x: int)
    requires CategoriesOwned(m) && Keys(m.items, m.nextItem) && x in ItemsOf(m, src)
    requires m'.categories == NewCategories(m, src, m.nextVersion) && m'.items == NewItems(m, src, m.nextVersion, catalogVersion)
    ensures x in ItemMap(m, src) && SameItem(m, x, m', ItemMap(m, src)[x])
  {
    ItemRow(m, src, m.nextVersion, catalogVersion, x);
    CategoryRow(m, src, m.nextVersion, m.items[x].category);
    assert (m.items[x].attributes[CATALOG_VERSION := catalogVersion]) - {CATALOG_VERSION} == m.items[x].attributes - {CATALOG_VERSION};
  }

  lemma AllergensCopied(m: Menu, m': Menu, src: int, x: int)
    requires DeclarationsOwned(m) && x in ItemsOf(m, src) && m'.declarations == NewDeclarations(m, src, m.nextVersion)
    ensures x in ItemMap(m, src) && Allergens(m, x) == Allergens(m', ItemMap(m, src)[x])
  {
    HasCopy(ItemsOf(m, src), m.nextItem, x);
    var y := ItemMap(m, src)[x];
    forall a ensures (y, a) in m'.declarations <==> (x, a) in m.declarations
      ensures (x, a) in m.declarations ==> m'.declarations[(y, a)] == m.declarations[(x, a)].(version := m.nextVersion)
    {
      DeclarationCopy(m, src, m.nextVersion, x, a);
    }
    AllergensEqual(m, x, m', y);
  }

  /** Allergens sees only the declarations of its item. */
  lemma AllergensEqual(m: Menu, x: int, m': Menu, y: int)
    requires forall a :: (y, a) in m'.declarations <==> (x, a) in m.declarations
    requires forall a :: (x, a) in m.declarations ==>
               m'.declarations[(y, a)] == m.declarations[(x, a)].(version := m'.declarations[(y, a)].version)
    ensures Allergens(m, x) == Allergens(m', y)
  {
    AllergenKeys(m, x);
    AllergenKeys(m', y);
  }

  lemma AllergenKeys(m: Menu, x: int)
    ensures forall a :: a in Allergens(m, x) <==> (x, a) in m.declarations
    ensures forall a | (x, a) in m.declarations ::
              Allergens(m, x)[a]
              == AllergenShown(m.declarations[(x, a)].declaration, m.declarations[(x, a)].source, m.declarations[(x, a)].verifiedAt)
  {
    forall a | (x, a) in m.declarations ensures a in Allergens(m, x) {
      var k := (x, a);
      assert k.1 in Allergens(m, x);
    }
  }

  lemma GroupsWithRenamed(m: Menu, m': Menu, src: int, x: int)
    requires LinksOwned(m) && VersionsBelow(m, m.nextVersion) && x in ItemsOf(m, src)
    requires m'.groups == NewGroups(m, src, m.nextVersion) && m'.links == NewLinks(m, src, m.nextVersion)
    ensures x in ItemMap(m, src) && RenamesWithin(GroupMap(m, src), GroupsWith(m, x), GroupsWith(m', ItemMap(m, src)[x]))
    ensures forall g :: g in GroupMap(m, src) && g in GroupsWith(m, x) ==> SameLink(m, x, g, m', ItemMap(m, src)[x], GroupMap(m, src)[g])
  {
    CopiesGroups(m, src, m.nextVersion);
    HasCopy(ItemsOf(m, src), m.nextItem, x);
    Numbers(ItemsOf(m, src), m.nextItem);
    var y, r := ItemMap(m, src)[x], GroupMap(m, src);
    forall g | g in GroupsWith(m, x) ensures g in r && r[g] in GroupsWith(m', y) && SameLink(m, x, g, m', y, r[g]) {
      assert (x, g) in m.links;
      LinkCopy(m, src, m.nextVersion, x, g);
    }
    forall q | q in GroupsWith(m', y) ensures exists g :: g in GroupsWith(m, x) && r[g] == q {
      LinkKeys(m, src, m.nextVersion, y, q);
      assert (y, q) !in m.links;
      var x', g :| x' in ItemMap(m, src) && ItemMap(m, src)[x'] == y && g in r && r[g] == q;
      assert x' == x;
      LinkCopy(m, src, m.nextVersion, x, g);
      assert g in GroupsWith(m, x);
    }
  }

  lemma ChoicesInRenamed(m: Menu, m': Menu, src: int, g: int)
    requires ChoicesOwned(m) && VersionsBelow(m, m.nextVersion) && g in GroupsOf(m, src)
    requires m'.groups == NewGroups(m, src, m.nextVersion) && m'.choices == NewChoices(m, src)
    ensures g in GroupMap(m, src) && RenamesWithin(ChoiceMap(m, src), ChoicesIn(m, g), ChoicesIn(m', GroupMap(m, src)[g]))
  {
    CopiesGroups(m, src, m.nextVersion);
    CopiesChoices(m, src);
    var r := ChoiceMap(m, src);
    forall o | o in ChoicesIn(m, g) ensures o in r && r[o] in ChoicesIn(m', GroupMap(m, src)[g]) {
      ChoiceGroups(m, m', src, o);
    }
    forall y | y in ChoicesIn(m', GroupMap(m, src)[g]) ensures exists o :: o in ChoicesIn(m, g) && r[o] == y {
      assert y !in m.choices;
      var o :| o in r && r[o] == y;
      ChoiceGroups(m, m', src, o);
      assert m.choices[o].group == g;
    }
  }

  function CloneRenaming(m: Menu, src: int): Renaming {
    Renaming(ItemMap(m, src), GroupMap(m, src), ChoiceMap(m, src))
  }

  /** Cloning is a graph isomorphism. */
  lemma CloneIsomorphic(m: Menu, m': Menu, src: int, catalogVersion: string)
    requires Owned(m) && IsClone(m, m', src, catalogVersion)
    ensures Isomorphic(m, src, m', m.nextVersion, CloneRenaming(m, src))
  {
    var r := CloneRenaming(m, src);
    ItemsRenamed(m, m', src, catalogVersion);
    GroupsRenamed(m, m', src);
    ChoicesRenamed(m, m', src);
    forall x | x in r.items
      ensures SameItem(m, x, m', r.items[x]) && Allergens(m, x) == Allergens(m', r.items[x])
      ensures RenamesWithin(r.groups, GroupsWith(m, x), GroupsWith(m', r.items[x]))
      ensures forall g :: g in r.groups && g in GroupsWith(m, x) ==> SameLink(m, x, g, m', r.items[x], r.groups[g])
    {
      ItemCopySame(m, m', src, catalogVersion, x);
      AllergensCopied(m, m', src, x);
      GroupsWithRenamed(m, m', src, x);
    }
    forall g | g in r.groups
      ensures SameGroup(m, g, m', r.groups[g]) && RenamesWithin(r.choices, ChoicesIn(m, g), ChoicesIn(m', r.groups[g]))
    {
      GroupRow(m, src, m.nextVersion, g);
      ChoicesInRenamed(m, m', src, g);
    }
    forall o | o in r.choices ensures SameChoice(m, o, m', r.choices[o]) {
      ChoiceGroups(m, m', src, o);
    }
  }

  // ---------- versions that are not being copied ----------

  /** Version w keeps its rows. */
  ghost predicate Retains(m: Menu, m': Menu, w: int) {
    && ItemsOf(m', w) == ItemsOf(m, w) && GroupsOf(m', w) == GroupsOf(m, w) && ChoicesOf(m', w) == ChoicesOf(m, w)
    && (forall x :: x in ItemsOf(m, w) ==> SameItem(m, x, m', x) && Allergens(m, x) == Allergens(m', x))
    && (forall x :: x in ItemsOf(m, w) ==> GroupsWith(m', x) == GroupsWith(m, x))
    && (forall x, g :: x in ItemsOf(m, w) && g in GroupsWith(m, x) ==> SameLink(m, x, g, m', x, g))
    && (forall g :: g in GroupsOf(m, w) ==> SameGroup(m, g, m', g) && ChoicesIn(m', g) == ChoicesIn(m, g))
    && (forall o :: o in ChoicesOf(m, w) ==> SameChoice(m, o, m', o))
  }

  function Itself(ids: set<int>): map<int, int> {
    map x | x in ids :: x
  }

  function Identity(m: Menu, w: int): Renaming {
    Renaming(Itself(ItemsOf(m, w)), Itself(GroupsOf(m, w)), Itself(ChoicesOf(m, w)))
  }

  lemma RetainedIsomorphic(m: Menu, m': Menu, w: int)
    requires LinksOwned(m) && Retains(m, m', w)
    ensures Isomorphic(m, w, m', w, Identity(m, w))
  {
    var r := Identity(m, w);
    forall x | x in r.items ensures RenamesWithin(r.groups, GroupsWith(m, x), GroupsWith(m', r.items[x])) {
      forall g | g in GroupsWith(m, x) ensures g in r.groups && r.groups[g] in GroupsWith(m', x) {
        assert (x, g) in m.links;
      }
      forall g | g in GroupsWith(m', x) ensures g in GroupsWith(m, x) && r.groups[g] == g {}
    }
    forall g | g in r.groups ensures RenamesWithin(r.choices, ChoicesIn(m, g), ChoicesIn(m', r.groups[g])) {
      forall o | o in ChoicesIn(m, g) ensures o in r.choices && r.choices[o] in ChoicesIn(m', g) {}
      forall o | o in ChoicesIn(m', g) ensures o in ChoicesIn(m, g) && r.choices[o] == o {}
    }
  }

  ghost predicate Kept<T>(before: map<int, T>, after: map<int, T>) {
    forall k :: k in before ==> k in after && after[k] == before[k]
  }

  lemma GroupsElsewhere(m: Menu, src: int, v: int)
    requires Keys(m.groups, m.nextGroup)
    ensures Kept(m.groups, NewGroups(m, src, v))
    ensures forall g :: g in NewGroups(m, src, v) && g !in m.groups ==> NewGroups(m, src, v)[g].version == v
  {
    CopiesGroups(m, src, v);
  }

  lemma ItemsElsewhere(m: Menu, src: int, v: int, catalogVersion: string)
    requires Keys(m.items, m.nextItem)
    ensures Kept(m.items, NewItems(m, src, v, catalogVersion))
    ensures forall i :: i in NewItems(m, src, v, catalogVersion) && i !in m.items ==> NewItems(m, src, v, catalogVersion)[i].version == v
  {
    CopiesItems(m, src, v, catalogVersion);
  }

  lemma ChoicesElsewhere(m: Menu, m': Menu, src: int)
    requires ChoicesOwned(m) && VersionsBelow(m, m.nextVersion)
    requires m'.groups == NewGroups(m, src, m.nextVersion) && m'.choices == NewChoices(m, src)
    ensures Kept(m.choices, m'.choices)
    ensures forall o :: o in m'.choices && o !in m.choices ==> m'.choices[o].group !in m.groups && m'.choices[o].group in m'.groups
  {
    CopiesChoices(m, src);
    CopiesGroups(m, src, m.nextVersion);
    forall o | o in m'.choices && o !in m.choices ensures m'.choices[o].group !in m.groups && m'.choices[o].group in m'.groups {
      var x :| x in ChoiceMap(m, src) && ChoiceMap(m, src)[x] == o;
      ChoiceGroups(m, m', src, x);
    }
  }

  lemma GroupsRetained(m: Menu, m': Menu, v: int, w: int)
    requires ChoicesOwned(m) && w != v && Kept(m.groups, m'.groups) && Kept(m.choices, m'.choices)
    requires forall g :: g in m'.groups && g !in m.groups ==> m'.groups[g].version == v
    requires forall o :: o in m'.choices && o !in m.choices ==> m'.choices[o].group !in m.groups
    ensures GroupsOf(m', w) == GroupsOf(m, w) && ChoicesOf(m', w) == ChoicesOf(m, w)
    ensures forall g :: g in GroupsOf(m, w) ==> SameGroup(m, g, m', g) && ChoicesIn(m', g) == ChoicesIn(m, g)
    ensures forall o :: o in ChoicesOf(m, w) ==> SameChoice(m, o, m', o)
  {
    forall g ensures g in GroupsOf(m', w) <==> g in GroupsOf(m, w) {
      assert g in m.groups ==> m'.groups[g] == m.groups[g];
    }
    forall o ensures o in ChoicesOf(m', w) <==> o in ChoicesOf(m, w) {
      assert o in m.choices ==> m'.choices[o] == m.choices[o];
    }
    forall g | g in GroupsOf(m, w) ensures ChoicesIn(m', g) == ChoicesIn(m, g) {
      forall o ensures o in ChoicesIn(m', g) <==> o in ChoicesIn(m, g) {}
    }
  }

  lemma CloneRetainsItem(m: Menu, m': Menu, src: int, catalogVersion: string, x: int)
    requires Owned(m) && IsClone(m, m', src, catalogVersion) && x in m.items
    ensures SameItem(m, x, m', x) && Allergens(m, x) == Allergens(m', x)
    ensures GroupsWith(m', x) == GroupsWith(m, x)
    ensures forall g :: g in GroupsWith(m, x) ==> SameLink(m, x, g, m', x, g)
  {
    assert SameItem(m, x, m', x) by {
      CopiesItems(m, src, m.nextVersion, catalogVersion);
      CopiesCategories(m, src, m.nextVersion);
    }
    forall a ensures (x, a) in m'.declarations <==> (x, a) in m.declarations
      ensures (x, a) in m.declarations ==> m'.declarations[(x, a)] == m.declarations[(x, a)]
    {
      OldDeclarations(m, src, m.nextVersion, x, a);
    }
    AllergensEqual(m, x, m', x);
    GroupsElsewhere(m, src, m.nextVersion);
    LinksRetained(m, m', src, x);
  }

  lemma OldLinks(m: Menu, src: int, x: int, g: int)
    requires LinksOwned(m) && x in m.items
    ensures (x, g) in NewLinks(m, src, m.nextVersion) <==> (x, g) in m.links
    ensures (x, g) in m.links ==> NewLinks(m, src, m.nextVersion)[(x, g)] == m.links[(x, g)]
  {
  }

  lemma LinksRetained(m: Menu, m': Menu, src: int, x: int)
    requires LinksOwned(m) && x in m.items && Kept(m.groups, m'.groups) && m'.links == NewLinks(m, src, m.nextVersion)
    ensures GroupsWith(m', x) == GroupsWith(m, x)
    ensures forall g :: g in GroupsWith(m, x) ==> SameLink(m, x, g, m', x, g)
  {
    forall g ensures g in GroupsWith(m', x) <==> g in GroupsWith(m, x) {
      OldLinks(m, src, x, g);
    }
    forall g | g in GroupsWith(m, x) ensures SameLink(m, x, g, m', x, g) {
      OldLinks(m, src, x, g);
    }
  }

  lemma CloneRetainsItems(m: Menu, m': Menu, src: int, catalogVersion: string, w: int)
    requires Keys(m.items, m.nextItem) && m'.items == NewItems(m, src, m.nextVersion, catalogVersion) && w != m.nextVersion
    ensures ItemsOf(m', w) == ItemsOf(m, w)
  {
    ItemsElsewhere(m, src, m.nextVersion, catalogVersion);
    forall x ensures x in ItemsOf(m', w) <==> x in ItemsOf(m, w) {
      assert x in m.items ==> m'.items[x] == m.items[x];
    }
  }

  lemma CloneRetainsGroups(m: Menu, m': Menu, src: int, w: int)
    requires ChoicesOwned(m) && VersionsBelow(m, m.nextVersion) && w != m.nextVersion
    requires m'.groups == NewGroups(m, src, m.nextVersion) && m'.choices == NewChoices(m, src)
    ensures GroupsOf(m', w) == GroupsOf(m, w) && ChoicesOf(m', w) == ChoicesOf(m, w)
    ensures forall g :: g in GroupsOf(m, w) ==> SameGroup(m, g, m', g) && ChoicesIn(m', g) == ChoicesIn(m, g)
    ensures forall o :: o in ChoicesOf(m, w) ==> SameChoice(m, o, m', o)
  {
    GroupsElsewhere(m, src, m.nextVersion);
    ChoicesElsewhere(m, m', src);
    GroupsRetained(m, m', m.nextVersion, w);
  }

  /** The clone leaves every other version as it was. */
  lemma CloneRetains(m: Menu, m': Menu, src: int, catalogVersion: string, w: int)
    requires Owned(m) && IsClone(m, m', src, catalogVersion) && w != m.nextVersion
    ensures Retains(m, m', w)
  {
    CloneRetainsItems(m, m', src, catalogVersion, w);
    CloneRetainsGroups(m, m', src, w);
    forall x | x in ItemsOf(m, w)
      ensures SameItem(m, x, m', x) && Allergens(m, x) == Allergens(m', x) && GroupsWith(m', x) == GroupsWith(m, x)
      ensures forall g :: g in GroupsWith(m, x) ==> SameLink(m, x, g, m', x, g)
    {
      CloneRetainsItem(m, m', src, catalogVersion, x);
    }
  }
}
