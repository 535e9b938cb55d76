/**
 The menu repository and the management service over it: rows are inserted one by one
 through old-to-new id maps, and each operation ends in the tables MenuModel gives.
 */
module MenuRepositories {
  import opened Wrappers
  import opened IdLists
  import opened MenuModel
  import opened MenuClone
  import opened MenuCopies

  // ---------- one more copied row ----------

  lemma NumberingGrows(ids: seq<int>, n: nat, base: int)
    requires n < |ids|
    ensures Numbering(ids[..n + 1], base) == Numbering(ids[..n], base)[ids[n] := base + n]
  {
    assert ids[..n + 1][..n] == ids[..n];
  }

  lemma AddRowsGrows<T>(table: map<int, T>, rows: seq<T>, row: T, base: int)
    ensures AddRows(table, rows + [row], base) == AddRows(table, rows, base)[base + |rows| := row]
  {
    assert (rows + [row])[..|rows|] == rows;
  }

  lemma ItemTextsGrow(m: Menu, ids: seq<int>, n: nat, base: int, catalog: Catalog)
    requires n < |ids| && forall i :: 0 <= i < |ids| ==> ids[i] in m.items
    ensures ItemTextCopies(m, ids[..n + 1], base, catalog)
         == ItemTextCopies(m, ids[..n], base, catalog) + TextsAt(base + n, CatalogTexts(catalog, m.items[ids[n]].code).Keys)
  {
  }

  function TextsAt(owner: int, locales: set<Locale>): set<Text> {
    set locale | locale in locales :: Text(owner, locale)
  }

  lemma ChoiceTextsGrow(m: Menu, ids: seq<int>, n: nat, base: int, catalog: Catalog)
    requires n < |ids| && forall i :: 0 <= i < |ids| ==> ids[i] in m.choices
    ensures ChoiceTextCopies(m, ids[..n + 1], base, catalog)
         == ChoiceTextCopies(m, ids[..n], base, catalog) + TextsAt(base + n, Terms(catalog, m.choices[ids[n]].name))
  {
  }

  lemma GroupTextsGrow(n: nat, base: int)
    ensures GroupTextCopies(n + 1, base) == GroupTextCopies(n, base) + TextsAt(base + n, LOCALES)
  {
  }

  function OldAliasesAt(aliases: set<Alias>, item: int, copy: int, v: int): set<Alias> {
    set a | a in aliases && a.item == item :: Alias(copy, v, a.locale, a.normalized)
  }

  function CatalogAliasesAt(texts: Texts, copy: int, v: int): set<Alias> {
    set locale, text | locale in texts && text in texts[locale] :: Alias(copy, v, locale, text)
  }

  lemma OldAliasesGrow(m: Menu, ids: seq<int>, n: nat, base: int, v: int)
    requires n < |ids|
    ensures OldAliasCopies(m, ids[..n + 1], base, v) == OldAliasCopies(m, ids[..n], base, v) + OldAliasesAt(m.aliases, ids[n], base + n, v)
  {
    forall p, a | base <= p <= base + n ensures CopyOf(ids[..n + 1], base, p, a) <==> CopyOf(ids[..n], base, p, a) || (p == base + n && a == ids[n]) {}
  }

  lemma CatalogAliasesGrow(m: Menu, ids: seq<int>, n: nat, base: int, v: int, catalog: Catalog)
    requires n < |ids| && forall i :: 0 <= i < |ids| ==> ids[i] in m.items
    ensures CatalogAliases(m, ids[..n + 1], base, v, catalog)
         == CatalogAliases(m, ids[..n], base, v, catalog) + CatalogAliasesAt(CatalogTexts(catalog, m.items[ids[n]].code), base + n, v)
  {
  }

  lemma CategoryRowsGrow(m: Menu, ids: seq<int>, n: nat, v: int)
    requires n < |ids| && forall i :: 0 <= i < |ids| ==> ids[i] in m.categories
    ensures AddRows(m.categories, CategoryCopies(m, ids[..n + 1], v), m.nextCategory)
         == AddRows(m.categories, CategoryCopies(m, ids[..n], v), m.nextCategory)
              [m.nextCategory + n := m.categories[ids[n]].(version := v)]
  {
    var row := m.categories[ids[n]].(version := v);
    AddRowsGrows(m.categories, CategoryCopies(m, ids[..n], v), row, m.nextCategory);
    assert CategoryCopies(m, ids[..n + 1], v) == CategoryCopies(m, ids[..n], v) + [row];
  }

  lemma GroupRowsGrow(m: Menu, ids: seq<int>, n: nat, v: int)
    requires n < |ids| && forall i :: 0 <= i < |ids| ==> ids[i] in m.groups
    ensures AddRows(m.groups, GroupCopies(m, ids[..n + 1], v), m.nextGroup)
         == AddRows(m.groups, GroupCopies(m, ids[..n], v), m.nextGroup)[m.nextGroup + n := m.groups[ids[n]].(version := v)]
  {
    var row := m.groups[ids[n]].(version := v);
    AddRowsGrows(m.groups, GroupCopies(m, ids[..n], v), row, m.nextGroup);
    assert GroupCopies(m, ids[..n + 1], v) == GroupCopies(m, ids[..n], v) + [row];
  }

  lemma ChoiceRowsGrow(m: Menu, ids: seq<int>, n: nat, groupMap: map<int, int>)
    requires n < |ids| && forall i :: 0 <= i < |ids| ==> ids[i] in m.choices
    ensures AddRows(m.choices, ChoiceCopies(m, ids[..n + 1], groupMap), m.nextChoice)
         == AddRows(m.choices, ChoiceCopies(m, ids[..n], groupMap), m.nextChoice)
              [m.nextChoice + n := m.choices[ids[n]].(group := At(groupMap, m.choices[ids[n]].group, 0))]
  {
    var row := m.choices[ids[n]].(group := At(groupMap, m.choices[ids[n]].group, 0));
    AddRowsGrows(m.choices, ChoiceCopies(m, ids[..n], groupMap), row, m.nextChoice);
    assert ChoiceCopies(m, ids[..n + 1], groupMap) == ChoiceCopies(m, ids[..n], groupMap) + [row];
  }

  lemma ItemRowsGrow(m: Menu, ids: seq<int>, n: nat, v: int, categoryMap: map<int, int>, catalogVersion: string)
    requires n < |ids| && forall i :: 0 <= i < |ids| ==> ids[i] in m.items
    ensures AddRows(m.items, ItemCopies(m, ids[..n + 1], v, categoryMap, catalogVersion), m.nextItem)
         == AddRows(m.items, ItemCopies(m, ids[..n], v, categoryMap, catalogVersion), m.nextItem)
              [m.nextItem + n := CopyItem(m.items[ids[n]], v, categoryMap, catalogVersion)]
  {
    var row := CopyItem(m.items[ids[n]], v, categoryMap, catalogVersion);
    AddRowsGrows(m.items, ItemCopies(m, ids[..n], v, categoryMap, catalogVersion), row, m.nextItem);
    assert ItemCopies(m, ids[..n + 1], v, categoryMap, catalogVersion)
        == ItemCopies(m, ids[..n], v, categoryMap, catalogVersion) + [row];
  }

  // ---------- one more copied pair ----------

  function Only<K, V>(table: map<K, V>, keys: set<K>): map<K, V> {
    map k | k in table && k in keys :: table[k]
  }

  lemma OnlyGrows<K, V>(table: map<K, V>, copies: map<K, V>, done: set<K>, q: K)
    requires q in copies
    ensures table + Only(copies, done + {q}) == (table + Only(copies, done))[q := copies[q]]
  {
  }

  /** Where the copy of a declaration goes. */
  lemma DeclarationGoesTo(m: Menu, src: int, v: int, k: (int, int))
    requires DeclarationsOwned(m) && k in m.declarations && m.declarations[k].version == src
    ensures k.0 in ItemMap(m, src)
    ensures var copies := DeclarationCopies(m, src, v, ItemList(m, src), m.nextItem);
      (ItemMap(m, src)[k.0], k.1) in copies && copies[(ItemMap(m, src)[k.0], k.1)] == m.declarations[k].(version := v)
  {
    var i, a := k.0, k.1;
    assert k == (i, a) && (i, a) in m.declarations && i in ItemsOf(m, src);
    HasCopy(ItemsOf(m, src), m.nextItem, k.0);
    DeclarationAt(m, src, v, ItemList(m, src), m.nextItem, ItemMap(m, src)[k.0], k.0, k.1);
  }

  lemma DeclarationComesFrom(m: Menu, src: int, v: int, q: (int, int)) returns (k: (int, int))
    requires DeclarationsOwned(m) && q in DeclarationCopies(m, src, v, ItemList(m, src), m.nextItem)
    ensures k in m.declarations && m.declarations[k].version == src && k.0 in ItemMap(m, src) && q == (ItemMap(m, src)[k.0], k.1)
  {
    var p, j :| m.nextItem <= p < m.nextItem + |ItemList(m, src)| && j in m.declarations && CopyOf(ItemList(m, src), m.nextItem, p, j.0)
                && m.declarations[j].version == src && q == (p, j.1);
    CopyIs(ItemsOf(m, src), m.nextItem, p, j.0);
    k := j;
  }

  lemma LinkGoesTo(m: Menu, src: int, v: int, k: (int, int))
    requires LinksOwned(m) && k in m.links && m.links[k].version == src
    ensures k.0 in ItemMap(m, src) && k.1 in GroupMap(m, src)
    ensures var copies := LinkCopies(m, src, v, ItemList(m, src), m.nextItem, GroupList(m, src), m.nextGroup);
      (ItemMap(m, src)[k.0], GroupMap(m, src)[k.1]) in copies
      && copies[(ItemMap(m, src)[k.0], GroupMap(m, src)[k.1])] == m.links[k].(version := v)
  {
    var i, g := k.0, k.1;
    assert k == (i, g) && (i, g) in m.links && i in ItemsOf(m, src) && g in GroupsOf(m, src);
    HasCopy(ItemsOf(m, src), m.nextItem, k.0);
    HasCopy(GroupsOf(m, src), m.nextGroup, k.1);
    LinkAt(m, src, v, ItemList(m, src), m.nextItem, GroupList(m, src), m.nextGroup,
           ItemMap(m, src)[k.0], k.0, GroupMap(m, src)[k.1], k.1);
  }

  lemma LinkComesFrom(m: Menu, src: int, v: int, q: (int, int)) returns (k: (int, int))
    requires LinksOwned(m) && q in LinkCopies(m, src, v, ItemList(m, src), m.nextItem, GroupList(m, src), m.nextGroup)
    ensures k in m.links && m.links[k].version == src && k.0 in ItemMap(m, src) && k.1 in GroupMap(m, src)
    ensures q == (ItemMap(m, src)[k.0], GroupMap(m, src)[k.1])
  {
    var p, r, j :| m.nextItem <= p < m.nextItem + |ItemList(m, src)| && m.nextGroup <= r < m.nextGroup + |GroupList(m, src)|
                   && j in m.links && CopyOf(ItemList(m, src), m.nextItem, p, j.0) && CopyOf(GroupList(m, src), m.nextGroup, r, j.1)
                   && m.links[j].version == src && q == (p, r);
    CopyIs(ItemsOf(m, src), m.nextItem, p, j.0);
    CopyIs(GroupsOf(m, src), m.nextGroup, r, j.1);
    k := j;
  }

  method PickFrom<T(==)>(s: set<T>) returns (x: T)
    requires s != {}
    ensures x in s
  {
    ghost var some := SomeMember(s);
    x :| x in s;
  }

  predicate Translated(catalog: Catalog, code: string) {
    code in catalog.categories && catalog.categories[code] != {}
  }

  lemma ListedCategories(m: Menu, src: int)
    requires Keys(m.categories, m.nextCategory)
    ensures forall c :: c in CategoryList(m, src) <==> c in CategoriesOf(m, src)
  {
    SortedDistinct(CategoriesOf(m, src), m.nextCategory, CategoryOrder(m));
  }

  // ---------- the copying loops ----------

  /** Copies the listed categories until one has no translation. */
  method CopyCategoryRows(m: Menu, ids: seq<int>, v: int, catalog: Catalog)
    returns (table: map<int, Category>, next: int, categoryMap: map<int, int>, missing: bool)
    requires forall i :: 0 <= i < |ids| ==> ids[i] in m.categories
    ensures missing <==> exists i :: 0 <= i < |ids| && !Translated(catalog, m.categories[ids[i]].code)
    ensures !missing ==> table == AddRows(m.categories, CategoryCopies(m, ids, v), m.nextCategory)
    ensures !missing ==> next == m.nextCategory + |ids| && categoryMap == Numbering(ids, m.nextCategory)
  {
    table, next, categoryMap := m.categories, m.nextCategory, map[];
    for n := 0 to |ids|
      invariant table == AddRows(m.categories, CategoryCopies(m, ids[..n], v), m.nextCategory)
      invariant next == m.nextCategory + n && categoryMap == Numbering(ids[..n], m.nextCategory)
      invariant forall i :: 0 <= i < n ==> Translated(catalog, m.categories[ids[i]].code)
    {
      var row := m.categories[ids[n]].(version := v);
      CategoryRowsGrow(m, ids, n, v);
      NumberingGrows(ids, n, m.nextCategory);
      table, categoryMap, next := table[next := row], categoryMap[ids[n] := next], next + 1;
      if !Translated(catalog, row.code) {
        missing := true;
        return;
      }
    }
    assert ids[..|ids|] == ids;
    missing := false;
  }

  /** Categories are copied in sort order. */
  method CopyCategories(m: Menu, src: int, v: int, catalog: Catalog)
    returns (table: map<int, Category>, next: int, categoryMap: map<int, int>, missing: bool)
    requires Keys(m.categories, m.nextCategory)
    ensures missing <==> exists c :: c in CategoriesOf(m, src) && !Translated(catalog, m.categories[c].code)
    ensures !missing ==> table == NewCategories(m, src, v) && categoryMap == CategoryMap(m, src)
    ensures !missing ==> next == m.nextCategory + |CategoryList(m, src)|
  {
    var ids := CategoryList(m, src);
    ListsInTables(m, src);
    CategoryIndexes(m, src);
    table, next, categoryMap, missing := CopyCategoryRows(m, ids, v, catalog);
    if missing {
      ghost var i :| 0 <= i < |ids| && !Translated(catalog, m.categories[ids[i]].code);
      ghost var c := ids[i];
      assert c in CategoriesOf(m, src) && !Translated(catalog, m.categories[c].code);
    } else {
      forall c | c in CategoriesOf(m, src) ensures Translated(catalog, m.categories[c].code) {
        var i :| 0 <= i < |ids| && ids[i] == c;
      }
    }
  }

  lemma CategoryIndexes(m: Menu, src: int)
    requires Keys(m.categories, m.nextCategory)
    ensures forall i :: 0 <= i < |CategoryList(m, src)| ==> CategoryList(m, src)[i] in CategoriesOf(m, src)
    ensures forall c :: c in CategoriesOf(m, src) ==> exists i :: 0 <= i < |CategoryList(m, src)| && CategoryList(m, src)[i] == c
  {
    ListedCategories(m, src);
    SortedIn(CategoriesOf(m, src), m.nextCategory, CategoryOrder(m));
    forall c | c in CategoriesOf(m, src) ensures exists i :: 0 <= i < |CategoryList(m, src)| && CategoryList(m, src)[i] == c {
      assert c in CategoryList(m, src);
    }
  }

  /** Copies the listed items until one has no translation. */
  method CopyItemRows(m: Menu, ids: seq<int>, v: int, categoryMap: map<int, int>, catalog: Catalog)
    returns (table: map<int, Item>, next: int, itemMap: map<int, int>, missing: bool)
    requires forall i :: 0 <= i < |ids| ==> ids[i] in m.items
    ensures missing <==> exists i :: 0 <= i < |ids| && CatalogTexts(catalog, m.items[ids[i]].code) == map[]
    ensures !missing ==> table == AddRows(m.items, ItemCopies(m, ids, v, categoryMap, catalog.version), m.nextItem)
    ensures !missing ==> itemMap == Numbering(ids, m.nextItem) && next == m.nextItem + |ids|
  {
    table, next, itemMap := m.items, m.nextItem, map[];
    for n := 0 to |ids|
      invariant table == AddRows(m.items, ItemCopies(m, ids[..n], v, categoryMap, catalog.version), m.nextItem)
      invariant itemMap == Numbering(ids[..n], m.nextItem) && next == m.nextItem + n
      invariant forall i :: 0 <= i < n ==> CatalogTexts(catalog, m.items[ids[i]].code) != map[]
    {
      if CatalogTexts(catalog, m.items[ids[n]].code) == map[] {
        missing := true;
        return;
      }
      ItemRowsGrow(m, ids, n, v, categoryMap, catalog.version);
      NumberingGrows(ids, n, m.nextItem);
      table := table[next := CopyItem(m.items[ids[n]], v, categoryMap, catalog.version)];
      itemMap, next := itemMap[ids[n] := next], next + 1;
    }
    assert ids[..|ids|] == ids;
    missing := false;
  }

  /** The catalog's translations of the listed items, for their copies. */
  method CopyItemTexts(m: Menu, ids: seq<int>, catalog: Catalog) returns (texts: set<Text>)
    requires forall i :: 0 <= i < |ids| ==> ids[i] in m.items
    ensures texts == ItemTextCopies(m, ids, m.nextItem, catalog)
  {
    texts := {};
    for n := 0 to |ids|
      invariant texts == ItemTextCopies(m, ids[..n], m.nextItem, catalog)
    {
      ItemTextsGrow(m, ids, n, m.nextItem, catalog);
      texts := texts + TextsAt(m.nextItem + n, CatalogTexts(catalog, m.items[ids[n]].code).Keys);
    }
    assert ids[..|ids|] == ids;
  }

  /** The listed items' own aliases, for their copies. */
  method CopyOldAliases(m: Menu, ids: seq<int>, v: int) returns (aliases: set<Alias>)
    ensures aliases == OldAliasCopies(m, ids, m.nextItem, v)
  {
    aliases := {};
    for n := 0 to |ids|
      invariant aliases == OldAliasCopies(m, ids[..n], m.nextItem, v)
    {
      OldAliasesGrow(m, ids, n, m.nextItem, v);
      aliases := aliases + OldAliasesAt(m.aliases, ids[n], m.nextItem + n, v);
    }
    assert ids[..|ids|] == ids;
  }

  /** The catalog's aliases of the listed items, for their copies. */
  method CopyCatalogAliases(m: Menu, ids: seq<int>, v: int, catalog: Catalog) returns (aliases: set<Alias>)
    requires forall i :: 0 <= i < |ids| ==> ids[i] in m.items
    ensures aliases == CatalogAliases(m, ids, m.nextItem, v, catalog)
  {
    aliases := {};
    for n := 0 to |ids|
      invariant aliases == CatalogAliases(m, ids[..n], m.nextItem, v, catalog)
    {
      CatalogAliasesGrow(m, ids, n, m.nextItem, v, catalog);
      aliases := aliases + CatalogAliasesAt(CatalogTexts(catalog, m.items[ids[n]].code), m.nextItem + n, v);
    }
    assert ids[..|ids|] == ids;
  }

  /** Items are copied in id order. */
  method CopyItems(m: Menu, src: int, v: int, categoryMap: map<int, int>, catalog: Catalog)
    returns (table: map<int, Item>, next: int, itemMap: map<int, int>, missing: bool)
    requires categoryMap == CategoryMap(m, src) && Keys(m.items, m.nextItem)
    ensures missing <==> exists i :: i in ItemsOf(m, src) && CatalogTexts(catalog, m.items[i].code) == map[]
    ensures !missing ==> table == NewItems(m, src, v, catalog.version) && itemMap == ItemMap(m, src)
    ensures !missing ==> next == m.nextItem + |ItemList(m, src)|
  {
    var ids := ItemList(m, src);
    ListsInTables(m, src);
    ItemIndexes(m, src);
    table, next, itemMap, missing := CopyItemRows(m, ids, v, categoryMap, catalog);
    if missing {
      ghost var i :| 0 <= i < |ids| && CatalogTexts(catalog, m.items[ids[i]].code) == map[];
      ghost var x := ids[i];
      assert x in ItemsOf(m, src) && CatalogTexts(catalog, m.items[x].code) == map[];
    } else {
      forall x | x in ItemsOf(m, src) ensures CatalogTexts(catalog, m.items[x].code) != map[] {
        var i :| 0 <= i < |ids| && ids[i] == x;
      }
    }
  }

  lemma ItemIndexes(m: Menu, src: int)
    requires Keys(m.items, m.nextItem)
    ensures forall i :: 0 <= i < |ItemList(m, src)| ==> ItemList(m, src)[i] in ItemsOf(m, src)
    ensures forall x :: x in ItemsOf(m, src) ==> exists i :: 0 <= i < |ItemList(m, src)| && ItemList(m, src)[i] == x
  {
    AscendingIn(ItemsOf(m, src), m.nextItem);
    forall x | x in ItemsOf(m, src) ensures exists i :: 0 <= i < |ItemList(m, src)| && ItemList(m, src)[i] == x {
      var i := IndexIn(ItemsOf(m, src), m.nextItem, x);
      assert ItemList(m, src)[i] == x;
    }
  }

  /** Copies groups in id order, each with the fixed translations in the three locales. */
  method CopyGroups(m: Menu, src: int, v: int)
    returns (table: map<int, Group>, next: int, groupMap: map<int, int>, texts: set<Text>)
    ensures table == NewGroups(m, src, v) && groupMap == GroupMap(m, src) && next == m.nextGroup + |GroupList(m, src)|
    ensures texts == NewGroupTexts(m, src)
  {
    var ids := GroupList(m, src);
    ListsInTables(m, src);
    table, next, groupMap, texts := m.groups, m.nextGroup, map[], m.groupTexts;
    for n := 0 to |ids|
      invariant table == AddRows(m.groups, GroupCopies(m, ids[..n], v), m.nextGroup)
      invariant next == m.nextGroup + n && groupMap == Numbering(ids[..n], m.nextGroup)
      invariant texts == m.groupTexts + GroupTextCopies(n, m.nextGroup)
    {
      var row := m.groups[ids[n]].(version := v);
      GroupRowsGrow(m, ids, n, v);
      NumberingGrows(ids, n, m.nextGroup);
      GroupTextsGrow(n, m.nextGroup);
      texts := texts + TextsAt(next, LOCALES);
      table, groupMap, next := table[next := row], groupMap[ids[n] := next], next + 1;
    }
    assert ids[..|ids|] == ids;
  }

  /** Copies the listed options until one has no translation. */
  method CopyChoiceRows(m: Menu, ids: seq<int>, groupMap: map<int, int>, catalog: Catalog)
    returns (table: map<int, Choice>, next: int, missing: bool)
    requires forall i :: 0 <= i < |ids| ==> ids[i] in m.choices
    ensures missing <==> exists i :: 0 <= i < |ids| && Terms(catalog, m.choices[ids[i]].name) == {}
    ensures !missing ==> table == AddRows(m.choices, ChoiceCopies(m, ids, groupMap), m.nextChoice) && next == m.nextChoice + |ids|
  {
    table, next := m.choices, m.nextChoice;
    for n := 0 to |ids|
      invariant table == AddRows(m.choices, ChoiceCopies(m, ids[..n], groupMap), m.nextChoice) && next == m.nextChoice + n
      invariant forall i :: 0 <= i < n ==> Terms(catalog, m.choices[ids[i]].name) != {}
    {
      if Terms(catalog, m.choices[ids[n]].name) == {} {
        missing := true;
        return;
      }
      ChoiceRowsGrow(m, ids, n, groupMap);
      table := table[next := m.choices[ids[n]].(group := At(groupMap, m.choices[ids[n]].group, 0))];
      next := next + 1;
    }
    assert ids[..|ids|] == ids;
    missing := false;
  }

  method CopyChoiceTexts(m: Menu, ids: seq<int>, catalog: Catalog) returns (texts: set<Text>)
    requires forall i :: 0 <= i < |ids| ==> ids[i] in m.choices
    ensures texts == ChoiceTextCopies(m, ids, m.nextChoice, catalog)
  {
    texts := {};
    for n := 0 to |ids|
      invariant texts == ChoiceTextCopies(m, ids[..n], m.nextChoice, catalog)
    {
      ChoiceTextsGrow(m, ids, n, m.nextChoice, catalog);
      texts := texts + TextsAt(m.nextChoice + n, Terms(catalog, m.choices[ids[n]].name));
    }
    assert ids[..|ids|] == ids;
  }

  /** Options of the copied groups are copied in id order. */
  method CopyChoices(m: Menu, src: int, groupMap: map<int, int>, catalog: Catalog)
    returns (table: map<int, Choice>, next: int, missing: bool)
    requires groupMap == GroupMap(m, src) && Keys(m.choices, m.nextChoice)
    ensures missing <==> exists o :: o in ChoicesOf(m, src) && Terms(catalog, m.choices[o].name) == {}
    ensures !missing ==> table == NewChoices(m, src) && next == m.nextChoice + |ChoiceList(m, src)|
  {
    var ids := ChoiceList(m, src);
    ListsInTables(m, src);
    ChoiceIndexes(m, src);
    table, next, missing := CopyChoiceRows(m, ids, groupMap, catalog);
    if missing {
      ghost var i :| 0 <= i < |ids| && Terms(catalog, m.choices[ids[i]].name) == {};
      ghost var x := ids[i];
      assert x in ChoicesOf(m, src) && Terms(catalog, m.choices[x].name) == {};
    } else {
      forall x | x in ChoicesOf(m, src) ensures Terms(catalog, m.choices[x].name) != {} {
        var i :| 0 <= i < |ids| && ids[i] == x;
      }
    }
  }

  lemma ChoiceIndexes(m: Menu, src: int)
    requires Keys(m.choices, m.nextChoice)
    ensures forall i :: 0 <= i < |ChoiceList(m, src)| ==> ChoiceList(m, src)[i] in ChoicesOf(m, src)
    ensures forall x :: x in ChoicesOf(m, src) ==> exists i :: 0 <= i < |ChoiceList(m, src)| && ChoiceList(m, src)[i] == x
  {
    AscendingIn(ChoicesOf(m, src), m.nextChoice);
    forall x | x in ChoicesOf(m, src) ensures exists i :: 0 <= i < |ChoiceList(m, src)| && ChoiceList(m, src)[i] == x {
      var i := IndexIn(ChoicesOf(m, src), m.nextChoice, x);
      assert ChoiceList(m, src)[i] == x;
    }
  }

  /** The copies are exactly the rows of the version, renamed. */
  ghost predicate RenamedDeclarations(m: Menu, src: int, v: int, itemMap: map<int, int>, copies: map<(int, int), Declared>) {
    && (forall k :: k in m.declarations && m.declarations[k].version == src ==>
          k.0 in itemMap && (itemMap[k.0], k.1) in copies && copies[(itemMap[k.0], k.1)] == m.declarations[k].(version := v))
    && (forall q :: q in copies ==>
          exists k :: k in m.declarations && m.declarations[k].version == src && k.0 in itemMap && q == (itemMap[k.0], k.1))
  }

  method CopyDeclarationRows(m: Menu, src: int, v: int, itemMap: map<int, int>, ghost copies: map<(int, int), Declared>)
    returns (table: map<(int, int), Declared>)
    requires RenamedDeclarations(m, src, v, itemMap, copies)
    ensures table == m.declarations + copies
  {
    ghost var done: set<(int, int)> := {};
    var todo := set k | k in m.declarations && m.declarations[k].version == src;
    table := m.declarations;
    while todo != {}
      invariant forall k :: k in todo ==> k in m.declarations && m.declarations[k].version == src
      invariant table == m.declarations + Only(copies, done)
      invariant forall q :: q in copies ==> q in done || exists k :: k in todo && k.0 in itemMap && q == (itemMap[k.0], k.1)
    {
      var k := PickFrom(todo);
      ghost var q := (itemMap[k.0], k.1);
      OnlyGrows(m.declarations, copies, done, q);
      table := table[(itemMap[k.0], k.1) := m.declarations[k].(version := v)];
      done := done + {q};
      todo := todo - {k};
    }
    assert Only(copies, done) == copies;
  }

  /** Declarations are copied through the item map, in whatever order they come. */
  method CopyDeclarations(m: Menu, src: int, v: int, itemMap: map<int, int>) returns (table: map<(int, int), Declared>)
    requires DeclarationsOwned(m) && itemMap == ItemMap(m, src)
    ensures table == NewDeclarations(m, src, v)
  {
    ghost var copies := DeclarationCopies(m, src, v, ItemList(m, src), m.nextItem);
    DeclarationsRenamed(m, src, v);
    table := CopyDeclarationRows(m, src, v, itemMap, copies);
  }

  lemma DeclarationsRenamed(m: Menu, src: int, v: int)
    requires DeclarationsOwned(m)
    ensures RenamedDeclarations(m, src, v, ItemMap(m, src), DeclarationCopies(m, src, v, ItemList(m, src), m.nextItem))
  {
    forall k | k in m.declarations && m.declarations[k].version == src
      ensures k.0 in ItemMap(m, src)
      ensures var copies := DeclarationCopies(m, src, v, ItemList(m, src), m.nextItem);
        (ItemMap(m, src)[k.0], k.1) in copies && copies[(ItemMap(m, src)[k.0], k.1)] == m.declarations[k].(version := v)
    {
      DeclarationGoesTo(m, src, v, k);
    }
    DeclarationsComeFrom(m, src, v);
  }

  lemma DeclarationsComeFrom(m: Menu, src: int, v: int)
    requires DeclarationsOwned(m)
    ensures forall q :: q in DeclarationCopies(m, src, v, ItemList(m, src), m.nextItem) ==>
              exists k :: k in m.declarations && m.declarations[k].version == src && k.0 in ItemMap(m, src)
                          && q == (ItemMap(m, src)[k.0], k.1)
  {
    forall q | q in DeclarationCopies(m, src, v, ItemList(m, src), m.nextItem)
      ensures exists k :: k in m.declarations && m.declarations[k].version == src && k.0 in ItemMap(m, src)
                          && q == (ItemMap(m, src)[k.0], k.1)
    {
      var k := DeclarationComesFrom(m, src, v, q);
    }
  }

  ghost predicate RenamedLinks(m: Menu, src: int, v: int, itemMap: map<int, int>, groupMap: map<int, int>, copies: map<(int, int), Link>) {
    && (forall k :: k in m.links && m.links[k].version == src ==>
          k.0 in itemMap && k.1 in groupMap && (itemMap[k.0], groupMap[k.1]) in copies
          && copies[(itemMap[k.0], groupMap[k.1])] == m.links[k].(version := v))
    && (forall q :: q in copies ==>
          exists k :: k in m.links && m.links[k].version == src && k.0 in itemMap && k.1 in groupMap && q == (itemMap[k.0], groupMap[k.1]))
  }

  method CopyLinkRows(m: Menu, src: int, v: int, itemMap: map<int, int>, groupMap: map<int, int>, ghost copies: map<(int, int), Link>)
    returns (table: map<(int, int), Link>)
    requires RenamedLinks(m, src, v, itemMap, groupMap, copies)
    ensures table == m.links + copies
  {
    ghost var done: set<(int, int)> := {};
    var todo := set k | k in m.links && m.links[k].version == src;
    table := m.links;
    while todo != {}
      invariant forall k :: k in todo ==> k in m.links && m.links[k].version == src
      invariant table == m.links + Only(copies, done)
      invariant forall q :: q in copies ==>
        q in done || exists k :: k in todo && k.0 in itemMap && k.1 in groupMap && q == (itemMap[k.0], groupMap[k.1])
    {
      var k := PickFrom(todo);
      ghost var q := (itemMap[k.0], groupMap[k.1]);
      OnlyGrows(m.links, copies, done, q);
      table := table[(itemMap[k.0], groupMap[k.1]) := m.links[k].(version := v)];
      done := done + {q};
      todo := todo - {k};
    }
    assert Only(copies, done) == copies;
  }

  /** Links are copied through both maps, in whatever order they come. */
  method CopyLinks(m: Menu, src: int, v: int, itemMap: map<int, int>, groupMap: map<int, int>) returns (table: map<(int, int), Link>)
    requires LinksOwned(m) && itemMap == ItemMap(m, src) && groupMap == GroupMap(m, src)
    ensures table == NewLinks(m, src, v)
  {
    ghost var copies := LinkCopies(m, src, v, ItemList(m, src), m.nextItem, GroupList(m, src), m.nextGroup);
    LinksRenamed(m, src, v);
    table := CopyLinkRows(m, src, v, itemMap, groupMap, copies);
  }

  lemma LinksRenamed(m: Menu, src: int, v: int)
    requires LinksOwned(m)
    ensures RenamedLinks(m, src, v, ItemMap(m, src), GroupMap(m, src),
                         LinkCopies(m, src, v, ItemList(m, src), m.nextItem, GroupList(m, src), m.nextGroup))
  {
    var itemMap, groupMap := ItemMap(m, src), GroupMap(m, src);
    var copies := LinkCopies(m, src, v, ItemList(m, src), m.nextItem, GroupList(m, src), m.nextGroup);
    forall k | k in m.links && m.links[k].version == src
      ensures k.0 in itemMap && k.1 in groupMap && (itemMap[k.0], groupMap[k.1]) in copies
      ensures copies[(itemMap[k.0], groupMap[k.1])] == m.links[k].(version := v)
    {
      LinkGoesTo(m, src, v, k);
    }
    forall q | q in copies
      ensures exists k :: k in m.links && m.links[k].version == src && k.0 in itemMap && k.1 in groupMap && q == (itemMap[k.0], groupMap[k.1])
    {
      var k := LinkComesFrom(m, src, v, q);
    }
  }

  /** The rows of one branch for the copied items. */
  function BranchStock(m: Menu, b: int, src: int, v: int, ids: seq<int>, base: int, n: int): map<(int, int), Stock>
    requires n <= |ids|
  {
    map q | q in BranchKeys(b, base, n) :: StockCopy(m, b, ids[q.1 - base], src, v)
  }

  function BranchKeys(b: int, base: int, n: int): set<(int, int)> {
    set p | base <= p < base + n :: (b, p)
  }

  lemma BranchKeysAre(b: int, base: int, n: int, q: (int, int))
    ensures q in BranchKeys(b, base, n) <==> q.0 == b && base <= q.1 < base + n
  {
    if q.0 == b && base <= q.1 < base + n {
      var p := q.1;
      assert q == (b, p);
    }
  }

  lemma BranchStockGrows(m: Menu, b: int, src: int, v: int, ids: seq<int>, base: int, n: nat)
    requires n < |ids|
    ensures BranchStock(m, b, src, v, ids, base, n + 1)
         == BranchStock(m, b, src, v, ids, base, n)[(b, base + n) := StockCopy(m, b, ids[n], src, v)]
  {
    forall q ensures q in BranchKeys(b, base, n + 1) <==> q in BranchKeys(b, base, n) || q == (b, base + n) {
      BranchKeysAre(b, base, n + 1, q);
      BranchKeysAre(b, base, n, q);
    }
  }

  lemma MergeSet<K, V>(a: map<K, V>, b: map<K, V>, k: K, x: V)
    ensures a + b[k := x] == (a + b)[k := x]
  {
  }

  /** Item by item. */
  method CopyBranchStock(m: Menu, b: int, src: int, v: int, ids: seq<int>, base: int, start: map<(int, int), Stock>)
    returns (table: map<(int, int), Stock>)
    ensures table == start + BranchStock(m, b, src, v, ids, base, |ids|)
  {
    table := start;
    for n := 0 to |ids|
      invariant table == start + BranchStock(m, b, src, v, ids, base, n)
    {
      BranchStockGrows(m, b, src, v, ids, base, n);
      MergeSet(start, BranchStock(m, b, src, v, ids, base, n), (b, base + n), StockCopy(m, b, ids[n], src, v));
      table := table[(b, base + n) := StockCopy(m, b, ids[n], src, v)];
    }
  }

  function StockOf(copies: map<(int, int), Stock>, branches: set<int>): map<(int, int), Stock> {
    map q | q in copies && q.0 in branches :: copies[q]
  }

  lemma StockOfBranch(m: Menu, restaurant: int, src: int, v: int, ids: seq<int>, b: int, q: (int, int))
    requires b in m.branches && m.branches[b].restaurant == restaurant && !m.branches[b].deleted
    ensures var copies := StockCopies(m, restaurant, src, v, ids, m.nextItem);
      (q in BranchStock(m, b, src, v, ids, m.nextItem, |ids|) <==> q in copies && q.0 == b)
      && (q in BranchStock(m, b, src, v, ids, m.nextItem, |ids|) ==> copies[q] == BranchStock(m, b, src, v, ids, m.nextItem, |ids|)[q])
  {
    var copies := StockCopies(m, restaurant, src, v, ids, m.nextItem);
    BranchKeysAre(b, m.nextItem, |ids|, q);
    assert q == (q.0, q.1);
    if q in BranchKeys(b, m.nextItem, |ids|) {
      StockAt(m, restaurant, src, v, ids, m.nextItem, b, q.1, ids[q.1 - m.nextItem]);
    }
    if q in copies { StockCopyKeys(m, restaurant, src, v, ids, m.nextItem, q.0, q.1); }
  }

  lemma SplitBy(copies: map<(int, int), Stock>, done: set<int>, b: int, rows: map<(int, int), Stock>)
    requires forall q :: q in rows <==> q in copies && q.0 == b
    requires forall q :: q in rows ==> copies[q] == rows[q]
    ensures StockOf(copies, done + {b}) == StockOf(copies, done) + rows
  {
  }

  lemma StockGrows(m: Menu, restaurant: int, src: int, v: int, ids: seq<int>, done: set<int>, b: int)
    requires b in m.branches && m.branches[b].restaurant == restaurant && !m.branches[b].deleted
    ensures var copies := StockCopies(m, restaurant, src, v, ids, m.nextItem);
      StockOf(copies, done + {b}) == StockOf(copies, done) + BranchStock(m, b, src, v, ids, m.nextItem, |ids|)
  {
    var copies := StockCopies(m, restaurant, src, v, ids, m.nextItem);
    var rows := BranchStock(m, b, src, v, ids, m.nextItem, |ids|);
    forall q ensures (q in rows <==> q in copies && q.0 == b) && (q in rows ==> copies[q] == rows[q]) {
      StockOfBranch(m, restaurant, src, v, ids, b, q);
    }
    SplitBy(copies, done, b, rows);
  }

  lemma MergeGrows<K, V>(a: map<K, V>, b: map<K, V>, c: map<K, V>)
    ensures a + (b + c) == a + b + c
  {
  }

  lemma StockOfAll(m: Menu, restaurant: int, src: int, v: int, ids: seq<int>, branches: set<int>)
    requires forall b :: b in m.branches && m.branches[b].restaurant == restaurant && !m.branches[b].deleted ==> b in branches
    ensures var copies := StockCopies(m, restaurant, src, v, ids, m.nextItem); StockOf(copies, branches) == copies
  {
    var copies := StockCopies(m, restaurant, src, v, ids, m.nextItem);
    forall q | q in copies ensures q.0 in branches {
      assert q == (q.0, q.1);
      StockCopyKeys(m, restaurant, src, v, ids, m.nextItem, q.0, q.1);
    }
  }

  /** Branch by branch. */
  method CopyStockRows(m: Menu, restaurant: int, src: int, v: int, ids: seq<int>) returns (table: map<(int, int), Stock>)
    ensures table == m.stock + StockCopies(m, restaurant, src, v, ids, m.nextItem)
  {
    ghost var copies := StockCopies(m, restaurant, src, v, ids, m.nextItem);
    ghost var done: set<int> := {};
    var todo := set b | b in m.branches && m.branches[b].restaurant == restaurant && !m.branches[b].deleted;
    table := m.stock;
    while todo != {}
      invariant forall b :: b in todo ==> b in m.branches && m.branches[b].restaurant == restaurant && !m.branches[b].deleted
      invariant forall b :: b in m.branches && m.branches[b].restaurant == restaurant && !m.branches[b].deleted ==> b in done || b in todo
      invariant table == m.stock + StockOf(copies, done)
    {
      var b := PickFrom(todo);
      StockGrows(m, restaurant, src, v, ids, done, b);
      MergeGrows(m.stock, StockOf(copies, done), BranchStock(m, b, src, v, ids, m.nextItem, |ids|));
      table := CopyBranchStock(m, b, src, v, ids, m.nextItem, table);
      done := done + {b};
      todo := todo - {b};
    }
    StockOfAll(m, restaurant, src, v, ids, done);
  }

  /** One availability row for every undeleted branch of the restaurant and every copied item. */
  method CopyStock(m: Menu, restaurant: int, src: int, v: int) returns (table: map<(int, int), Stock>)
    ensures table == NewStock(m, restaurant, src, v)
  {
    table := CopyStockRows(m, restaurant, src, v, ItemList(m, src));
  }

  // ---------- putting the tables together ----------

  lemma NotCovered(m: Menu, src: int, catalog: Catalog)
    requires (exists c :: c in CategoriesOf(m, src) && !Translated(catalog, m.categories[c].code))
             || (exists i :: i in ItemsOf(m, src) && CatalogTexts(catalog, m.items[i].code) == map[])
             || (exists o :: o in ChoicesOf(m, src) && Terms(catalog, m.choices[o].name) == {})
    ensures !Covers(catalog, m, src)
  {
  }

  lemma IsCovered(m: Menu, src: int, catalog: Catalog)
    requires !(exists c :: c in CategoriesOf(m, src) && !Translated(catalog, m.categories[c].code))
    requires !(exists i :: i in ItemsOf(m, src) && CatalogTexts(catalog, m.items[i].code) == map[])
    requires !(exists o :: o in ChoicesOf(m, src) && Terms(catalog, m.choices[o].name) == {})
    ensures Covers(catalog, m, src)
  {
    forall c | c in CategoriesOf(m, src) ensures Translated(catalog, m.categories[c].code) {}
  }

  lemma RefusalIs(m: Menu, src: int, catalog: Catalog, aliases: set<Alias>)
    requires Covers(catalog, m, src)
    requires forall i :: 0 <= i < |ItemList(m, src)| ==> ItemList(m, src)[i] in m.items
    requires aliases == AliasCopies(m, ItemList(m, src), m.nextItem, m.nextVersion, catalog)
    ensures Refusal(m, src, catalog) == if AliasClash(aliases) then Some(PublishConflict) else None
  {
  }

  lemma RefusalWithout(m: Menu, src: int, catalog: Catalog)
    ensures !Covers(catalog, m, src) ==> Refusal(m, src, catalog) == Some(MissingTranslation)
  {
  }

  /** Publishing writes these statuses and pointers and nothing else. */
  lemma PublishIs(m: Menu, restaurant: int, v: int, versions: map<int, Version>)
    requires var current := PublishedBelow(m.versions, restaurant, v, m.nextVersion);
      versions == SetStatus(if current.Some? then SetStatus(m.versions, current.value, Archived) else m.versions, v, Published)
    ensures m.(versions := versions, branches := Activate(m.branches, restaurant, v)) == PublishVersion(m, restaurant, v)
  {
  }

  ghost predicate RowsAre(m: Menu, src: int, catalogVersion: string, c: Menu) {
    && c.categories == NewCategories(m, src, m.nextVersion) && c.nextCategory == m.nextCategory + |CategoryList(m, src)|
    && c.items == NewItems(m, src, m.nextVersion, catalogVersion) && c.nextItem == m.nextItem + |ItemList(m, src)|
    && c.groups == NewGroups(m, src, m.nextVersion) && c.nextGroup == m.nextGroup + |GroupList(m, src)|
    && c.choices == NewChoices(m, src) && c.nextChoice == m.nextChoice + |ChoiceList(m, src)|
  }

  ghost predicate TextsAre(m: Menu, src: int, catalog: Catalog, c: Menu) {
    && c.itemTexts == NewItemTexts(m, src, catalog) && c.aliases == NewAliases(m, src, m.nextVersion, catalog)
    && c.groupTexts == NewGroupTexts(m, src) && c.choiceTexts == NewChoiceTexts(m, src, catalog)
  }

  ghost predicate SameRowTables(a: Menu, b: Menu) {
    && a.categories == b.categories && a.nextCategory == b.nextCategory && a.items == b.items && a.nextItem == b.nextItem
    && a.groups == b.groups && a.nextGroup == b.nextGroup && a.choices == b.choices && a.nextChoice == b.nextChoice
  }

  ghost predicate SameTexts(a: Menu, b: Menu) {
    a.itemTexts == b.itemTexts && a.aliases == b.aliases && a.groupTexts == b.groupTexts && a.choiceTexts == b.choiceTexts
  }

  ghost predicate SamePairs(a: Menu, b: Menu) {
    && a.versions == b.versions && a.nextVersion == b.nextVersion && a.branches == b.branches
    && a.declarations == b.declarations && a.links == b.links && a.stock == b.stock
  }

  lemma SameMenu(a: Menu, b: Menu)
    requires SameRowTables(a, b) && SameTexts(a, b) && SamePairs(a, b)
    ensures a == b
  {
  }

  lemma RowsAssembled(m: Menu, restaurant: int, number: int, src: int, catalog: Catalog, c: Menu)
    requires RowsAre(m, src, catalog.version, c)
    ensures SameRowTables(c, Cloned(m, restaurant, number, src, catalog))
  {
  }

  lemma TextsAssembled(m: Menu, restaurant: int, number: int, src: int, catalog: Catalog, c: Menu)
    requires TextsAre(m, src, catalog, c)
    ensures SameTexts(c, Cloned(m, restaurant, number, src, catalog))
  {
  }

  lemma PairsAssembled(m: Menu, restaurant: int, number: int, src: int, catalog: Catalog, c: Menu)
    requires c.versions == m.versions[m.nextVersion := Version(restaurant, number, DraftMenu)]
    requires c.nextVersion == m.nextVersion + 1 && c.branches == m.branches && c.declarations == NewDeclarations(m, src, m.nextVersion)
    requires c.links == NewLinks(m, src, m.nextVersion) && c.stock == NewStock(m, restaurant, src, m.nextVersion)
    ensures SamePairs(c, Cloned(m, restaurant, number, src, catalog))
  {
  }

  /** Collects what each row shows, row by row. */
  method Collect<T>(rows: seq<int>, f: int -> seq<T>) returns (records: seq<T>)
    ensures records == FlatMap(rows, f)
  {
    records := [];
    for n := 0 to |rows|
      invariant records + FlatMap(rows[n..], f) == FlatMap(rows, f)
    {
      assert rows[n..][1..] == rows[n + 1..] && rows[n..][0] == rows[n];
      records := records + f(rows[n]);
    }
  }

  /** The copied tables with ids of their own, and the maps from old to new ids. */
  datatype RowCopies = RowCopies(
    categories: map<int, Category>, nextCategory: int, items: map<int, Item>, nextItem: int, itemMap: map<int, int>,
    groups: map<int, Group>, nextGroup: int, groupMap: map<int, int>, groupTexts: set<Text>, choices: map<int, Choice>, nextChoice: int)

  /** Copies categories, items, groups and options, unless the catalog misses a translation. */
  method CopyRows(m: Menu, src: int, v: int, catalog: Catalog) returns (r: Option<RowCopies>)
    requires Keys(m.categories, m.nextCategory) && Keys(m.items, m.nextItem) && Keys(m.choices, m.nextChoice)
    ensures r.Some? <==> Covers(catalog, m, src)
    ensures r.Some? ==> r.value.categories == NewCategories(m, src, v) && r.value.nextCategory == m.nextCategory + |CategoryList(m, src)|
    ensures r.Some? ==> r.value.items == NewItems(m, src, v, catalog.version) && r.value.nextItem == m.nextItem + |ItemList(m, src)|
    ensures r.Some? ==> r.value.groups == NewGroups(m, src, v) && r.value.nextGroup == m.nextGroup + |GroupList(m, src)|
    ensures r.Some? ==> r.value.choices == NewChoices(m, src) && r.value.nextChoice == m.nextChoice + |ChoiceList(m, src)|
    ensures r.Some? ==> r.value.itemMap == ItemMap(m, src) && r.value.groupMap == GroupMap(m, src)
    ensures r.Some? ==> r.value.groupTexts == NewGroupTexts(m, src)
  {
    var categories, nextCategory, categoryMap, untranslated := CopyCategories(m, src, v, catalog);
    if untranslated {
      NotCovered(m, src, catalog);
      return None;
    }
    var items, nextItem, itemMap, unnamed := CopyItems(m, src, v, categoryMap, catalog);
    if unnamed {
      NotCovered(m, src, catalog);
      return None;
    }
    var groups, nextGroup, groupMap, groupTexts := CopyGroups(m, src, v);
    var choices, nextChoice, unknown := CopyChoices(m, src, groupMap, catalog);
    if unknown {
      NotCovered(m, src, catalog);
      return None;
    }
    IsCovered(m, src, catalog);
    r := Some(RowCopies(categories, nextCategory, items, nextItem, itemMap, groups, nextGroup, groupMap, groupTexts, choices, nextChoice));
  }

  /** The texts and aliases with those of the copies added, and whether two copies own one alias. */
  method CopyTexts(m: Menu, src: int, v: int, catalog: Catalog)
    returns (itemTexts: set<Text>, aliases: set<Alias>, choiceTexts: set<Text>, clash: bool)
    requires Covers(catalog, m, src) && v == m.nextVersion
    ensures itemTexts == NewItemTexts(m, src, catalog) && aliases == NewAliases(m, src, v, catalog)
    ensures choiceTexts == NewChoiceTexts(m, src, catalog)
    ensures Refusal(m, src, catalog) == if clash then Some(PublishConflict) else None
  {
    ListsInTables(m, src);
    itemTexts := CopyItemTexts(m, ItemList(m, src), catalog);
    itemTexts := m.itemTexts + itemTexts;
    var oldAliases := CopyOldAliases(m, ItemList(m, src), v);
    var newAliases := CopyCatalogAliases(m, ItemList(m, src), v, catalog);
    aliases := m.aliases + (oldAliases + newAliases);
    choiceTexts := CopyChoiceTexts(m, ChoiceList(m, src), catalog);
    choiceTexts := m.choiceTexts + choiceTexts;
    clash := AliasClash(oldAliases + newAliases);
    RefusalIs(m, src, catalog, oldAliases + newAliases);
  }

  /** Copies every table of a version. */
  method CloneTables(m: Menu, restaurant: int, src: int, catalog: Catalog) returns (r: Result<Menu, MenuError>)
    requires CategoriesOwned(m) && Keys(m.items, m.nextItem) && Keys(m.choices, m.nextChoice) && DeclarationsOwned(m) && LinksOwned(m)
    ensures r == CloneDraft(m, restaurant, NextNumber(m, restaurant), src, catalog)
  {
    var v, number := m.nextVersion, NextNumber(m, restaurant);
    var rows := CopyRows(m, src, v, catalog);
    RefusalWithout(m, src, catalog);
    if rows.None? { return Err(MissingTranslation); }
    var c := rows.value;
    var declarations := CopyDeclarations(m, src, v, c.itemMap);
    var links := CopyLinks(m, src, v, c.itemMap, c.groupMap);
    var stock := CopyStock(m, restaurant, src, v);
    var itemTexts, aliases, choiceTexts, clash := CopyTexts(m, src, v, catalog);
    if clash { return Err(PublishConflict); }
    var clone := Menu(m.versions[v := Version(restaurant, number, DraftMenu)], v + 1, m.branches, c.categories, c.nextCategory,
                      c.items, c.nextItem, c.groups, c.nextGroup, c.choices, c.nextChoice, declarations, links, stock,
                      itemTexts, aliases, c.groupTexts, choiceTexts);
    RowsAssembled(m, restaurant, number, src, catalog, clone);
    TextsAssembled(m, restaurant, number, src, catalog, clone);
    PairsAssembled(m, restaurant, number, src, catalog, clone);
    SameMenu(clone, Cloned(m, restaurant, number, src, catalog));
    r := Ok(clone);
  }

  // ---------- the repository and the service ----------

  class MenuRepository {
    /** The tables; a unit of work replaces the ones it writes. */
    var menu: Menu

    constructor (menu: Menu)
      ensures this.menu == menu
    {
      this.menu := menu;
    }

    method ListItems(b: int, includeUnavailable: bool) returns (records: seq<ItemShown>)
      ensures records == View(menu, b, includeUnavailable)
    {
      var version := ActiveVersion(menu, b);
      if version.None? { return []; }
      var m := menu;
      records := Collect(ListedItems(m, version.value), i => ShowIfOffered(m, b, i, includeUnavailable));
    }

    method PublishForRestaurant(restaurant: int, v: int)
      modifies this
      ensures menu == PublishVersion(old(menu), restaurant, v)
    {
      var current := PublishedBelow(menu.versions, restaurant, v, menu.nextVersion);
      var m, versions := menu, menu.versions;
      if current.Some? && current.value in versions {
        versions := versions[current.value := versions[current.value].(status := Archived)];
      }
      if v in versions { versions := versions[v := versions[v].(status := Published)]; }
      PublishIs(m, restaurant, v, versions);
      menu := m.(versions := versions, branches := Activate(m.branches, restaurant, v));
    }

    /** Copies a version into a new draft; with an error the unit of work is rolled back. */
    method CloneDraft(restaurant: int, src: int, catalog: Catalog) returns (r: Result<int, MenuError>)
      requires CategoriesOwned(menu) && Keys(menu.items, menu.nextItem) && Keys(menu.choices, menu.nextChoice)
      requires DeclarationsOwned(menu) && LinksOwned(menu)
      modifies this
      ensures match MenuModel.CloneDraft(old(menu), restaurant, NextNumber(old(menu), restaurant), src, catalog)
              case Ok(cloned) => r == Ok(old(menu).nextVersion) && menu == cloned
              case Err(e) => r == Err(e) && menu == old(menu)
    {
      var v := menu.nextVersion;
      var cloned := CloneTables(menu, restaurant, src, catalog);
      if cloned.Err? { return Err(cloned.error); }
      menu := cloned.value;
      r := Ok(v);
    }

    // ---------- the management service ----------

    method CreateDraft(restaurant: int) returns (v: int)
      modifies this
      ensures menu == MenuModel.CreateDraft(old(menu), restaurant) && v == old(menu).nextVersion
    {
      v := menu.nextVersion;
      menu := menu.(versions := menu.versions[v := Version(restaurant, NextNumber(menu, restaurant), DraftMenu)], nextVersion := v + 1);
    }

    method Publish(restaurant: int, v: int) returns (r: Result<int, MenuError>)
      modifies this
      ensures MenuOutcome(menu, r) == MenuModel.Publish(old(menu), restaurant, v)
    {
      if v !in menu.versions || menu.versions[v].restaurant != restaurant { return Err(VersionNotFound); }
      if menu.versions[v].status != DraftMenu { return Err(NotADraft); }
      PublishForRestaurant(restaurant, v);
      r := Ok(v);
    }

    method PublishCatalog(restaurant: int, catalog: Catalog) returns (r: Result<PublishedCatalog, MenuError>)
      requires CategoriesOwned(menu) && Keys(menu.items, menu.nextItem) && Keys(menu.choices, menu.nextChoice)
      requires DeclarationsOwned(menu) && LinksOwned(menu)
      modifies this
      ensures MenuOutcome(menu, r) == MenuModel.PublishCatalog(old(menu), restaurant, catalog)
    {
      var current := CurrentVersion(menu, restaurant);
      if current.None? { return Err(VersionNotFound); }
      if Complete(menu, current.value, catalog.version) { return Ok(PublishedCatalog(current.value, true)); }
      var draft := CloneDraft(restaurant, current.value, catalog);
      if draft.Err? { return Err(draft.error); }
      PublishForRestaurant(restaurant, draft.value);
      r := Ok(PublishedCatalog(draft.value, false));
    }
  }
}
