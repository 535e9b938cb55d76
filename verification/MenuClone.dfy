/**
 Cloning a menu version is a graph isomorphism: the copied rows stand in the same
 relations and the same order as the originals, so every query sees them alike.
 */
module MenuClone {
  import opened Wrappers
  import opened IdLists
  import opened MenuModel

  // ---------- isomorphic versions ----------

  /** Renames the ids of one set onto another, keeping their order. */
  ghost predicate Renames(r: map<int, int>, from: set<int>, to: set<int>) {
    && Monotone(r) && r.Keys == from
    && (forall x :: x in from ==> r[x] in to)
    && (forall y :: y in to ==> exists x :: x in from && r[x] == y)
  }

  /** The renaming, cut down to some of its ids. */
  ghost predicate RenamesWithin(r: map<int, int>, from: set<int>, to: set<int>) {
    && from <= r.Keys
    && (forall x :: x in from ==> r[x] in to)
    && (forall y :: y in to ==> exists x :: x in from && r[x] == y)
  }

  ghost predicate SameItem(m: Menu, x: int, m': Menu, y: int) {
    && x in m.items && y in m'.items
    && var a, b := m.items[x], m'.items[y];
    && a.code == b.code && a.price == b.price && a.currency == b.currency && a.active == b.active
    && a.attributes - {CATALOG_VERSION} == b.attributes - {CATALOG_VERSION}
    && a.category in m.categories && b.category in m'.categories
    && m.categories[a.category].code == m'.categories[b.category].code
    && m.categories[a.category].sortOrder == m'.categories[b.category].sortOrder
  }

  ghost predicate SameGroup(m: Menu, x: int, m': Menu, y: int) {
    x in m.groups && y in m'.groups && m'.groups[y] == m.groups[x].(version := m'.groups[y].version)
  }

  ghost predicate SameChoice(m: Menu, x: int, m': Menu, y: int) {
    x in m.choices && y in m'.choices && m'.choices[y] == m.choices[x].(group := m'.choices[y].group)
  }

  ghost predicate SameLink(m: Menu, item: int, group: int, m': Menu, item': int, group': int) {
    (item, group) in m.links && (item', group') in m'.links
    && m.links[(item, group)].sortOrder == m'.links[(item', group')].sortOrder
  }

  datatype Renaming = Renaming(items: map<int, int>, groups: map<int, int>, choices: map<int, int>)

  /** Version w of m' holds what version v of m holds, under the renaming. */
  ghost predicate Isomorphic(m: Menu, v: int, m': Menu, w: int, r: Renaming) {
    && Renames(r.items, ItemsOf(m, v), ItemsOf(m', w))
    && Renames(r.groups, GroupsOf(m, v), GroupsOf(m', w))
    && Renames(r.choices, ChoicesOf(m, v), ChoicesOf(m', w))
    && (forall x :: x in r.items ==> SameItem(m, x, m', r.items[x]) && Allergens(m, x) == Allergens(m', r.items[x]))
    && (forall g :: g in r.groups ==> SameGroup(m, g, m', r.groups[g]))
    && (forall o :: o in r.choices ==> SameChoice(m, o, m', r.choices[o]))
    && (forall x :: x in r.items ==> RenamesWithin(r.groups, GroupsWith(m, x), GroupsWith(m', r.items[x])))
    && (forall x, g :: x in r.items && g in r.groups && g in GroupsWith(m, x) ==> SameLink(m, x, g, m', r.items[x], r.groups[g]))
    && (forall g :: g in r.groups ==> RenamesWithin(r.choices, ChoicesIn(m, g), ChoicesIn(m', r.groups[g])))
  }

  /** All ids lie below the counters. */
  ghost predicate Counted(m: Menu) {
    Keys(m.items, m.nextItem) && Keys(m.groups, m.nextGroup) && Keys(m.choices, m.nextChoice)
  }

  lemma SortedRenamed(r: map<int, int>, ids: set<int>, bound: int, ids': set<int>, bound': int, keys: map<int, int>, keys': map<int, int>)
    requires Monotone(r) && RenamesWithin(r, ids, ids')
    requires (forall x :: x in ids ==> 0 <= x < bound) && (forall y :: y in ids' ==> 0 <= y < bound')
    requires forall x :: x in ids ==> SameKey(x, r, keys, keys')
    ensures Sort(Ascending(ids', bound'), keys') == Rename(Sort(Ascending(ids, bound), keys), r)
  {
    AscendingRenamed(ids, bound, ids', bound', r);
    AscendingLists(ids, bound);
    SortRenamed(Ascending(ids, bound), r, keys, keys');
  }

  lemma ChoicesListedAlike(m: Menu, v: int, m': Menu, w: int, r: Renaming, g: int)
    requires Counted(m) && Counted(m') && Isomorphic(m, v, m', w, r) && g in r.groups
    ensures ListedChoices(m', r.groups[g]) == Rename(ListedChoices(m, g), r.choices)
    ensures forall o :: o in ListedChoices(m, g) ==> o in r.choices
  {
    var g' := r.groups[g];
    assert RenamesWithin(r.choices, ChoicesIn(m, g), ChoicesIn(m', g'));
    forall o | o in ChoicesIn(m, g) ensures SameKey(o, r.choices, ChoiceOrder(m), ChoiceOrder(m')) {
      assert SameChoice(m, o, m', r.choices[o]);
    }
    SortedRenamed(r.choices, ChoicesIn(m, g), m.nextChoice, ChoicesIn(m', g'), m'.nextChoice, ChoiceOrder(m), ChoiceOrder(m'));
    SortMembers(Ascending(ChoicesIn(m, g), m.nextChoice), ChoiceOrder(m));
    AscendingBelow(ChoicesIn(m, g), m.nextChoice);
  }

  lemma GroupAlike(m: Menu, v: int, m': Menu, w: int, r: Renaming, g: int)
    requires Counted(m) && Counted(m') && Isomorphic(m, v, m', w, r) && g in r.groups
    ensures ShowGroup(m', r.groups[g]) == ShowGroup(m, g)
  {
    ChoicesListedAlike(m, v, m', w, r, g);
    forall o | o in ListedChoices(m, g) ensures ShowChoice(m', r.choices[o]) == ShowChoice(m, o) {
      assert SameChoice(m, o, m', r.choices[o]);
    }
    FlatMapRenamed(ListedChoices(m, g), r.choices, o => ShowChoice(m, o), o => ShowChoice(m', o));
    assert SameGroup(m, g, m', r.groups[g]);
  }

  lemma GroupsListedAlike(m: Menu, v: int, m': Menu, w: int, r: Renaming, x: int)
    requires Counted(m) && Counted(m') && Isomorphic(m, v, m', w, r) && x in r.items
    ensures ListedGroups(m', r.items[x]) == Rename(ListedGroups(m, x), r.groups)
    ensures forall g :: g in ListedGroups(m, x) ==> g in r.groups
  {
    var y := r.items[x];
    assert RenamesWithin(r.groups, GroupsWith(m, x), GroupsWith(m', y));
    forall g | g in GroupsWith(m, x) ensures SameKey(g, r.groups, LinkOrder(m, x), LinkOrder(m', y)) {
      assert SameLink(m, x, g, m', y, r.groups[g]);
    }
    SortedRenamed(r.groups, GroupsWith(m, x), m.nextGroup, GroupsWith(m', y), m'.nextGroup, LinkOrder(m, x), LinkOrder(m', y));
    SortMembers(Ascending(GroupsWith(m, x), m.nextGroup), LinkOrder(m, x));
    AscendingBelow(GroupsWith(m, x), m.nextGroup);
  }

  /** modifier_configuration answers alike for an item and its copy. */
  lemma ModifiersAlike(m: Menu, v: int, m': Menu, w: int, r: Renaming, x: int)
    requires Counted(m) && Counted(m') && Isomorphic(m, v, m', w, r) && x in r.items
    ensures Modifiers(m', r.items[x]) == Modifiers(m, x)
  {
    GroupsListedAlike(m, v, m', w, r, x);
    forall g | g in ListedGroups(m, x) ensures ShowGroup(m', r.groups[g]) == ShowGroup(m, g) {
      GroupAlike(m, v, m', w, r, g);
    }
    FlatMapRenamed(ListedGroups(m, x), r.groups, g => ShowGroup(m, g), g => ShowGroup(m', g));
  }

  ghost predicate SameStock(m: Menu, m': Menu, b: int, r: map<int, int>) {
    forall x :: x in r ==> ((b, x) in m.stock ==> m.stock[(b, x)].available) == ((b, r[x]) in m'.stock ==> m'.stock[(b, r[x])].available)
  }

  lemma ItemAlike(m: Menu, v: int, m': Menu, w: int, r: Renaming, b: int, x: int, all: bool)
    requires Counted(m) && Counted(m') && Isomorphic(m, v, m', w, r) && SameStock(m, m', b, r.items) && x in r.items
    ensures ShowIfOffered(m', b, r.items[x], all) == ShowIfOffered(m, b, x, all)
  {
    ModifiersAlike(m, v, m', w, r, x);
    assert SameItem(m, x, m', r.items[x]) && Allergens(m, x) == Allergens(m', r.items[x]);
    assert Available(m', b, r.items[x]) == Available(m, b, x);
  }

  lemma ItemsListedAlike(m: Menu, v: int, m': Menu, w: int, r: Renaming)
    requires Counted(m) && Counted(m') && Isomorphic(m, v, m', w, r)
    ensures ListedItems(m', w) == Rename(ListedItems(m, v), r.items)
    ensures forall x :: x in ListedItems(m, v) ==> x in r.items
  {
    forall x | x in ItemsOf(m, v) ensures SameKey(x, r.items, ItemOrder(m), ItemOrder(m')) {
      assert SameItem(m, x, m', r.items[x]);
    }
    SortedRenamed(r.items, ItemsOf(m, v), m.nextItem, ItemsOf(m', w), m'.nextItem, ItemOrder(m), ItemOrder(m'));
    SortMembers(Ascending(ItemsOf(m, v), m.nextItem), ItemOrder(m));
    AscendingBelow(ItemsOf(m, v), m.nextItem);
  }

  /** Isomorphic versions show the same items in the same order with the same modifiers. */
  lemma VersionsShownAlike(m: Menu, v: int, m': Menu, w: int, r: Renaming, b: int, all: bool)
    requires Counted(m) && Counted(m') && Isomorphic(m, v, m', w, r) && SameStock(m, m', b, r.items)
    ensures ShowVersion(m', b, w, all) == ShowVersion(m, b, v, all)
  {
    ItemsListedAlike(m, v, m', w, r);
    forall x | x in ListedItems(m, v) ensures ShowIfOffered(m', b, r.items[x], all) == ShowIfOffered(m, b, x, all) {
      ItemAlike(m, v, m', w, r, b, x, all);
    }
    FlatMapRenamed(ListedItems(m, v), r.items, i => ShowIfOffered(m, b, i, all), i => ShowIfOffered(m', b, i, all));
  }
}
