/**
 What a branch shows, in terms of the tables alone: which dishes, in which order,
 with which fields, allergens and modifiers.
 */
module MenuViews {
  import opened Wrappers
  import opened IdLists
  import opened MenuModel

  // ---------- lists of rows ----------

  /** Earlier by the key, then by id. */
  ghost predicate Earlier(keys: int -> int, x: int, y: int) {
    keys(x) < keys(y) || (keys(x) == keys(y) && x < y)
  }

  /** Exactly these ids, each once, in order. */
  ghost predicate Enumerates(ids: seq<int>, all: set<int>, keys: int -> int) {
    && (forall x :: x in ids <==> x in all)
    && (forall p, q :: 0 <= p < q < |ids| ==> Earlier(keys, ids[p], ids[q]))
  }

  lemma SortEnumerates(ids: set<int>, bound: int, keys: map<int, int>, f: int -> int)
    requires forall x :: x in ids ==> 0 <= x < bound && x in keys && f(x) == keys[x]
    ensures Enumerates(Sort(Ascending(ids, bound), keys), ids, f)
  {
    var listed := Ascending(ids, bound);
    var sorted := Sort(listed, keys);
    AscendingLists(ids, bound);
    SortSorts(listed, keys);
    SortMembers(listed, keys);
    SortDistinct(listed, keys);
    ElementsIn(sorted, ids);
    forall p, q | 0 <= p < q < |sorted| ensures Earlier(f, sorted[p], sorted[q]) {
      assert sorted[p] in ids && sorted[q] in ids && sorted[p] != sorted[q];
    }
  }

  lemma SortDistinct(s: seq<int>, keys: map<int, int>)
    requires Increasing(s)
    ensures Distinct(Sort(s, keys))
  {
    assert Distinct(s);
    MultisetDistinct(Sort(s, keys), s);
  }

  /** The listed ids that are kept. */
  function Kept(s: seq<int>, keep: set<int>): seq<int> {
    if s == [] then [] else if s[0] in keep then [s[0]] + Kept(s[1..], keep) else Kept(s[1..], keep)
  }

  lemma RestEnumerates(s: seq<int>, all: set<int>, keys: int -> int)
    requires s != [] && Enumerates(s, all, keys)
    ensures s[0] in all && Enumerates(s[1..], all - {s[0]}, keys)
    ensures forall x :: x in s[1..] ==> Earlier(keys, s[0], x)
  {
    var rest := s[1..];
    assert s[0] in s;
    forall x | x in rest ensures Earlier(keys, s[0], x) {
      var k :| 0 <= k < |rest| && rest[k] == x;
      assert s[k + 1] == x;
    }
    forall x ensures x in rest <==> x in all - {s[0]} {
      assert x in s <==> x == s[0] || x in rest;
    }
  }

  lemma ConsEnumerates(x: int, s: seq<int>, all: set<int>, keys: int -> int)
    requires Enumerates(s, all, keys) && forall y :: y in s ==> Earlier(keys, x, y)
    ensures Enumerates([x] + s, all + {x}, keys)
  {
    var t := [x] + s;
    forall p, q | 0 <= p < q < |t| ensures Earlier(keys, t[p], t[q]) {
      assert t[q] == s[q - 1] && s[q - 1] in s;
    }
  }

  lemma {:induction false} KeptEnumerates(s: seq<int>, keep: set<int>, all: set<int>, keys: int -> int)
    requires Enumerates(s, all, keys)
    ensures Enumerates(Kept(s, keep), all * keep, keys)
    ensures forall x :: x in Kept(s, keep) ==> x in s
  {
    if s != [] {
      RestEnumerates(s, all, keys);
      KeptEnumerates(s[1..], keep, all - {s[0]}, keys);
      if s[0] in keep {
        ConsEnumerates(s[0], Kept(s[1..], keep), (all - {s[0]}) * keep, keys);
        assert (all - {s[0]}) * keep + {s[0]} == all * keep;
      } else {
        assert (all - {s[0]}) * keep == all * keep;
      }
    }
  }

  /** Rows that contribute one element each, or nothing. */
  lemma {:induction false} FlatMapKept<T>(s: seq<int>, keep: set<int>, f: int -> seq<T>, g: int -> T)
    requires forall x :: x in s ==> f(x) == if x in keep then [g(x)] else []
    ensures |FlatMap(s, f)| == |Kept(s, keep)|
    ensures forall p :: 0 <= p < |Kept(s, keep)| ==> FlatMap(s, f)[p] == g(Kept(s, keep)[p])
  {
    if s != [] {
      var x0 := s[0];
      assert x0 in s;
      forall x | x in s[1..] ensures f(x) == if x in keep then [g(x)] else [] { assert x in s; }
      FlatMapKept(s[1..], keep, f, g);
      if s[0] in keep {
        assert FlatMap(s, f) == [g(s[0])] + FlatMap(s[1..], f);
      } else {
        assert FlatMap(s, f) == FlatMap(s[1..], f);
      }
    }
  }

  lemma {:induction false} KeptAll(s: seq<int>, keep: set<int>)
    requires forall x :: x in s ==> x in keep
    ensures Kept(s, keep) == s
  {
    if s != [] {
      var x0 := s[0];
      assert x0 in s && s == [x0] + s[1..];
      forall x | x in s[1..] ensures x in keep { assert x in s; }
      KeptAll(s[1..], keep);
    }
  }

  // ---------- the options of a group ----------

  /** Option o as it is shown. */
  ghost predicate ChoiceRow(m: Menu, o: int, row: ChoiceShown) {
    && o in m.choices && row.code == m.choices[o].code && row.name == m.choices[o].name
    && row.delta == m.choices[o].delta && row.active == m.choices[o].active
  }

  ghost function ChoiceKey(m: Menu): int -> int {
    o => if o in m.choices then m.choices[o].sortOrder else 0
  }

  /** Exactly the options of the group, by sort order and then id, with their own code, name, price and activity. */
  ghost predicate ChoicesShown(m: Menu, g: int, ids: seq<int>, rows: seq<ChoiceShown>) {
    && Enumerates(ids, (set o | o in m.choices && m.choices[o].group == g), ChoiceKey(m))
    && |rows| == |ids| && forall p :: 0 <= p < |ids| ==> ChoiceRow(m, ids[p], rows[p])
  }

  ghost function ChoiceOf(m: Menu): int -> ChoiceShown {
    o => if o in m.choices then ChoiceShown(m.choices[o].code, m.choices[o].name, m.choices[o].delta, m.choices[o].active)
         else ChoiceShown("", "", 0, false)
  }

  lemma ChoicesAreShown(m: Menu, g: int) returns (ids: seq<int>)
    requires Keys(m.choices, m.nextChoice)
    ensures ChoicesShown(m, g, ids, ShowChoices(m, ListedChoices(m, g)))
  {
    ids := ListedChoices(m, g);
    SortEnumerates(ChoicesIn(m, g), m.nextChoice, ChoiceOrder(m), ChoiceKey(m));
    ChoiceRows(m, ids);
  }

  lemma ChoiceRows(m: Menu, ids: seq<int>)
    requires forall o :: o in ids ==> o in m.choices
    ensures |ShowChoices(m, ids)| == |ids| && forall p :: 0 <= p < |ids| ==> ChoiceRow(m, ids[p], ShowChoices(m, ids)[p])
  {
    KeptAll(ids, m.choices.Keys);
    FlatMapKept(ids, m.choices.Keys, o => ShowChoice(m, o), ChoiceOf(m));
    forall p | 0 <= p < |ids| ensures ChoiceRow(m, ids[p], ShowChoices(m, ids)[p]) {
      assert ids[p] in ids;
    }
  }

  // ---------- the groups of a dish ----------

  ghost predicate GroupRow(m: Menu, g: int, row: GroupShown) {
    && g in m.groups && row.code == m.groups[g].code && row.name == m.groups[g].name
    && row.required == m.groups[g].required && row.minimum == m.groups[g].minimum && row.maximum == m.groups[g].maximum
    && row.active == m.groups[g].active
    && exists ids :: ChoicesShown(m, g, ids, row.choices)
  }

  ghost function LinkKey(m: Menu, item: int): int -> int {
    g => if (item, g) in m.links then m.links[(item, g)].sortOrder else 0
  }

  /** Exactly the groups linked to the dish, by the links' sort order and then id. */
  ghost predicate GroupsShown(m: Menu, item: int, ids: seq<int>, rows: seq<GroupShown>) {
    && Enumerates(ids, (set g | g in m.groups && (item, g) in m.links), LinkKey(m, item))
    && |rows| == |ids| && forall p :: 0 <= p < |ids| ==> GroupRow(m, ids[p], rows[p])
  }

  lemma GroupsAreShown(m: Menu, item: int) returns (ids: seq<int>)
    requires Keys(m.groups, m.nextGroup) && Keys(m.choices, m.nextChoice)
    ensures GroupsShown(m, item, ids, Modifiers(m, item))
  {
    ids := ListedGroups(m, item);
    SortEnumerates(GroupsWith(m, item), m.nextGroup, LinkOrder(m, item), LinkKey(m, item));
    KeptAll(ids, m.groups.Keys);
    FlatMapKept(ids, m.groups.Keys, g => ShowGroup(m, g), GroupOf(m));
    forall p | 0 <= p < |ids| ensures GroupRow(m, ids[p], Modifiers(m, item)[p]) {
      var g := ids[p];
      assert g in ids;
      GroupIsShown(m, g);
    }
  }

  ghost function GroupOf(m: Menu): int -> GroupShown {
    g => if g in m.groups then ShowGroup(m, g)[0] else GroupShown("", "", false, 0, 0, false, [])
  }

  lemma GroupIsShown(m: Menu, g: int)
    requires Keys(m.choices, m.nextChoice) && g in m.groups
    ensures GroupRow(m, g, GroupOf(m)(g))
  {
    var ids := ChoicesAreShown(m, g);
    assert ChoicesShown(m, g, ids, GroupOf(m)(g).choices);
  }

  // ---------- the dishes of a branch ----------

  /** The branch points at this version, which is its restaurant's and published. */
  ghost predicate Serves(m: Menu, b: int, v: int) {
    && b in m.branches && m.branches[b].menu == Some(v)
    && v in m.versions && m.versions[v].restaurant == m.branches[b].restaurant && m.versions[v].status == Published
  }

  /** The dish is active and no row of this branch says otherwise. */
  ghost predicate OnSale(m: Menu, b: int, i: int) {
    i in m.items && m.items[i].active && !((b, i) in m.stock && !m.stock[(b, i)].available)
  }

  ghost function ItemKey(m: Menu): int -> int {
    i => if i in m.items && m.items[i].category in m.categories then m.categories[m.items[i].category].sortOrder else 0
  }

  /** The allergens declared for the dish, and nothing else, as they are declared. */
  ghost predicate AllergensShown(m: Menu, i: int, shown: map<int, AllergenShown>) {
    forall a ::
      && (a in shown <==> (i, a) in m.declarations)
      && (a in shown ==> && shown[a].declaration == m.declarations[(i, a)].declaration && shown[a].source == m.declarations[(i, a)].source
                         && shown[a].verifiedAt == m.declarations[(i, a)].verifiedAt)
  }

  ghost predicate ItemRow(m: Menu, b: int, i: int, row: ItemShown) {
    && i in m.items && m.items[i].category in m.categories
    && row.code == m.items[i].code && row.categoryCode == m.categories[m.items[i].category].code
    && row.price == m.items[i].price && row.currency == m.items[i].currency && row.active == m.items[i].active
    && (row.available <==> OnSale(m, b, i))
    && row.attributes == m.items[i].attributes - {CATALOG_VERSION}
    && AllergensShown(m, i, row.allergens)
    && exists groups :: GroupsShown(m, i, groups, row.modifiers)
  }

  /**
   Exactly the dishes of the version that are on sale, or all of them when those that are
   not are asked for, each once, by their category's sort order and then id.
   */
  ghost predicate DishesShown(m: Menu, b: int, v: int, all: bool, ids: seq<int>, rows: seq<ItemShown>) {
    && Enumerates(ids, (set i | i in m.items && m.items[i].version == v && (all || OnSale(m, b, i))), ItemKey(m))
    && |rows| == |ids| && forall p :: 0 <= p < |ids| ==> ItemRow(m, b, ids[p], rows[p])
  }

  ghost function ItemOf(m: Menu, b: int): int -> ItemShown {
    i => if i in m.items then ShowItem(m, b, i) else ItemShown("", "", 0, "", false, false, map[], map[], [])
  }

  lemma ItemIsShown(m: Menu, b: int, i: int)
    requires CategoriesOwned(m) && Keys(m.groups, m.nextGroup) && Keys(m.choices, m.nextChoice) && i in m.items
    ensures ItemRow(m, b, i, ShowItem(m, b, i))
  {
    var groups := GroupsAreShown(m, i);
    assert GroupsShown(m, i, groups, ShowItem(m, b, i).modifiers);
    AllergensAreShown(m, i);
  }

  lemma AllergensAreShown(m: Menu, i: int)
    ensures AllergensShown(m, i, Allergens(m, i))
  {
    forall a ensures a in Allergens(m, i) <==> (i, a) in m.declarations {
      if (i, a) in m.declarations {
        var k := (i, a);
        assert k in m.declarations && k.0 == i && k.1 == a;
      }
    }
  }

  lemma VersionIsShown(m: Menu, b: int, v: int, all: bool) returns (ids: seq<int>)
    requires CategoriesOwned(m) && Keys(m.items, m.nextItem) && Keys(m.groups, m.nextGroup) && Keys(m.choices, m.nextChoice)
    ensures DishesShown(m, b, v, all, ids, ShowVersion(m, b, v, all))
  {
    var listed := ListedItems(m, v);
    var keep := set i | i in m.items && (all || Available(m, b, i));
    SortEnumerates(ItemsOf(m, v), m.nextItem, ItemOrder(m), ItemKey(m));
    ids := Kept(listed, keep);
    KeptEnumerates(listed, keep, ItemsOf(m, v), ItemKey(m));
    assert ItemsOf(m, v) * keep == set i | i in m.items && m.items[i].version == v && (all || OnSale(m, b, i));
    ItemRows(m, b, all, listed, keep);
  }

  lemma ItemRows(m: Menu, b: int, all: bool, listed: seq<int>, keep: set<int>)
    requires CategoriesOwned(m) && Keys(m.groups, m.nextGroup) && Keys(m.choices, m.nextChoice)
    requires keep == set i | i in m.items && (all || Available(m, b, i))
    ensures var ids, rows := Kept(listed, keep), FlatMap(listed, i => ShowIfOffered(m, b, i, all));
      |rows| == |ids| && forall p :: 0 <= p < |ids| ==> ItemRow(m, b, ids[p], rows[p])
  {
    FlatMapKept(listed, keep, i => ShowIfOffered(m, b, i, all), ItemOf(m, b));
    KeptIn(listed, keep);
    var ids := Kept(listed, keep);
    forall p | 0 <= p < |ids| ensures ids[p] in keep && ItemRow(m, b, ids[p], ItemOf(m, b)(ids[p])) {
      assert ids[p] in ids;
      ItemIsShown(m, b, ids[p]);
    }
  }

  lemma {:induction false} KeptIn(s: seq<int>, keep: set<int>)
    ensures forall x :: x in Kept(s, keep) ==> x in keep
  {
    if s != [] { KeptIn(s[1..], keep); }
  }

  /** What a branch shows is exactly the menu it serves, row by row as the tables have it; a branch that serves none shows nothing. */
  lemma ViewShowsTables(m: Menu, b: int, all: bool)
    requires CategoriesOwned(m) && Keys(m.items, m.nextItem) && Keys(m.groups, m.nextGroup) && Keys(m.choices, m.nextChoice)
    ensures forall v :: Serves(m, b, v) ==> exists ids :: DishesShown(m, b, v, all, ids, View(m, b, all))
    ensures (forall v :: !Serves(m, b, v)) ==> View(m, b, all) == []
  {
    forall v | Serves(m, b, v) ensures exists ids :: DishesShown(m, b, v, all, ids, View(m, b, all)) {
      var ids := VersionIsShown(m, b, v, all);
      assert View(m, b, all) == ShowVersion(m, b, v, all);
      assert DishesShown(m, b, v, all, ids, View(m, b, all));
    }
    if ActiveVersion(m, b).Some? { assert Serves(m, b, ActiveVersion(m, b).value); }
  }
}
