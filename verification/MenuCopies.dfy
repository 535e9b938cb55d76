/** What the clone's tables hold, and that the clone is isomorphic to its source. */
module MenuCopies {
  import opened Wrappers
  import opened IdLists
  import opened MenuModel
  import opened MenuClone

  /** Old rows stay; the new rows are exactly the renamed ones. */
  ghost predicate Extends<T>(old': map<int, T>, table: map<int, T>, r: map<int, int>) {
    && (forall k :: k in old' ==> k in table && table[k] == old'[k])
    && (forall x :: x in r ==> r[x] in table && r[x] !in old')
    && (forall y :: y in table && y !in old' ==> exists x :: x in r && r[x] == y)
    && (forall x, y :: x in r && y in r && r[x] == r[y] ==> x == y)
  }

  lemma AddedRows<T>(table: map<int, T>, next: int, ids: seq<int>, rows: seq<T>)
    requires Keys(table, next) && Distinct(ids) && |rows| == |ids|
    ensures Extends(table, AddRows(table, rows, next), Numbering(ids, next))
    ensures Keys(AddRows(table, rows, next), next + |ids|)
    ensures forall x :: x in Numbering(ids, next) <==> x in ids
    ensures forall i | 0 <= i < |ids| :: Numbering(ids, next)[ids[i]] == next + i && AddRows(table, rows, next)[next + i] == rows[i]
  {
    AddRowsAt(table, rows, next);
    NumberingAt(ids, next);
    var t, r := AddRows(table, rows, next), Numbering(ids, next);
    forall x | x in r ensures r[x] in t && r[x] !in table {
      var i :| 0 <= i < |ids| && ids[i] == x;
    }
    forall y | y in t && y !in table ensures exists x :: x in r && r[x] == y {
      var x := ids[y - next];
      assert x in ids && r[x] == y;
    }
    forall x, y | x in r && y in r && r[x] == r[y] ensures x == y {
      var i :| 0 <= i < |ids| && ids[i] == x;
      var j :| 0 <= j < |ids| && ids[j] == y;
    }
  }

  lemma AscendingDistinct(ids: set<int>, bound: int)
    requires forall x :: x in ids ==> 0 <= x < bound
    ensures Distinct(Ascending(ids, bound)) && Increasing(Ascending(ids, bound))
    ensures forall x :: x in Ascending(ids, bound) <==> x in ids
  {
    AscendingLists(ids, bound);
  }

  lemma SortedDistinct(ids: set<int>, bound: int, keys: map<int, int>)
    requires forall x :: x in ids ==> 0 <= x < bound
    ensures Distinct(Sort(Ascending(ids, bound), keys))
    ensures forall x :: x in Sort(Ascending(ids, bound), keys) <==> x in ids
  {
    AscendingLists(ids, bound);
    SortMembers(Ascending(ids, bound), keys);
    MultisetDistinct(Sort(Ascending(ids, bound), keys), Ascending(ids, bound));
  }

  lemma RowOf<T>(table: map<int, T>, next: int, ids: seq<int>, rows: seq<T>, x: int) returns (i: int)
    requires Distinct(ids) && |rows| == |ids| && x in ids
    ensures 0 <= i < |ids| && ids[i] == x && x in Numbering(ids, next) && Numbering(ids, next)[x] in AddRows(table, rows, next)
    ensures AddRows(table, rows, next)[Numbering(ids, next)[x]] == rows[i]
  {
    AddRowsAt(table, rows, next);
    NumberingAt(ids, next);
    i :| 0 <= i < |ids| && ids[i] == x;
  }

  // ---------- the four copied tables ----------

  /** The renaming of a copied table: every id of the version, in order, to the next free ids. */
  lemma Numbers(ids: set<int>, bound: int)
    requires forall x :: x in ids ==> 0 <= x < bound
    ensures Numbering(Ascending(ids, bound), bound).Keys == ids && Monotone(Numbering(Ascending(ids, bound), bound))
    ensures forall x :: x in ids ==> Numbering(Ascending(ids, bound), bound)[x] >= bound
    ensures forall i | 0 <= i < |Ascending(ids, bound)| ::
              Ascending(ids, bound)[i] in ids && Numbering(Ascending(ids, bound), bound)[Ascending(ids, bound)[i]] == bound + i
  {
    var s := Ascending(ids, bound);
    AscendingDistinct(ids, bound);
    NumberingMonotone(s, bound);
    AscendingIn(ids, bound);
    forall x ensures x in Numbering(s, bound).Keys <==> x in ids {}
    forall x | x in ids ensures Numbering(s, bound)[x] >= bound {
      assert x in s;
      var i :| 0 <= i < |s| && s[i] == x;
    }
  }

  lemma IndexIn(ids: set<int>, bound: int, x: int) returns (i: int)
    requires (forall y :: y in ids ==> 0 <= y < bound) && x in ids
    ensures 0 <= i < |Ascending(ids, bound)| && Ascending(ids, bound)[i] == x
  {
    AscendingDistinct(ids, bound);
    assert x in Ascending(ids, bound);
    i :| 0 <= i < |Ascending(ids, bound)| && Ascending(ids, bound)[i] == x;
  }

  /** The row a new id stands for is renamed to it. */
  lemma CopyIs(ids: set<int>, bound: int, p: int, x: int)
    requires (forall y :: y in ids ==> 0 <= y < bound) && CopyOf(Ascending(ids, bound), bound, p, x)
    ensures x in ids && x in Numbering(Ascending(ids, bound), bound) && Numbering(Ascending(ids, bound), bound)[x] == p
  {
    Numbers(ids, bound);
    assert Ascending(ids, bound)[p - bound] == x;
  }

  ghost predicate CategoriesCopied(m: Menu, table: map<int, Category>, src: int, v: int) {
    && Extends(m.categories, table, CategoryMap(m, src)) && CategoryMap(m, src).Keys == CategoriesOf(m, src)
    && forall x :: x in CategoriesOf(m, src) ==> table[CategoryMap(m, src)[x]] == m.categories[x].(version := v)
  }

  lemma CategoryRow(m: Menu, src: int, v: int, x: int)
    requires Keys(m.categories, m.nextCategory) && x in CategoriesOf(m, src)
    ensures x in CategoryMap(m, src) && CategoryMap(m, src)[x] in NewCategories(m, src, v)
    ensures NewCategories(m, src, v)[CategoryMap(m, src)[x]] == m.categories[x].(version := v)
  {
    ListsInTables(m, src);
    SortedDistinct(CategoriesOf(m, src), m.nextCategory, CategoryOrder(m));
    var rows := CategoryCopies(m, CategoryList(m, src), v);
    var i := RowOf(m.categories, m.nextCategory, CategoryList(m, src), rows, x);
    assert rows[i] == m.categories[x].(version := v);
  }

  lemma CopiesCategories(m: Menu, src: int, v: int)
    requires Keys(m.categories, m.nextCategory)
    ensures CategoriesCopied(m, NewCategories(m, src, v), src, v)
    ensures Keys(NewCategories(m, src, v), m.nextCategory + |CategoryList(m, src)|)
  {
    ListsInTables(m, src);
    SortedDistinct(CategoriesOf(m, src), m.nextCategory, CategoryOrder(m));
    AddedRows(m.categories, m.nextCategory, CategoryList(m, src), CategoryCopies(m, CategoryList(m, src), v));
    forall x ensures x in CategoryMap(m, src).Keys <==> x in CategoriesOf(m, src) {}
    forall x | x in CategoriesOf(m, src) ensures NewCategories(m, src, v)[CategoryMap(m, src)[x]] == m.categories[x].(version := v) {
      CategoryRow(m, src, v, x);
    }
  }

  ghost predicate ItemsCopied(m: Menu, table: map<int, Item>, src: int, v: int, catalogVersion: string) {
    && Extends(m.items, table, ItemMap(m, src)) && ItemMap(m, src).Keys == ItemsOf(m, src) && Monotone(ItemMap(m, src))
    && forall x :: x in ItemsOf(m, src) ==> table[ItemMap(m, src)[x]] == CopyItem(m.items[x], v, CategoryMap(m, src), catalogVersion)
  }

  lemma ItemRow(m: Menu, src: int, v: int, catalogVersion: string, x: int)
    requires Keys(m.items, m.nextItem) && x in ItemsOf(m, src)
    ensures x in ItemMap(m, src) && ItemMap(m, src)[x] in NewItems(m, src, v, catalogVersion)
    ensures NewItems(m, src, v, catalogVersion)[ItemMap(m, src)[x]] == CopyItem(m.items[x], v, CategoryMap(m, src), catalogVersion)
  {
    ListsInTables(m, src);
    AscendingDistinct(ItemsOf(m, src), m.nextItem);
    var rows := ItemCopies(m, ItemList(m, src), v, CategoryMap(m, src), catalogVersion);
    var i := RowOf(m.items, m.nextItem, ItemList(m, src), rows, x);
    assert rows[i] == CopyItem(m.items[x], v, CategoryMap(m, src), catalogVersion);
  }

  lemma CopiesItems(m: Menu, src: int, v: int, catalogVersion: string)
    requires Keys(m.items, m.nextItem)
    ensures ItemsCopied(m, NewItems(m, src, v, catalogVersion), src, v, catalogVersion)
    ensures Keys(NewItems(m, src, v, catalogVersion), m.nextItem + |ItemList(m, src)|)
  {
    ListsInTables(m, src);
    AscendingDistinct(ItemsOf(m, src), m.nextItem);
    AddedRows(m.items, m.nextItem, ItemList(m, src), ItemCopies(m, ItemList(m, src), v, CategoryMap(m, src), catalogVersion));
    Numbers(ItemsOf(m, src), m.nextItem);
    forall x | x in ItemsOf(m, src) ensures NewItems(m, src, v, catalogVersion)[ItemMap(m, src)[x]] == CopyItem(m.items[x], v, CategoryMap(m, src), catalogVersion) {
      ItemRow(m, src, v, catalogVersion, x);
    }
  }

  ghost predicate GroupsCopied(m: Menu, table: map<int, Group>, src: int, v: int) {
    && Extends(m.groups, table, GroupMap(m, src)) && GroupMap(m, src).Keys == GroupsOf(m, src) && Monotone(GroupMap(m, src))
    && forall x :: x in GroupsOf(m, src) ==> table[GroupMap(m, src)[x]] == m.groups[x].(version := v)
  }

  lemma GroupRow(m: Menu, src: int, v: int, x: int)
    requires Keys(m.groups, m.nextGroup) && x in GroupsOf(m, src)
    ensures x in GroupMap(m, src) && GroupMap(m, src)[x] in NewGroups(m, src, v)
    ensures NewGroups(m, src, v)[GroupMap(m, src)[x]] == m.groups[x].(version := v)
  {
    ListsInTables(m, src);
    AscendingDistinct(GroupsOf(m, src), m.nextGroup);
    var rows := GroupCopies(m, GroupList(m, src), v);
    var i := RowOf(m.groups, m.nextGroup, GroupList(m, src), rows, x);
    assert rows[i] == m.groups[x].(version := v);
  }

  lemma CopiesGroups(m: Menu, src: int, v: int)
    requires Keys(m.groups, m.nextGroup)
    ensures GroupsCopied(m, NewGroups(m, src, v), src, v)
    ensures Keys(NewGroups(m, src, v), m.nextGroup + |GroupList(m, src)|)
  {
    ListsInTables(m, src);
    AscendingDistinct(GroupsOf(m, src), m.nextGroup);
    AddedRows(m.groups, m.nextGroup, GroupList(m, src), GroupCopies(m, GroupList(m, src), v));
    Numbers(GroupsOf(m, src), m.nextGroup);
    forall x | x in GroupsOf(m, src) ensures NewGroups(m, src, v)[GroupMap(m, src)[x]] == m.groups[x].(version := v) {
      GroupRow(m, src, v, x);
    }
  }

  ghost predicate ChoicesCopied(m: Menu, table: map<int, Choice>, src: int) {
    && Extends(m.choices, table, ChoiceMap(m, src)) && ChoiceMap(m, src).Keys == ChoicesOf(m, src) && Monotone(ChoiceMap(m, src))
    && forall x :: x in ChoicesOf(m, src) ==>
         table[ChoiceMap(m, src)[x]] == m.choices[x].(group := At(GroupMap(m, src), m.choices[x].group, 0))
  }

  lemma ChoiceRow(m: Menu, src: int, x: int)
    requires Keys(m.choices, m.nextChoice) && x in ChoicesOf(m, src)
    ensures x in ChoiceMap(m, src) && ChoiceMap(m, src)[x] in NewChoices(m, src)
    ensures NewChoices(m, src)[ChoiceMap(m, src)[x]] == m.choices[x].(group := At(GroupMap(m, src), m.choices[x].group, 0))
  {
    ListsInTables(m, src);
    AscendingDistinct(ChoicesOf(m, src), m.nextChoice);
    var rows := ChoiceCopies(m, ChoiceList(m, src), GroupMap(m, src));
    var i := RowOf(m.choices, m.nextChoice, ChoiceList(m, src), rows, x);
    assert rows[i] == m.choices[x].(group := At(GroupMap(m, src), m.choices[x].group, 0));
  }

  lemma CopiesChoices(m: Menu, src: int)
    requires Keys(m.choices, m.nextChoice)
    ensures ChoicesCopied(m, NewChoices(m, src), src)
    ensures Keys(NewChoices(m, src), m.nextChoice + |ChoiceList(m, src)|)
  {
    ListsInTables(m, src);
    AscendingDistinct(ChoicesOf(m, src), m.nextChoice);
    AddedRows(m.choices, m.nextChoice, ChoiceList(m, src), ChoiceCopies(m, ChoiceList(m, src), GroupMap(m, src)));
    Numbers(ChoicesOf(m, src), m.nextChoice);
    forall x | x in ChoicesOf(m, src) ensures NewChoices(m, src)[ChoiceMap(m, src)[x]] == m.choices[x].(group := At(GroupMap(m, src), m.choices[x].group, 0)) {
      ChoiceRow(m, src, x);
    }
  }

  // ---------- the tables keyed by pairs ----------

  lemma DeclarationAt(m: Menu, src: int, v: int, ids: seq<int>, base: int, p: int, x: int, a: int)
    requires CopyOf(ids, base, p, x)
    ensures (p, a) in DeclarationCopies(m, src, v, ids, base) <==> (x, a) in m.declarations && m.declarations[(x, a)].version == src
    ensures (p, a) in DeclarationCopies(m, src, v, ids, base) ==>
              DeclarationCopies(m, src, v, ids, base)[(p, a)] == m.declarations[(x, a)].(version := v)
  {
    var k := (x, a);
    assert CopyOf(ids, base, p, k.0);
  }

  lemma LinkAt(m: Menu, src: int, v: int, items: seq<int>, itemBase: int, groups: seq<int>, groupBase: int, p: int, x: int, q: int, g: int)
    requires CopyOf(items, itemBase, p, x) && CopyOf(groups, groupBase, q, g)
    ensures (p, q) in LinkCopies(m, src, v, items, itemBase, groups, groupBase)
       <==> (x, g) in m.links && m.links[(x, g)].version == src
    ensures (p, q) in LinkCopies(m, src, v, items, itemBase, groups, groupBase) ==>
              LinkCopies(m, src, v, items, itemBase, groups, groupBase)[(p, q)] == m.links[(x, g)].(version := v)
  {
    var k := (x, g);
    assert CopyOf(items, itemBase, p, k.0) && CopyOf(groups, groupBase, q, k.1);
  }

  lemma StockAt(m: Menu, restaurant: int, src: int, v: int, ids: seq<int>, base: int, b: int, p: int, x: int)
    requires b in m.branches && m.branches[b].restaurant == restaurant && !m.branches[b].deleted && CopyOf(ids, base, p, x)
    ensures (b, p) in StockCopies(m, restaurant, src, v, ids, base)
    ensures StockCopies(m, restaurant, src, v, ids, base)[(b, p)] == StockCopy(m, b, x, src, v)
  {
  }

  lemma HasCopy(ids: set<int>, bound: int, x: int)
    requires (forall y :: y in ids ==> 0 <= y < bound) && x in ids
    ensures x in Numbering(Ascending(ids, bound), bound)
    ensures CopyOf(Ascending(ids, bound), bound, Numbering(Ascending(ids, bound), bound)[x], x)
  {
    var i := IndexIn(ids, bound, x);
    Numbers(ids, bound);
  }

  /** A copied item carries its original's declarations. */
  lemma DeclarationCopy(m: Menu, src: int, v: int, x: int, a: int)
    requires DeclarationsOwned(m) && x in ItemsOf(m, src)
    ensures x in ItemMap(m, src) && ((ItemMap(m, src)[x], a) in NewDeclarations(m, src, v) <==> (x, a) in m.declarations)
    ensures (x, a) in m.declarations ==>
              NewDeclarations(m, src, v)[(ItemMap(m, src)[x], a)] == m.declarations[(x, a)].(version := v)
  {
    HasCopy(ItemsOf(m, src), m.nextItem, x);
    var p := ItemMap(m, src)[x];
    assert (p, a) !in m.declarations;
    DeclarationAt(m, src, v, ItemList(m, src), m.nextItem, p, x, a);
  }

  lemma DeclarationKeys(m: Menu, src: int, v: int, p: int, a: int)
    requires DeclarationsOwned(m) && (p, a) in NewDeclarations(m, src, v)
    ensures (p, a) in m.declarations || exists x :: x in ItemMap(m, src) && ItemMap(m, src)[x] == p
  {
    if (p, a) !in m.declarations {
      Numbers(ItemsOf(m, src), m.nextItem);
      var ids := ItemList(m, src);
      assert ItemMap(m, src)[ids[p - m.nextItem]] == p;
    }
  }

  lemma OldDeclarations(m: Menu, src: int, v: int, p: int, a: int)
    requires DeclarationsOwned(m) && p in m.items
    ensures (p, a) in NewDeclarations(m, src, v) <==> (p, a) in m.declarations
    ensures (p, a) in m.declarations ==> NewDeclarations(m, src, v)[(p, a)] == m.declarations[(p, a)]
  {
  }

  /** A copied item offers exactly the copies of its original's groups. */
  lemma LinkCopy(m: Menu, src: int, v: int, x: int, g: int)
    requires LinksOwned(m) && x in ItemsOf(m, src) && g in GroupsOf(m, src)
    ensures x in ItemMap(m, src) && g in GroupMap(m, src)
    ensures (ItemMap(m, src)[x], GroupMap(m, src)[g]) in NewLinks(m, src, v) <==> (x, g) in m.links
    ensures (x, g) in m.links ==>
              NewLinks(m, src, v)[(ItemMap(m, src)[x], GroupMap(m, src)[g])] == m.links[(x, g)].(version := v)
  {
    HasCopy(ItemsOf(m, src), m.nextItem, x);
    HasCopy(GroupsOf(m, src), m.nextGroup, g);
    var p, q := ItemMap(m, src)[x], GroupMap(m, src)[g];
    assert (p, q) !in m.links;
    LinkAt(m, src, v, ItemList(m, src), m.nextItem, GroupList(m, src), m.nextGroup, p, x, q, g);
  }

  lemma LinkKeys(m: Menu, src: int, v: int, p: int, q: int)
    requires LinksOwned(m) && (p, q) in NewLinks(m, src, v)
    ensures (p, q) in m.links
            || exists x, g :: x in ItemMap(m, src) && ItemMap(m, src)[x] == p && g in GroupMap(m, src) && GroupMap(m, src)[g] == q
  {
    if (p, q) !in m.links {
      Numbers(ItemsOf(m, src), m.nextItem);
      Numbers(GroupsOf(m, src), m.nextGroup);
      assert ItemMap(m, src)[ItemList(m, src)[p - m.nextItem]] == p;
      assert GroupMap(m, src)[GroupList(m, src)[q - m.nextGroup]] == q;
    }
  }

  /** Every undeleted branch of the restaurant gets a row for the copy: the dish's own, or available. */
  lemma StockCopied(m: Menu, restaurant: int, src: int, v: int, b: int, x: int)
    requires StockOwned(m) && x in ItemsOf(m, src) && b in m.branches
    requires m.branches[b].restaurant == restaurant && !m.branches[b].deleted
    ensures x in ItemMap(m, src) && (b, ItemMap(m, src)[x]) in NewStock(m, restaurant, src, v)
    ensures NewStock(m, restaurant, src, v)[(b, ItemMap(m, src)[x])]
         == if (b, x) in m.stock then m.stock[(b, x)].(version := v) else Stock(v, true, None, None)
  {
    HasCopy(ItemsOf(m, src), m.nextItem, x);
    StockAt(m, restaurant, src, v, ItemList(m, src), m.nextItem, b, ItemMap(m, src)[x], x);
  }

  lemma StockCopyKeys(m: Menu, restaurant: int, src: int, v: int, ids: seq<int>, base: int, b: int, p: int)
    requires (b, p) in StockCopies(m, restaurant, src, v, ids, base)
    ensures b in m.branches && m.branches[b].restaurant == restaurant && !m.branches[b].deleted && base <= p < base + |ids|
    ensures StockCopies(m, restaurant, src, v, ids, base)[(b, p)] == StockCopy(m, b, ids[p - base], src, v)
    ensures StockCopies(m, restaurant, src, v, ids, base)[(b, p)].version == v
  {
  }

  lemma StockKeys(m: Menu, restaurant: int, src: int, v: int, b: int, p: int)
    requires StockOwned(m) && (b, p) in NewStock(m, restaurant, src, v)
    ensures if (b, p) in m.stock then NewStock(m, restaurant, src, v)[(b, p)] == m.stock[(b, p)]
            else b in m.branches && m.branches[b].restaurant == restaurant
                 && m.nextItem <= p < m.nextItem + |ItemList(m, src)| && NewStock(m, restaurant, src, v)[(b, p)].version == v
  {
    var copies := StockCopies(m, restaurant, src, v, ItemList(m, src), m.nextItem);
    if (b, p) in copies { StockCopyKeys(m, restaurant, src, v, ItemList(m, src), m.nextItem, b, p); }
  }

  /** The new ids of each copied table. */
  lemma NewIds(m: Menu, src: int, v: int, catalogVersion: string)
    ensures forall p :: m.nextItem <= p < m.nextItem + |ItemList(m, src)| ==>
              p in NewItems(m, src, v, catalogVersion) && NewItems(m, src, v, catalogVersion)[p].version == v
    ensures forall p :: m.nextGroup <= p < m.nextGroup + |GroupList(m, src)| ==> p in NewGroups(m, src, v)
    ensures forall p :: m.nextChoice <= p < m.nextChoice + |ChoiceList(m, src)| ==> p in NewChoices(m, src)
  {
    ListsInTables(m, src);
    var items := ItemCopies(m, ItemList(m, src), v, CategoryMap(m, src), catalogVersion);
    AddRowsAt(m.items, items, m.nextItem);
    AddRowsAt(m.groups, GroupCopies(m, GroupList(m, src), v), m.nextGroup);
    AddRowsAt(m.choices, ChoiceCopies(m, ChoiceList(m, src), GroupMap(m, src)), m.nextChoice);
    forall p | m.nextItem <= p < m.nextItem + |ItemList(m, src)| ensures NewItems(m, src, v, catalogVersion)[p].version == v {
      assert AddRows(m.items, items, m.nextItem)[m.nextItem + (p - m.nextItem)] == items[p - m.nextItem];
    }
  }
}
