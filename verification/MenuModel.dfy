/**
 The published menu as tables of rows, the queries a branch reads it through and
 the two writes that change it: cloning a version into a draft and publishing one.
 */
module MenuModel {
  import opened Wrappers
  import opened IdLists

  datatype Locale = ZhCN | YueHantHK | EnHK | OtherLocale(tag: string)

  const LOCALES: set<Locale> := {ZhCN, YueHantHK, EnHK}

  datatype VersionStatus = DraftMenu | Published | Archived

  datatype Version = Version(restaurant: int, number: int, status: VersionStatus)

  datatype Branch = Branch(restaurant: int, active: bool, deleted: bool, menu: Option<int>)

  datatype Category = Category(version: int, code: string, sortOrder: int, active: bool)

  datatype Item = Item(version: int, category: int, code: string, price: nat, currency: string, active: bool,
                       attributes: map<string, string>)

  datatype Group = Group(version: int, code: string, name: string, required: bool, minimum: nat, maximum: nat,
                         sortOrder: int, active: bool)

  /** A modifier option. */
  datatype Choice = Choice(group: int, code: string, name: string, delta: nat, sortOrder: int, active: bool)

  /** An allergen declaration of an item, keyed by item and allergen. */
  datatype Declared = Declared(version: int, declaration: string, source: string, verifiedAt: Option<int>)

  /** A modifier group offered with an item, keyed by item and group. */
  datatype Link = Link(version: int, sortOrder: int)

  /** A branch's availability row for an item, keyed by branch and item. */
  datatype Stock = Stock(version: int, available: bool, soldOutUntil: Option<int>, reason: Option<string>)

  /** A translation: which row, in which locale. */
  datatype Text = Text(owner: int, locale: Locale)

  datatype Alias = Alias(item: int, version: int, locale: Locale, normalized: string)

  datatype Menu = Menu(
    versions: map<int, Version>, nextVersion: int,
    branches: map<int, Branch>,
    categories: map<int, Category>, nextCategory: int,
    items: map<int, Item>, nextItem: int,
    groups: map<int, Group>, nextGroup: int,
    choices: map<int, Choice>, nextChoice: int,
    declarations: map<(int, int), Declared>,
    links: map<(int, int), Link>,
    stock: map<(int, int), Stock>,
    itemTexts: set<Text>, aliases: set<Alias>, groupTexts: set<Text>, choiceTexts: set<Text>)

  /** What the catalog says of an item: the normalized aliases of every locale it is translated to. */
  type Texts = map<Locale, set<string>>

  datatype Catalog = Catalog(version: string, categories: map<string, set<Locale>>, items: map<string, Texts>,
                             terms: map<string, set<Locale>>)

  const CATALOG_VERSION := "multilingual_catalog_version"

  datatype MenuError = VersionNotFound | NotADraft | PublishConflict | MissingTranslation

  // ---------- what the schema promises ----------

  ghost predicate Keys<T>(table: map<int, T>, next: int) {
    1 <= next && forall id :: id in table ==> 1 <= id < next
  }

  ghost predicate CategoriesOwned(m: Menu) {
    Keys(m.categories, m.nextCategory)
    && forall i :: i in m.items ==> m.items[i].category in m.categories && m.categories[m.items[i].category].version == m.items[i].version
  }

  ghost predicate ChoicesOwned(m: Menu) {
    Keys(m.choices, m.nextChoice) && Keys(m.groups, m.nextGroup) && forall o :: o in m.choices ==> m.choices[o].group in m.groups
  }

  ghost predicate DeclarationsOwned(m: Menu) {
    Keys(m.items, m.nextItem)
    && forall i, a :: (i, a) in m.declarations ==> i in m.items && m.declarations[(i, a)].version == m.items[i].version
  }

  ghost predicate LinksOwned(m: Menu) {
    Keys(m.items, m.nextItem) && Keys(m.groups, m.nextGroup)
    && forall i, g :: (i, g) in m.links ==> i in m.items && g in m.groups
                                            && m.links[(i, g)].version == m.items[i].version == m.groups[g].version
  }

  ghost predicate StockOwned(m: Menu) {
    Keys(m.items, m.nextItem)
    && forall b, i :: (b, i) in m.stock ==> i in m.items && m.stock[(b, i)].version == m.items[i].version
  }

  ghost predicate TextsOwned(m: Menu) {
    && (forall t :: t in m.itemTexts ==> t.owner in m.items)
    && (forall t :: t in m.groupTexts ==> t.owner in m.groups)
    && (forall t :: t in m.choiceTexts ==> t.owner in m.choices)
  }

  ghost predicate AliasesOwned(m: Menu) {
    forall a :: a in m.aliases ==> a.item in m.items && a.version == m.items[a.item].version
  }

  ghost predicate BranchesOwned(m: Menu) {
    forall b :: b in m.branches && m.branches[b].menu.Some? ==>
      m.branches[b].menu.value in m.versions && m.versions[m.branches[b].menu.value].restaurant == m.branches[b].restaurant
  }

  ghost predicate StockTenants(m: Menu) {
    forall b, i :: (b, i) in m.stock ==>
      b in m.branches && i in m.items && m.items[i].version in m.versions
      && m.versions[m.items[i].version].restaurant == m.branches[b].restaurant
  }

  ghost predicate VersionsKnown(m: Menu) {
    && (forall c :: c in m.categories ==> m.categories[c].version in m.versions)
    && (forall i :: i in m.items ==> m.items[i].version in m.versions)
    && (forall g :: g in m.groups ==> m.groups[g].version in m.versions)
  }

  ghost predicate OnePublished(versions: map<int, Version>) {
    forall v, w | v in versions && w in versions ::
      versions[v].status == Published && versions[w].status == Published && versions[v].restaurant == versions[w].restaurant ==> v == w
  }

  ghost predicate Numbered(versions: map<int, Version>) {
    forall v, w | v in versions && w in versions ::
      versions[v].restaurant == versions[w].restaurant && versions[v].number == versions[w].number ==> v == w
  }

  ghost predicate CodesUnique(items: map<int, Item>) {
    forall i, j :: i in items && j in items && items[i].version == items[j].version && items[i].code == items[j].code ==> i == j
  }

  ghost predicate CategoryCodesUnique(categories: map<int, Category>) {
    forall i, j :: (i in categories && j in categories
                    && categories[i].version == categories[j].version && categories[i].code == categories[j].code) ==> i == j
  }

  ghost predicate GroupCodesUnique(groups: map<int, Group>) {
    forall i, j :: i in groups && j in groups && groups[i].version == groups[j].version && groups[i].code == groups[j].code ==> i == j
  }

  ghost predicate ChoiceCodesUnique(choices: map<int, Choice>) {
    forall i, j :: i in choices && j in choices && choices[i].group == choices[j].group && choices[i].code == choices[j].code ==> i == j
  }

  ghost predicate AliasesUnique(aliases: set<Alias>) {
    forall a, b | a in aliases && b in aliases ::
      a.version == b.version && a.locale == b.locale && a.normalized == b.normalized ==> a.item == b.item
  }

  /** Primary, foreign and unique keys of the tables below; an allergen is an opaque id. */
  ghost predicate Schema(m: Menu) {
    && Keys(m.versions, m.nextVersion) && OnePublished(m.versions) && Numbered(m.versions) && VersionsKnown(m)
    && CategoriesOwned(m) && ChoicesOwned(m) && DeclarationsOwned(m) && LinksOwned(m) && StockOwned(m) && StockTenants(m)
    && TextsOwned(m) && AliasesOwned(m) && BranchesOwned(m) && CodesUnique(m.items) && AliasesUnique(m.aliases)
    && CategoryCodesUnique(m.categories) && GroupCodesUnique(m.groups) && ChoiceCodesUnique(m.choices)
  }

  // ---------- the queries ----------

  function ItemsOf(m: Menu, v: int): set<int> {
    set i | i in m.items && m.items[i].version == v
  }

  function CategoriesOf(m: Menu, v: int): set<int> {
    set c | c in m.categories && m.categories[c].version == v
  }

  function GroupsOf(m: Menu, v: int): set<int> {
    set g | g in m.groups && m.groups[g].version == v
  }

  function ChoicesOf(m: Menu, v: int): set<int> {
    set o | o in m.choices && m.choices[o].group in GroupsOf(m, v)
  }

  function CategoryOrder(m: Menu): map<int, int> {
    map c | c in m.categories :: m.categories[c].sortOrder
  }

  function ItemOrder(m: Menu): map<int, int> {
    map i | i in m.items :: At(CategoryOrder(m), m.items[i].category, 0)
  }

  /** Items of a version by category sort order, then id. */
  function ListedItems(m: Menu, v: int): seq<int> {
    Sort(Ascending(ItemsOf(m, v), m.nextItem), ItemOrder(m))
  }

  function GroupsWith(m: Menu, item: int): set<int> {
    set g | g in m.groups && (item, g) in m.links
  }

  function LinkOrder(m: Menu, item: int): map<int, int> {
    map g | g in m.groups && (item, g) in m.links :: m.links[(item, g)].sortOrder
  }

  /** The groups offered with an item by link sort order, then id. */
  function ListedGroups(m: Menu, item: int): seq<int> {
    Sort(Ascending(GroupsWith(m, item), m.nextGroup), LinkOrder(m, item))
  }

  function ChoicesIn(m: Menu, group: int): set<int> {
    set o | o in m.choices && m.choices[o].group == group
  }

  function ChoiceOrder(m: Menu): map<int, int> {
    map o | o in m.choices :: m.choices[o].sortOrder
  }

  /** The options of a group by sort order, then id. */
  function ListedChoices(m: Menu, group: int): seq<int> {
    Sort(Ascending(ChoicesIn(m, group), m.nextChoice), ChoiceOrder(m))
  }

  datatype ChoiceShown = ChoiceShown(code: string, name: string, delta: nat, active: bool)

  datatype GroupShown = GroupShown(code: string, name: string, required: bool, minimum: nat, maximum: nat, active: bool,
                                   choices: seq<ChoiceShown>)

  datatype AllergenShown = AllergenShown(declaration: string, source: string, verifiedAt: Option<int>)

  datatype ItemShown = ItemShown(code: string, categoryCode: string, price: nat, currency: string, active: bool, available: bool,
                                 attributes: map<string, string>, allergens: map<int, AllergenShown>, modifiers: seq<GroupShown>)

  function ShowChoice(m: Menu, o: int): seq<ChoiceShown> {
    if o !in m.choices then []
    else [ChoiceShown(m.choices[o].code, m.choices[o].name, m.choices[o].delta, m.choices[o].active)]
  }

  function ShowChoices(m: Menu, ids: seq<int>): seq<ChoiceShown> {
    FlatMap(ids, o => ShowChoice(m, o))
  }

  function ShowGroup(m: Menu, g: int): seq<GroupShown> {
    if g !in m.groups then []
    else
      var group := m.groups[g];
      [GroupShown(group.code, group.name, group.required, group.minimum, group.maximum, group.active,
                  ShowChoices(m, ListedChoices(m, g)))]
  }

  /** What modifier_configuration answers for an item, without row ids. */
  function Modifiers(m: Menu, item: int): seq<GroupShown> {
    FlatMap(ListedGroups(m, item), g => ShowGroup(m, g))
  }

  /** The declarations of an item by allergen. */
  function Allergens(m: Menu, item: int): map<int, AllergenShown> {
    map k | k in m.declarations && k.0 == item ::
      k.1 := AllergenShown(m.declarations[k].declaration, m.declarations[k].source, m.declarations[k].verifiedAt)
  }

  function Available(m: Menu, b: int, item: int): bool
    requires item in m.items
  {
    m.items[item].active && ((b, item) in m.stock ==> m.stock[(b, item)].available)
  }

  function ShowItem(m: Menu, b: int, item: int): ItemShown
    requires item in m.items
  {
    var i := m.items[item];
    ItemShown(i.code, if i.category in m.categories then m.categories[i.category].code else "", i.price, i.currency, i.active,
              Available(m, b, item), i.attributes - {CATALOG_VERSION}, Allergens(m, item), Modifiers(m, item))
  }

  function ShowIfOffered(m: Menu, b: int, item: int, includeUnavailable: bool): seq<ItemShown> {
    if item in m.items && (includeUnavailable || Available(m, b, item)) then [ShowItem(m, b, item)] else []
  }

  /** The rows list_items answers for a version, each with its modifier configuration. */
  function ShowVersion(m: Menu, b: int, v: int, includeUnavailable: bool): seq<ItemShown> {
    FlatMap(ListedItems(m, v), i => ShowIfOffered(m, b, i, includeUnavailable))
  }

  /** The version a branch serves: only a published one of its own restaurant. */
  function ActiveVersion(m: Menu, b: int): Option<int> {
    if b !in m.branches || m.branches[b].menu.None? then None
    else
      var v := m.branches[b].menu.value;
      if v in m.versions && m.versions[v].restaurant == m.branches[b].restaurant && m.versions[v].status == Published then Some(v)
      else None
  }

  /** Everything a branch shows. */
  function View(m: Menu, b: int, includeUnavailable: bool): seq<ItemShown> {
    var v := ActiveVersion(m, b);
    if v.None? then [] else ShowVersion(m, b, v.value, includeUnavailable)
  }

  // ---------- publishing ----------

  /** The published version of a restaurant other than the given one, if any. */
  function PublishedBelow(versions: map<int, Version>, restaurant: int, other: int, bound: int): Option<int>
    decreases bound
  {
    if bound <= 0 then None
    else
      var found := PublishedBelow(versions, restaurant, other, bound - 1);
      if found.Some? then found
      else if bound - 1 in versions && bound - 1 != other && versions[bound - 1].restaurant == restaurant
              && versions[bound - 1].status == Published then Some(bound - 1)
      else None
  }

  function CurrentVersion(m: Menu, restaurant: int): Option<int> {
    PublishedBelow(m.versions, restaurant, -1, m.nextVersion)
  }

  predicate Live(b: Branch) {
    b.active && !b.deleted
  }

  function Activate(branches: map<int, Branch>, restaurant: int, v: int): map<int, Branch> {
    map b | b in branches ::
      if branches[b].restaurant == restaurant && Live(branches[b]) then branches[b].(menu := Some(v)) else branches[b]
  }

  function SetStatus(versions: map<int, Version>, v: int, status: VersionStatus): map<int, Version> {
    if v in versions then versions[v := versions[v].(status := status)] else versions
  }

  /** Archives the given current version, publishes v and points every live branch at it. */
  function Swap(m: Menu, restaurant: int, current: Option<int>, v: int): Menu {
    var archived := if current.Some? then SetStatus(m.versions, current.value, Archived) else m.versions;
    m.(versions := SetStatus(archived, v, Published), branches := Activate(m.branches, restaurant, v))
  }

  function PublishVersion(m: Menu, restaurant: int, v: int): Menu {
    Swap(m, restaurant, PublishedBelow(m.versions, restaurant, v, m.nextVersion), v)
  }

  // ---------- cloning ----------

  function HighestNumber(versions: map<int, Version>, restaurant: int, bound: int): int
    decreases bound
  {
    if bound <= 0 then 0
    else
      var below := HighestNumber(versions, restaurant, bound - 1);
      if bound - 1 in versions && versions[bound - 1].restaurant == restaurant && versions[bound - 1].number > below
      then versions[bound - 1].number else below
  }

  function NextNumber(m: Menu, restaurant: int): int {
    HighestNumber(m.versions, restaurant, m.nextVersion) + 1
  }

  /** The rows of a version in the order they are copied. */
  function CategoryList(m: Menu, src: int): seq<int> {
    Sort(Ascending(CategoriesOf(m, src), m.nextCategory), CategoryOrder(m))
  }

  function ItemList(m: Menu, src: int): seq<int> {
    Ascending(ItemsOf(m, src), m.nextItem)
  }

  function GroupList(m: Menu, src: int): seq<int> {
    Ascending(GroupsOf(m, src), m.nextGroup)
  }

  function ChoiceList(m: Menu, src: int): seq<int> {
    Ascending(ChoicesOf(m, src), m.nextChoice)
  }

  /** The old-to-new maps. */
  function CategoryMap(m: Menu, src: int): map<int, int> {
    Numbering(CategoryList(m, src), m.nextCategory)
  }

  function ItemMap(m: Menu, src: int): map<int, int> {
    Numbering(ItemList(m, src), m.nextItem)
  }

  function GroupMap(m: Menu, src: int): map<int, int> {
    Numbering(GroupList(m, src), m.nextGroup)
  }

  function ChoiceMap(m: Menu, src: int): map<int, int> {
    Numbering(ChoiceList(m, src), m.nextChoice)
  }

  function CategoryCopies(m: Menu, ids: seq<int>, v: int): (r: seq<Category>)
    requires forall i :: 0 <= i < |ids| ==> ids[i] in m.categories
    ensures |r| == |ids|
  {
    seq(|ids|, i requires 0 <= i < |ids| => m.categories[ids[i]].(version := v))
  }

  function CopyItem(i: Item, v: int, categories: map<int, int>, catalogVersion: string): Item {
    i.(version := v, category := At(categories, i.category, 0), attributes := i.attributes[CATALOG_VERSION := catalogVersion])
  }

  function ItemCopies(m: Menu, ids: seq<int>, v: int, categories: map<int, int>, catalogVersion: string): (r: seq<Item>)
    requires forall i :: 0 <= i < |ids| ==> ids[i] in m.items
    ensures |r| == |ids|
  {
    seq(|ids|, i requires 0 <= i < |ids| => CopyItem(m.items[ids[i]], v, categories, catalogVersion))
  }

  function GroupCopies(m: Menu, ids: seq<int>, v: int): (r: seq<Group>)
    requires forall i :: 0 <= i < |ids| ==> ids[i] in m.groups
    ensures |r| == |ids|
  {
    seq(|ids|, i requires 0 <= i < |ids| => m.groups[ids[i]].(version := v))
  }

  function ChoiceCopies(m: Menu, ids: seq<int>, groups: map<int, int>): (r: seq<Choice>)
    requires forall i :: 0 <= i < |ids| ==> ids[i] in m.choices
    ensures |r| == |ids|
  {
    seq(|ids|, i requires 0 <= i < |ids| => m.choices[ids[i]].(group := At(groups, m.choices[ids[i]].group, 0)))
  }

  /** New id p stands for row x of the copied list. */
  predicate CopyOf(ids: seq<int>, base: int, p: int, x: int) {
    base <= p < base + |ids| && ids[p - base] == x
  }

  function DeclarationCopies(m: Menu, src: int, v: int, ids: seq<int>, base: int): map<(int, int), Declared> {
    map p, k | base <= p < base + |ids| && k in m.declarations && CopyOf(ids, base, p, k.0) && m.declarations[k].version == src ::
      (p, k.1) := m.declarations[k].(version := v)
  }

  function LinkCopies(m: Menu, src: int, v: int, items: seq<int>, itemBase: int, groups: seq<int>, groupBase: int): map<(int, int), Link> {
    map p, q, k | itemBase <= p < itemBase + |items| && groupBase <= q < groupBase + |groups| && k in m.links
                  && CopyOf(items, itemBase, p, k.0) && CopyOf(groups, groupBase, q, k.1) && m.links[k].version == src ::
      (p, q) := m.links[k].(version := v)
  }

  /** Availability of a copied item: the old row's, or available. */
  function StockCopy(m: Menu, b: int, item: int, src: int, v: int): Stock {
    if (b, item) in m.stock && m.stock[(b, item)].version == src then m.stock[(b, item)].(version := v)
    else Stock(v, true, None, None)
  }

  function StockCopies(m: Menu, restaurant: int, src: int, v: int, ids: seq<int>, base: int): map<(int, int), Stock> {
    map b, p | b in m.branches && m.branches[b].restaurant == restaurant && !m.branches[b].deleted && base <= p < base + |ids| ::
      (b, p) := StockCopy(m, b, ids[p - base], src, v)
  }

  function CatalogTexts(catalog: Catalog, code: string): Texts {
    if code in catalog.items then catalog.items[code] else map[]
  }

  function ItemTextCopies(m: Menu, ids: seq<int>, base: int, catalog: Catalog): set<Text>
    requires forall i :: 0 <= i < |ids| ==> ids[i] in m.items
  {
    set p, locale | base <= p < base + |ids| && locale in CatalogTexts(catalog, m.items[ids[p - base]].code) :: Text(p, locale)
  }

  function OldAliasCopies(m: Menu, ids: seq<int>, base: int, v: int): set<Alias> {
    set p, a | base <= p < base + |ids| && a in m.aliases && CopyOf(ids, base, p, a.item) :: Alias(p, v, a.locale, a.normalized)
  }

  function CatalogAliases(m: Menu, ids: seq<int>, base: int, v: int, catalog: Catalog): set<Alias>
    requires forall i :: 0 <= i < |ids| ==> ids[i] in m.items
  {
    set p, locale, text | base <= p < base + |ids| && locale in CatalogTexts(catalog, m.items[ids[p - base]].code)
                          && text in CatalogTexts(catalog, m.items[ids[p - base]].code)[locale] ::
      Alias(p, v, locale, text)
  }

  /** Every old alias of an item with the catalog's aliases for its code. */
  function AliasCopies(m: Menu, ids: seq<int>, base: int, v: int, catalog: Catalog): set<Alias>
    requires forall i :: 0 <= i < |ids| ==> ids[i] in m.items
  {
    OldAliasCopies(m, ids, base, v) + CatalogAliases(m, ids, base, v, catalog)
  }

  function GroupTextCopies(count: nat, base: int): set<Text> {
    set g, locale | base <= g < base + count && locale in LOCALES :: Text(g, locale)
  }

  function Terms(catalog: Catalog, name: string): set<Locale> {
    if name in catalog.terms then catalog.terms[name] else {}
  }

  function ChoiceTextCopies(m: Menu, ids: seq<int>, base: int, catalog: Catalog): set<Text>
    requires forall i :: 0 <= i < |ids| ==> ids[i] in m.choices
  {
    set p, locale | base <= p < base + |ids| && locale in Terms(catalog, m.choices[ids[p - base]].name) :: Text(p, locale)
  }

  /** The catalog has some translation for everything the version holds. */
  predicate Covers(catalog: Catalog, m: Menu, src: int) {
    && (forall c | c in CategoriesOf(m, src) :: m.categories[c].code in catalog.categories && catalog.categories[m.categories[c].code] != {})
    && (forall i | i in ItemsOf(m, src) :: CatalogTexts(catalog, m.items[i].code) != map[])
    && (forall o | o in ChoicesOf(m, src) :: Terms(catalog, m.choices[o].name) != {})
  }

  /** Two items of the clone would own the same normalized alias in a locale. */
  predicate AliasClash(aliases: set<Alias>) {
    exists a, b | a in aliases && b in aliases :: a.locale == b.locale && a.normalized == b.normalized && a.item != b.item
  }

  lemma ListsInTables(m: Menu, src: int)
    ensures forall i :: 0 <= i < |CategoryList(m, src)| ==> CategoryList(m, src)[i] in m.categories
    ensures forall i :: 0 <= i < |ItemList(m, src)| ==> ItemList(m, src)[i] in m.items
    ensures forall i :: 0 <= i < |GroupList(m, src)| ==> GroupList(m, src)[i] in m.groups
    ensures forall i :: 0 <= i < |ChoiceList(m, src)| ==> ChoiceList(m, src)[i] in m.choices
  {
    SortedIn(CategoriesOf(m, src), m.nextCategory, CategoryOrder(m));
    AscendingIn(ItemsOf(m, src), m.nextItem);
    AscendingIn(GroupsOf(m, src), m.nextGroup);
    AscendingIn(ChoicesOf(m, src), m.nextChoice);
  }

  // ---------- the tables of the clone ----------

  function NewCategories(m: Menu, src: int, v: int): map<int, Category> {
    ListsInTables(m, src);
    AddRows(m.categories, CategoryCopies(m, CategoryList(m, src), v), m.nextCategory)
  }

  function NewItems(m: Menu, src: int, v: int, catalogVersion: string): map<int, Item> {
    ListsInTables(m, src);
    AddRows(m.items, ItemCopies(m, ItemList(m, src), v, CategoryMap(m, src), catalogVersion), m.nextItem)
  }

  function NewGroups(m: Menu, src: int, v: int): map<int, Group> {
    ListsInTables(m, src);
    AddRows(m.groups, GroupCopies(m, GroupList(m, src), v), m.nextGroup)
  }

  function NewChoices(m: Menu, src: int): map<int, Choice> {
    ListsInTables(m, src);
    AddRows(m.choices, ChoiceCopies(m, ChoiceList(m, src), GroupMap(m, src)), m.nextChoice)
  }

  function NewDeclarations(m: Menu, src: int, v: int): map<(int, int), Declared> {
    m.declarations + DeclarationCopies(m, src, v, ItemList(m, src), m.nextItem)
  }

  function NewLinks(m: Menu, src: int, v: int): map<(int, int), Link> {
    m.links + LinkCopies(m, src, v, ItemList(m, src), m.nextItem, GroupList(m, src), m.nextGroup)
  }

  function NewStock(m: Menu, restaurant: int, src: int, v: int): map<(int, int), Stock> {
    m.stock + StockCopies(m, restaurant, src, v, ItemList(m, src), m.nextItem)
  }

  function NewItemTexts(m: Menu, src: int, catalog: Catalog): set<Text> {
    ListsInTables(m, src);
    m.itemTexts + ItemTextCopies(m, ItemList(m, src), m.nextItem, catalog)
  }

  function NewAliases(m: Menu, src: int, v: int, catalog: Catalog): set<Alias> {
    ListsInTables(m, src);
    m.aliases + AliasCopies(m, ItemList(m, src), m.nextItem, v, catalog)
  }

  function NewGroupTexts(m: Menu, src: int): set<Text> {
    m.groupTexts + GroupTextCopies(|GroupList(m, src)|, m.nextGroup)
  }

  function NewChoiceTexts(m: Menu, src: int, catalog: Catalog): set<Text> {
    ListsInTables(m, src);
    m.choiceTexts + ChoiceTextCopies(m, ChoiceList(m, src), m.nextChoice, catalog)
  }

  /** The menu with version src copied to a new draft. */
  function Cloned(m: Menu, restaurant: int, number: int, src: int, catalog: Catalog): Menu {
    var v := m.nextVersion;
    Menu(
      m.versions[v := Version(restaurant, number, DraftMenu)], v + 1,
      m.branches,
      NewCategories(m, src, v), m.nextCategory + |CategoryList(m, src)|,
      NewItems(m, src, v, catalog.version), m.nextItem + |ItemList(m, src)|,
      NewGroups(m, src, v), m.nextGroup + |GroupList(m, src)|,
      NewChoices(m, src), m.nextChoice + |ChoiceList(m, src)|,
      NewDeclarations(m, src, v), NewLinks(m, src, v), NewStock(m, restaurant, src, v),
      NewItemTexts(m, src, catalog), NewAliases(m, src, v, catalog), NewGroupTexts(m, src), NewChoiceTexts(m, src, catalog))
  }

  /** Why the clone cannot be made: a missing translation, or the alias index. */
  function Refusal(m: Menu, src: int, catalog: Catalog): Option<MenuError> {
    ListsInTables(m, src);
    if !Covers(catalog, m, src) then Some(MissingTranslation)
    else if AliasClash(AliasCopies(m, ItemList(m, src), m.nextItem, m.nextVersion, catalog)) then Some(PublishConflict)
    else None
  }

  function CloneDraft(m: Menu, restaurant: int, number: int, src: int, catalog: Catalog): Result<Menu, MenuError>
  {
    var refusal := Refusal(m, src, catalog);
    if refusal.Some? then Err(refusal.value) else Ok(Cloned(m, restaurant, number, src, catalog))
  }

  // ---------- completeness ----------

  function LocalesOf(texts: set<Text>, owner: int): set<Locale> {
    set t | t in texts && t.owner == owner :: t.locale
  }

  function AliasLocales(aliases: set<Alias>, item: int): set<Locale> {
    set a | a in aliases && a.item == item :: a.locale
  }

  predicate ItemComplete(m: Menu, i: int, catalogVersion: string)
    requires i in m.items
  {
    && CATALOG_VERSION in m.items[i].attributes && m.items[i].attributes[CATALOG_VERSION] == catalogVersion
    && LocalesOf(m.itemTexts, i) == LOCALES && AliasLocales(m.aliases, i) == LOCALES
  }

  predicate Complete(m: Menu, v: int, catalogVersion: string) {
    && ItemsOf(m, v) != {}
    && (forall i | i in ItemsOf(m, v) :: ItemComplete(m, i, catalogVersion))
    && (forall g | g in GroupsOf(m, v) :: LocalesOf(m.groupTexts, g) == LOCALES)
    && (forall o | o in ChoicesOf(m, v) :: LocalesOf(m.choiceTexts, o) == LOCALES)
  }

  // ---------- the management service ----------

  datatype MenuOutcome<+T> = MenuOutcome(menu: Menu, result: Result<T, MenuError>)

  datatype PublishedCatalog = PublishedCatalog(version: int, replayed: bool)

  function CreateDraft(m: Menu, restaurant: int): Menu {
    m.(versions := m.versions[m.nextVersion := Version(restaurant, NextNumber(m, restaurant), DraftMenu)],
       nextVersion := m.nextVersion + 1)
  }

  function Publish(m: Menu, restaurant: int, v: int): MenuOutcome<int> {
    if v !in m.versions || m.versions[v].restaurant != restaurant then MenuOutcome(m, Err(VersionNotFound))
    else if m.versions[v].status != DraftMenu then MenuOutcome(m, Err(NotADraft))
    else MenuOutcome(PublishVersion(m, restaurant, v), Ok(v))
  }

  function PublishCatalog(m: Menu, restaurant: int, catalog: Catalog): MenuOutcome<PublishedCatalog>
  {
    var current := CurrentVersion(m, restaurant);
    if current.None? then MenuOutcome(m, Err(VersionNotFound))
    else if Complete(m, current.value, catalog.version) then MenuOutcome(m, Ok(PublishedCatalog(current.value, true)))
    else
      match CloneDraft(m, restaurant, NextNumber(m, restaurant), current.value, catalog)
      case Err(e) => MenuOutcome(m, Err(e))
      case Ok(cloned) => MenuOutcome(PublishVersion(cloned, restaurant, m.nextVersion), Ok(PublishedCatalog(m.nextVersion, false)))
  }
}
