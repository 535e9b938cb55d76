/**
 When publishing succeeds and what it writes, in terms of the tables alone: which
 versions and branches change, which catalogs are refused, when nothing is left to
 do, and which translations and aliases the copied dishes have.
 */
module MenuWrites {
  import opened Wrappers
  import opened IdLists
  import opened MenuModel
  import opened MenuClone
  import opened MenuCopies
  import opened MenuIsomorphism
  import opened MenuPublishing
  import opened MenuSchema
  import opened MenuRepublish

  // ---------- publishing a draft ----------

  /** The published version becomes archived, the draft published, and the restaurant's live branches point at it. */
  ghost predicate Published(m: Menu, m': Menu, restaurant: int, v: int) {
    && m' == m.(versions := m'.versions, branches := m'.branches)
    && m'.versions.Keys == m.versions.Keys && m'.branches.Keys == m.branches.Keys
    && (forall w :: w in m.versions ==>
          m'.versions[w] == m.versions[w].(status :=
            if w == v then VersionStatus.Published
            else if m.versions[w].restaurant == restaurant && m.versions[w].status.Published? then Archived
            else m.versions[w].status))
    && (forall b :: b in m.branches ==>
          m'.branches[b] == m.branches[b].(menu :=
            if m.branches[b].restaurant == restaurant && m.branches[b].active && !m.branches[b].deleted then Some(v)
            else m.branches[b].menu))
  }

  lemma PublishVersionWrites(m: Menu, restaurant: int, v: int)
    requires Keys(m.versions, m.nextVersion) && OnePublished(m.versions) && v in m.versions
    ensures Published(m, PublishVersion(m, restaurant, v), restaurant, v)
  {
    PublishedBelowFinds(m.versions, restaurant, v, m.nextVersion);
    var current := PublishedBelow(m.versions, restaurant, v, m.nextVersion);
    forall w | w in m.versions && w != v && m.versions[w].restaurant == restaurant && m.versions[w].status.Published?
      ensures current == Some(w)
    {
      assert PublishedOther(m.versions, restaurant, v, w);
      assert current.Some? && PublishedOther(m.versions, restaurant, v, current.value);
    }
  }

  /** Only a draft of the restaurant is published; the error says whether it is unknown or no draft. */
  lemma PublishIff(m: Menu, restaurant: int, v: int)
    requires Keys(m.versions, m.nextVersion) && OnePublished(m.versions)
    ensures var r := Publish(m, restaurant, v);
      && (r.result == Err(VersionNotFound) <==> !(v in m.versions && m.versions[v].restaurant == restaurant))
      && (r.result == Err(NotADraft) <==> v in m.versions && m.versions[v].restaurant == restaurant && !m.versions[v].status.DraftMenu?)
      && (r.result.Ok? <==> v in m.versions && m.versions[v].restaurant == restaurant && m.versions[v].status.DraftMenu?)
      && (r.result.Err? ==> r.menu == m)
      && (r.result.Ok? ==> r.result.value == v && Published(m, r.menu, restaurant, v))
  {
    if v in m.versions { PublishVersionWrites(m, restaurant, v); }
  }

  // ---------- which catalogs are refused ----------

  /** The catalog says nothing in any language of some category, dish or option name of the version. */
  ghost predicate SomethingMissing(catalog: Catalog, m: Menu, src: int) {
    || (exists c :: c in m.categories && m.categories[c].version == src
                    && (m.categories[c].code in catalog.categories ==> catalog.categories[m.categories[c].code] == {}))
    || (exists i :: i in m.items && m.items[i].version == src
                    && (m.items[i].code in catalog.items ==> catalog.items[m.items[i].code] == map[]))
    || (exists o :: o in m.choices && m.choices[o].group in m.groups && m.groups[m.choices[o].group].version == src
                    && (m.choices[o].name in catalog.terms ==> catalog.terms[m.choices[o].name] == {}))
  }

  /** A copy of the dish would go by this name: the dish does, or the catalog says so. */
  ghost predicate GoesBy(m: Menu, catalog: Catalog, i: int, locale: Locale, text: string) {
    i in m.items
    && ((exists a :: a in m.aliases && a.item == i && a.locale == locale && a.normalized == text)
        || (m.items[i].code in catalog.items && locale in catalog.items[m.items[i].code] && text in catalog.items[m.items[i].code][locale]))
  }

  /** Two dishes of the version would go by one name. */
  ghost predicate NameTwice(m: Menu, catalog: Catalog, src: int) {
    exists i, j, locale, text ::
      && i in m.items && j in m.items && i != j && m.items[i].version == src && m.items[j].version == src
      && GoesBy(m, catalog, i, locale, text) && GoesBy(m, catalog, j, locale, text)
  }

  lemma MissingIff(m: Menu, src: int, catalog: Catalog)
    ensures Covers(catalog, m, src) <==> !SomethingMissing(catalog, m, src)
  {
    if !SomethingMissing(catalog, m, src) {
      forall c | c in CategoriesOf(m, src) ensures m.categories[c].code in catalog.categories && catalog.categories[m.categories[c].code] != {} {}
      forall i | i in ItemsOf(m, src) ensures CatalogTexts(catalog, m.items[i].code) != map[] {}
      forall o | o in ChoicesOf(m, src) ensures Terms(catalog, m.choices[o].name) != {} {}
    }
    if Covers(catalog, m, src) {
      forall c | c in m.categories && m.categories[c].version == src
        ensures m.categories[c].code in catalog.categories && catalog.categories[m.categories[c].code] != {}
      {
        assert c in CategoriesOf(m, src);
      }
      forall i | i in m.items && m.items[i].version == src
        ensures m.items[i].code in catalog.items && catalog.items[m.items[i].code] != map[]
      {
        assert i in ItemsOf(m, src);
      }
      forall o | o in m.choices && m.choices[o].group in m.groups && m.groups[m.choices[o].group].version == src
        ensures m.choices[o].name in catalog.terms && catalog.terms[m.choices[o].name] != {}
      {
        assert m.choices[o].group in GroupsOf(m, src) && o in ChoicesOf(m, src);
      }
    }
  }

  /** The copies' aliases, dish by dish. */
  lemma CopiesGoBy(m: Menu, ids: seq<int>, base: int, v: int, catalog: Catalog, p: nat, locale: Locale, text: string)
    requires forall i :: 0 <= i < |ids| ==> ids[i] in m.items
    requires p < |ids|
    ensures Alias(base + p, v, locale, text) in AliasCopies(m, ids, base, v, catalog) <==> GoesBy(m, catalog, ids[p], locale, text)
  {
    var x := ids[p];
    assert CopyOf(ids, base, base + p, x);
    var copy := Alias(base + p, v, locale, text);
    if copy in OldAliasCopies(m, ids, base, v) {
      var q, a :| base <= q < base + |ids| && a in m.aliases && CopyOf(ids, base, q, a.item) && copy == Alias(q, v, a.locale, a.normalized);
      assert a in m.aliases && a.item == x && a.locale == locale && a.normalized == text;
    }
    if a :| a in m.aliases && a.item == x && a.locale == locale && a.normalized == text {
      OldAliasCopied(m, ids, base, v, base + p, a);
    }
    if locale in CatalogTexts(catalog, m.items[x].code) && text in CatalogTexts(catalog, m.items[x].code)[locale] {
      CatalogAliasCopied(m, ids, base, v, catalog, base + p, x, locale, text);
    }
  }

  lemma CopiesAreCopies(m: Menu, ids: seq<int>, base: int, v: int, catalog: Catalog, a: Alias)
    requires forall i :: 0 <= i < |ids| ==> ids[i] in m.items
    requires a in AliasCopies(m, ids, base, v, catalog)
    ensures base <= a.item < base + |ids| && a.version == v
  {
  }

  lemma CopyGoesBy(m: Menu, ids: seq<int>, base: int, v: int, catalog: Catalog, a: Alias)
    requires forall i :: 0 <= i < |ids| ==> ids[i] in m.items
    requires a in AliasCopies(m, ids, base, v, catalog)
    ensures base <= a.item < base + |ids| && GoesBy(m, catalog, ids[a.item - base], a.locale, a.normalized)
  {
    CopiesAreCopies(m, ids, base, v, catalog, a);
    CopiesGoBy(m, ids, base, v, catalog, a.item - base, a.locale, a.normalized);
    assert a == Alias(base + (a.item - base), v, a.locale, a.normalized);
  }

  lemma ClashingPair(aliases: set<Alias>) returns (a: Alias, b: Alias)
    requires AliasClash(aliases)
    ensures a in aliases && b in aliases && a.locale == b.locale && a.normalized == b.normalized && a.item != b.item
  {
    a, b :| a in aliases && b in aliases && a.locale == b.locale && a.normalized == b.normalized && a.item != b.item;
  }

  lemma ClashNames(m: Menu, ids: seq<int>, src: int, v: int, catalog: Catalog)
    requires Lists(ids, ItemsOf(m, src)) && forall i :: 0 <= i < |ids| ==> ids[i] in m.items
    requires AliasClash(AliasCopies(m, ids, m.nextItem, v, catalog))
    ensures NameTwice(m, catalog, src)
  {
    var a, b := ClashingPair(AliasCopies(m, ids, m.nextItem, v, catalog));
    CopyGoesBy(m, ids, m.nextItem, v, catalog, a);
    CopyGoesBy(m, ids, m.nextItem, v, catalog, b);
    NamedTwice(m, ids, src, catalog, a.item - m.nextItem, b.item - m.nextItem, a.locale, a.normalized);
  }

  lemma NamedTwice(m: Menu, ids: seq<int>, src: int, catalog: Catalog, p: nat, q: nat, locale: Locale, text: string)
    requires Lists(ids, ItemsOf(m, src)) && p < |ids| && q < |ids| && p != q
    requires GoesBy(m, catalog, ids[p], locale, text) && GoesBy(m, catalog, ids[q], locale, text)
    ensures NameTwice(m, catalog, src)
  {
    var i, j := ids[p], ids[q];
    assert i in ids && j in ids && i != j;
  }

  lemma NamesClash(m: Menu, ids: seq<int>, src: int, v: int, catalog: Catalog)
    requires Lists(ids, ItemsOf(m, src)) && forall i :: 0 <= i < |ids| ==> ids[i] in m.items
    requires NameTwice(m, catalog, src)
    ensures AliasClash(AliasCopies(m, ids, m.nextItem, v, catalog))
  {
    var base := m.nextItem;
    var i, j, locale, text :| i in m.items && j in m.items && i != j && m.items[i].version == src && m.items[j].version == src
      && GoesBy(m, catalog, i, locale, text) && GoesBy(m, catalog, j, locale, text);
    assert i in ItemsOf(m, src) && j in ItemsOf(m, src);
    var p :| 0 <= p < |ids| && ids[p] == i;
    var q :| 0 <= q < |ids| && ids[q] == j;
    CopiesGoBy(m, ids, base, v, catalog, p, locale, text);
    CopiesGoBy(m, ids, base, v, catalog, q, locale, text);
    var a, b := Alias(base + p, v, locale, text), Alias(base + q, v, locale, text);
    assert a.item != b.item;
  }

  lemma ClashIff(m: Menu, src: int, v: int, catalog: Catalog)
    requires Keys(m.items, m.nextItem)
    ensures forall i :: 0 <= i < |ItemList(m, src)| ==> ItemList(m, src)[i] in m.items
    ensures AliasClash(AliasCopies(m, ItemList(m, src), m.nextItem, v, catalog)) <==> NameTwice(m, catalog, src)
  {
    ListsInTables(m, src);
    AscendingLists(ItemsOf(m, src), m.nextItem);
    var ids := ItemList(m, src);
    if AliasClash(AliasCopies(m, ids, m.nextItem, v, catalog)) { ClashNames(m, ids, src, v, catalog); }
    if NameTwice(m, catalog, src) { NamesClash(m, ids, src, v, catalog); }
  }

  /** A version cannot be cloned exactly when the catalog leaves something of it untranslated, or two of its dishes would go by one name. */
  lemma RefusedIff(m: Menu, src: int, catalog: Catalog)
    requires Keys(m.items, m.nextItem)
    ensures Refusal(m, src, catalog) == Some(MissingTranslation) <==> SomethingMissing(catalog, m, src)
    ensures Refusal(m, src, catalog) == Some(PublishConflict) <==> !SomethingMissing(catalog, m, src) && NameTwice(m, catalog, src)
    ensures Refusal(m, src, catalog).None? <==> !SomethingMissing(catalog, m, src) && !NameTwice(m, catalog, src)
  {
    MissingIff(m, src, catalog);
    ClashIff(m, src, m.nextVersion, catalog);
  }

  // ---------- when nothing is left to do ----------

  /** In each of the three locales. */
  ghost predicate InThree(has: Locale -> bool) {
    has(ZhCN) && has(YueHantHK) && has(EnHK) && forall tag :: !has(OtherLocale(tag))
  }

  /** The version has dishes, all marked with this catalog, and everything in it is translated to exactly the three locales. */
  ghost predicate FullyTranslated(m: Menu, v: int, catalogVersion: string) {
    && (exists i :: i in m.items && m.items[i].version == v)
    && (forall i :: i in m.items && m.items[i].version == v ==>
          && "multilingual_catalog_version" in m.items[i].attributes
          && m.items[i].attributes["multilingual_catalog_version"] == catalogVersion
          && InThree(locale => Text(i, locale) in m.itemTexts)
          && InThree(locale => exists a :: a in m.aliases && a.item == i && a.locale == locale))
    && (forall g :: g in m.groups && m.groups[g].version == v ==> InThree(locale => Text(g, locale) in m.groupTexts))
    && (forall o :: o in m.choices && m.choices[o].group in m.groups && m.groups[m.choices[o].group].version == v ==>
          InThree(locale => Text(o, locale) in m.choiceTexts))
  }

  lemma ThreeLocales(texts: set<Text>, owner: int)
    ensures LocalesOf(texts, owner) == LOCALES <==> InThree(locale => Text(owner, locale) in texts)
  {
    forall locale ensures locale in LocalesOf(texts, owner) <==> Text(owner, locale) in texts { LocalesAre(texts, owner, locale); }
    SetIsThree(LocalesOf(texts, owner), locale => Text(owner, locale) in texts);
  }

  lemma ThreeAliasLocales(aliases: set<Alias>, item: int)
    ensures AliasLocales(aliases, item) == LOCALES <==> InThree(locale => exists a :: a in aliases && a.item == item && a.locale == locale)
  {
    forall locale ensures locale in AliasLocales(aliases, item) <==> exists a :: a in aliases && a.item == item && a.locale == locale {
      AliasLocalesAre(aliases, item, locale);
    }
    SetIsThree(AliasLocales(aliases, item), locale => exists a :: a in aliases && a.item == item && a.locale == locale);
  }

  lemma SetIsThree(s: set<Locale>, has: Locale -> bool)
    requires forall locale :: locale in s <==> has(locale)
    ensures s == LOCALES <==> InThree(has)
  {
    if InThree(has) {
      forall locale ensures locale in s <==> locale in LOCALES {
        match locale
        case OtherLocale(tag) => assert !has(OtherLocale(tag));
        case _ =>
      }
    }
  }

  lemma CompleteIff(m: Menu, v: int, catalogVersion: string)
    ensures Complete(m, v, catalogVersion) <==> FullyTranslated(m, v, catalogVersion)
  {
    forall i ensures LocalesOf(m.itemTexts, i) == LOCALES <==> InThree(locale => Text(i, locale) in m.itemTexts) { ThreeLocales(m.itemTexts, i); }
    forall g ensures LocalesOf(m.groupTexts, g) == LOCALES <==> InThree(locale => Text(g, locale) in m.groupTexts) { ThreeLocales(m.groupTexts, g); }
    forall o ensures LocalesOf(m.choiceTexts, o) == LOCALES <==> InThree(locale => Text(o, locale) in m.choiceTexts) { ThreeLocales(m.choiceTexts, o); }
    forall i ensures AliasLocales(m.aliases, i) == LOCALES
                <==> InThree(locale => exists a :: a in m.aliases && a.item == i && a.locale == locale) { ThreeAliasLocales(m.aliases, i); }
    if ItemsOf(m, v) != {} { var i := SomeMember(ItemsOf(m, v)); }
    if i :| i in m.items && m.items[i].version == v { assert i in ItemsOf(m, v); }
    if Complete(m, v, catalogVersion) { CompleteTranslates(m, v, catalogVersion); }
    if FullyTranslated(m, v, catalogVersion) { TranslatedCompletes(m, v, catalogVersion); }
  }

  lemma CompleteTranslates(m: Menu, v: int, catalogVersion: string)
    requires Complete(m, v, catalogVersion)
    ensures FullyTranslated(m, v, catalogVersion)
  {
    var some := SomeMember(ItemsOf(m, v));
    forall i | i in m.items && m.items[i].version == v
      ensures "multilingual_catalog_version" in m.items[i].attributes && m.items[i].attributes["multilingual_catalog_version"] == catalogVersion
      ensures InThree(locale => Text(i, locale) in m.itemTexts)
      ensures InThree(locale => exists a :: a in m.aliases && a.item == i && a.locale == locale)
    {
      assert i in ItemsOf(m, v) && ItemComplete(m, i, catalogVersion);
      ThreeLocales(m.itemTexts, i);
      ThreeAliasLocales(m.aliases, i);
    }
    forall g | g in m.groups && m.groups[g].version == v ensures InThree(locale => Text(g, locale) in m.groupTexts) {
      assert g in GroupsOf(m, v);
      ThreeLocales(m.groupTexts, g);
    }
    forall o | o in m.choices && m.choices[o].group in m.groups && m.groups[m.choices[o].group].version == v
      ensures InThree(locale => Text(o, locale) in m.choiceTexts)
    {
      assert m.choices[o].group in GroupsOf(m, v) && o in ChoicesOf(m, v);
      ThreeLocales(m.choiceTexts, o);
    }
  }

  lemma TranslatedCompletes(m: Menu, v: int, catalogVersion: string)
    requires FullyTranslated(m, v, catalogVersion)
    ensures Complete(m, v, catalogVersion)
  {
    var some :| some in m.items && m.items[some].version == v;
    assert some in ItemsOf(m, v);
    forall i | i in ItemsOf(m, v) ensures ItemComplete(m, i, catalogVersion) {
      ThreeLocales(m.itemTexts, i);
      ThreeAliasLocales(m.aliases, i);
    }
    forall g | g in GroupsOf(m, v) ensures LocalesOf(m.groupTexts, g) == LOCALES { ThreeLocales(m.groupTexts, g); }
    forall o | o in ChoicesOf(m, v) ensures LocalesOf(m.choiceTexts, o) == LOCALES { ThreeLocales(m.choiceTexts, o); }
  }

  // ---------- what a catalog publish answers ----------

  /**
   A catalog publish fails without a published version; replays when that is fully
   translated already; fails on a missing translation or a doubled name; and else
   publishes a clone as a new version.
   */
  lemma CatalogAnswers(m: Menu, restaurant: int, catalog: Catalog, v: int)
    requires Schema(m) && v in m.versions && m.versions[v].restaurant == restaurant && m.versions[v].status.Published?
    ensures PublishCatalog(m, restaurant, catalog).result
         == if FullyTranslated(m, v, catalog.version) then Ok(PublishedCatalog(v, true))
            else if SomethingMissing(catalog, m, v) then Err(MissingTranslation)
            else if NameTwice(m, catalog, v) then Err(PublishConflict)
            else Ok(PublishedCatalog(m.nextVersion, false))
    ensures PublishCatalog(m, restaurant, catalog).result.Err? ==> PublishCatalog(m, restaurant, catalog).menu == m
  {
    PublishedBelowFinds(m.versions, restaurant, -1, m.nextVersion);
    assert PublishedOther(m.versions, restaurant, -1, v);
    CompleteIff(m, v, catalog.version);
    RefusedIff(m, v, catalog);
    CatalogResult(m, restaurant, catalog, v);
  }

  lemma CatalogResult(m: Menu, restaurant: int, catalog: Catalog, v: int)
    requires CurrentVersion(m, restaurant) == Some(v)
    ensures PublishCatalog(m, restaurant, catalog).result
         == if Complete(m, v, catalog.version) then Ok(PublishedCatalog(v, true))
            else if Refusal(m, v, catalog).Some? then Err(Refusal(m, v, catalog).value)
            else Ok(PublishedCatalog(m.nextVersion, false))
    ensures PublishCatalog(m, restaurant, catalog).result.Err? ==> PublishCatalog(m, restaurant, catalog).menu == m
  {
    if !Complete(m, v, catalog.version) && Refusal(m, v, catalog).None? {
      var cloned := Cloned(m, restaurant, NextNumber(m, restaurant), v, catalog);
      assert CloneDraft(m, restaurant, NextNumber(m, restaurant), v, catalog) == Ok(cloned);
      assert PublishCatalog(m, restaurant, catalog)
          == MenuOutcome(PublishVersion(cloned, restaurant, m.nextVersion), Ok(PublishedCatalog(m.nextVersion, false)));
    }
  }

  /** Without a published version there is nothing to clone. */
  lemma NothingToClone(m: Menu, restaurant: int, catalog: Catalog)
    requires Keys(m.versions, m.nextVersion)
    requires forall v :: v in m.versions && m.versions[v].restaurant == restaurant ==> !m.versions[v].status.Published?
    ensures PublishCatalog(m, restaurant, catalog) == MenuOutcome(m, Err(VersionNotFound))
  {
    PublishedBelowFinds(m.versions, restaurant, -1, m.nextVersion);
  }

  // ---------- the copied texts ----------

  /** The copy of a dish goes by its old names and the catalog's. */
  lemma DishCopyAliases(m: Menu, src: int, v: int, catalog: Catalog, i: int, locale: Locale, text: string)
    requires AliasesOwned(m) && Keys(m.items, m.nextItem) && i in m.items && m.items[i].version == src
    ensures i in ItemMap(m, src) && ItemMap(m, src)[i] !in m.items
    ensures (exists a :: a in NewAliases(m, src, v, catalog) && a.item == ItemMap(m, src)[i] && a.locale == locale && a.normalized == text)
       <==> GoesBy(m, catalog, i, locale, text)
  {
    HasCopy(ItemsOf(m, src), m.nextItem, i);
    ListsInTables(m, src);
    var y, ids := ItemMap(m, src)[i], ItemList(m, src);
    CopiesGoBy(m, ids, m.nextItem, v, catalog, y - m.nextItem, locale, text);
    if a :| a in NewAliases(m, src, v, catalog) && a.item == y && a.locale == locale && a.normalized == text {
      assert a !in m.aliases;
      CopiesAreCopies(m, ids, m.nextItem, v, catalog, a);
      assert a == Alias(y, v, locale, text);
    }
    if GoesBy(m, catalog, i, locale, text) {
      var a := Alias(y, v, locale, text);
      assert a in NewAliases(m, src, v, catalog);
    }
  }

  /** It is translated to the languages the catalog has for it. */
  lemma DishCopyTexts(m: Menu, src: int, catalog: Catalog, i: int, locale: Locale)
    requires TextsOwned(m) && Keys(m.items, m.nextItem) && i in m.items && m.items[i].version == src
    ensures i in ItemMap(m, src)
    ensures Text(ItemMap(m, src)[i], locale) in NewItemTexts(m, src, catalog)
       <==> m.items[i].code in catalog.items && locale in catalog.items[m.items[i].code]
  {
    ItemLocales(m, src, catalog, i);
    LocalesAre(NewItemTexts(m, src, catalog), ItemMap(m, src)[i], locale);
  }

  /** What other dishes go by and are translated to is as it was. */
  lemma OtherDishTexts(m: Menu, src: int, v: int, catalog: Catalog, a: Alias, t: Text)
    requires Schema(m) && a.item in m.items && t.owner in m.items
    ensures a in NewAliases(m, src, v, catalog) <==> a in m.aliases
    ensures t in NewItemTexts(m, src, catalog) <==> t in m.itemTexts
  {
    ListsInTables(m, src);
    if a in AliasCopies(m, ItemList(m, src), m.nextItem, v, catalog) {
      CopiesAreCopies(m, ItemList(m, src), m.nextItem, v, catalog, a);
    }
  }
}
