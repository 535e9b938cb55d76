/** Publishing the same catalog again: when the clone counts as complete. */
module MenuRepublish {
  import opened Wrappers
  import opened IdLists
  import opened MenuModel
  import opened MenuClone
  import opened MenuCopies
  import opened MenuIsomorphism
  import opened MenuPublishing
  import opened MenuSchema

  /** The shape a validated catalog has: exactly the three locales, each with an alias. */
  ghost predicate CatalogShape(catalog: Catalog) {
    && (forall code :: code in catalog.items ==> catalog.items[code].Keys == LOCALES)
    && (forall code, locale :: code in catalog.items && locale in catalog.items[code] ==> catalog.items[code][locale] != {})
    && (forall name :: name in catalog.terms ==> catalog.terms[name] == LOCALES)
  }

  lemma ItemLocales(m: Menu, src: int, catalog: Catalog, x: int)
    requires TextsOwned(m) && Keys(m.items, m.nextItem) && x in ItemsOf(m, src)
    ensures x in ItemMap(m, src)
    ensures LocalesOf(NewItemTexts(m, src, catalog), ItemMap(m, src)[x]) == CatalogTexts(catalog, m.items[x].code).Keys
  {
    HasCopy(ItemsOf(m, src), m.nextItem, x);
    ListsInTables(m, src);
    var y := ItemMap(m, src)[x];
    var copies := ItemTextCopies(m, ItemList(m, src), m.nextItem, catalog);
    forall locale ensures locale in LocalesOf(m.itemTexts + copies, y) <==> locale in CatalogTexts(catalog, m.items[x].code) {
      assert Text(y, locale) in copies <==> locale in CatalogTexts(catalog, m.items[x].code);
      assert Text(y, locale) !in m.itemTexts;
      assert locale in LocalesOf(m.itemTexts + copies, y) <==> Text(y, locale) in m.itemTexts + copies by {
        LocalesAre(m.itemTexts + copies, y, locale);
      }
    }
  }

  lemma LocalesAre(texts: set<Text>, owner: int, locale: Locale)
    ensures locale in LocalesOf(texts, owner) <==> Text(owner, locale) in texts
  {
    if Text(owner, locale) in texts {
      var t := Text(owner, locale);
      assert t in texts && t.locale in LocalesOf(texts, owner);
    }
  }

  lemma GroupLocales(m: Menu, src: int, g: int)
    requires TextsOwned(m) && Keys(m.groups, m.nextGroup) && g in GroupsOf(m, src)
    ensures g in GroupMap(m, src) && LocalesOf(NewGroupTexts(m, src), GroupMap(m, src)[g]) == LOCALES
  {
    HasCopy(GroupsOf(m, src), m.nextGroup, g);
    var y := GroupMap(m, src)[g];
    var copies := GroupTextCopies(|GroupList(m, src)|, m.nextGroup);
    forall locale ensures locale in LocalesOf(m.groupTexts + copies, y) <==> locale in LOCALES {
      assert Text(y, locale) in copies <==> locale in LOCALES;
      assert Text(y, locale) !in m.groupTexts;
      LocalesAre(m.groupTexts + copies, y, locale);
    }
  }

  lemma ChoiceLocales(m: Menu, src: int, catalog: Catalog, o: int)
    requires TextsOwned(m) && Keys(m.choices, m.nextChoice) && o in ChoicesOf(m, src)
    ensures o in ChoiceMap(m, src)
    ensures LocalesOf(NewChoiceTexts(m, src, catalog), ChoiceMap(m, src)[o]) == Terms(catalog, m.choices[o].name)
  {
    HasCopy(ChoicesOf(m, src), m.nextChoice, o);
    ListsInTables(m, src);
    var y := ChoiceMap(m, src)[o];
    var copies := ChoiceTextCopies(m, ChoiceList(m, src), m.nextChoice, catalog);
    forall locale ensures locale in LocalesOf(m.choiceTexts + copies, y) <==> locale in Terms(catalog, m.choices[o].name) {
      assert Text(y, locale) in copies <==> locale in Terms(catalog, m.choices[o].name);
      assert Text(y, locale) !in m.choiceTexts;
      LocalesAre(m.choiceTexts + copies, y, locale);
    }
  }

  // ---------- aliases ----------

  lemma AliasLocalesAre(aliases: set<Alias>, item: int, locale: Locale)
    ensures locale in AliasLocales(aliases, item) <==> exists a :: a in aliases && a.item == item && a.locale == locale
  {
    if a :| a in aliases && a.item == item && a.locale == locale {
      assert a.locale in AliasLocales(aliases, item);
    }
  }

  /** A copy of an old alias, or an alias of the catalog. */
  lemma CopiedAliasFrom(m: Menu, ids: seq<int>, base: int, v: int, catalog: Catalog, p: int, x: int, a: Alias)
    requires forall i :: 0 <= i < |ids| ==> ids[i] in m.items
    requires CopyOf(ids, base, p, x) && a in AliasCopies(m, ids, base, v, catalog) && a.item == p
    ensures (exists old' :: old' in m.aliases && old'.item == x && old'.locale == a.locale)
            || a.locale in CatalogTexts(catalog, m.items[x].code)
  {
    if a in OldAliasCopies(m, ids, base, v) {
      var q, o :| base <= q < base + |ids| && o in m.aliases && CopyOf(ids, base, q, o.item) && a == Alias(q, v, o.locale, o.normalized);
      assert o in m.aliases && o.item == x && o.locale == a.locale;
    }
  }

  lemma OldAliasCopied(m: Menu, ids: seq<int>, base: int, v: int, p: int, a: Alias)
    requires a in m.aliases && CopyOf(ids, base, p, a.item)
    ensures Alias(p, v, a.locale, a.normalized) in OldAliasCopies(m, ids, base, v)
  {
  }

  lemma CatalogAliasCopied(m: Menu, ids: seq<int>, base: int, v: int, catalog: Catalog, p: int, x: int, locale: Locale, text: string)
    requires forall i :: 0 <= i < |ids| ==> ids[i] in m.items
    requires CopyOf(ids, base, p, x) && x in m.items && locale in CatalogTexts(catalog, m.items[x].code)
    requires text in CatalogTexts(catalog, m.items[x].code)[locale]
    ensures Alias(p, v, locale, text) in CatalogAliases(m, ids, base, v, catalog)
  {
  }

  ghost predicate Spoken(catalog: Catalog, code: string) {
    forall locale :: locale in CatalogTexts(catalog, code) ==> CatalogTexts(catalog, code)[locale] != {}
  }

  /** A copied item has the alias locales of its original and of the catalog. */
  lemma AliasLocalesCopied(m: Menu, src: int, v: int, catalog: Catalog, x: int)
    requires AliasesOwned(m) && Keys(m.items, m.nextItem) && x in ItemsOf(m, src) && Spoken(catalog, m.items[x].code)
    ensures x in ItemMap(m, src)
    ensures AliasLocales(NewAliases(m, src, v, catalog), ItemMap(m, src)[x])
         == AliasLocales(m.aliases, x) + CatalogTexts(catalog, m.items[x].code).Keys
  {
    HasCopy(ItemsOf(m, src), m.nextItem, x);
    ListsInTables(m, src);
    var y, ids, all := ItemMap(m, src)[x], ItemList(m, src), NewAliases(m, src, v, catalog);
    forall locale
      ensures locale in AliasLocales(all, y) <==> locale in AliasLocales(m.aliases, x) || locale in CatalogTexts(catalog, m.items[x].code)
    {
      AliasLocalesAre(all, y, locale);
      AliasLocalesAre(m.aliases, x, locale);
      if locale in AliasLocales(all, y) {
        var a :| a in all && a.item == y && a.locale == locale;
        assert a !in m.aliases;
        CopiedAliasFrom(m, ids, m.nextItem, v, catalog, y, x, a);
      }
      if locale in AliasLocales(m.aliases, x) {
        var a :| a in m.aliases && a.item == x && a.locale == locale;
        OldAliasCopied(m, ids, m.nextItem, v, y, a);
        assert Alias(y, v, locale, a.normalized) in all;
      }
      if locale in CatalogTexts(catalog, m.items[x].code) {
        var text := SomeMember(CatalogTexts(catalog, m.items[x].code)[locale]);
        CatalogAliasCopied(m, ids, m.nextItem, v, catalog, y, x, locale, text);
        assert Alias(y, v, locale, text) in all;
      }
    }
  }

  // ---------- completeness of the clone ----------

  /** The old aliases of the version's items are all in the three locales. */
  ghost predicate KnownAliases(m: Menu, src: int) {
    forall a :: a in m.aliases && a.item in ItemsOf(m, src) ==> a.locale in LOCALES
  }

  lemma CoveredLocales(m: Menu, src: int, catalog: Catalog)
    requires CatalogShape(catalog) && Covers(catalog, m, src)
    ensures forall x :: x in ItemsOf(m, src) ==> CatalogTexts(catalog, m.items[x].code).Keys == LOCALES && Spoken(catalog, m.items[x].code)
    ensures forall o :: o in ChoicesOf(m, src) ==> Terms(catalog, m.choices[o].name) == LOCALES
  {
  }

  lemma ItemCompleteIff(m: Menu, m': Menu, src: int, catalog: Catalog, x: int)
    requires TextsOwned(m) && AliasesOwned(m) && Keys(m.items, m.nextItem) && x in ItemsOf(m, src)
    requires CatalogTexts(catalog, m.items[x].code).Keys == LOCALES && Spoken(catalog, m.items[x].code)
    requires m'.items == NewItems(m, src, m.nextVersion, catalog.version)
    requires m'.itemTexts == NewItemTexts(m, src, catalog) && m'.aliases == NewAliases(m, src, m.nextVersion, catalog)
    ensures x in ItemMap(m, src) && ItemMap(m, src)[x] in m'.items
    ensures ItemComplete(m', ItemMap(m, src)[x], catalog.version) <==> AliasLocales(m.aliases, x) <= LOCALES
  {
    ItemRow(m, src, m.nextVersion, catalog.version, x);
    ItemLocales(m, src, catalog, x);
    AliasLocalesCopied(m, src, m.nextVersion, catalog, x);
  }

  lemma GroupsComplete(m: Menu, m': Menu, src: int)
    requires TextsOwned(m) && Keys(m.groups, m.nextGroup) && VersionsBelow(m, m.nextVersion)
    requires m'.groups == NewGroups(m, src, m.nextVersion) && m'.groupTexts == NewGroupTexts(m, src)
    ensures forall g :: g in GroupsOf(m', m.nextVersion) ==> LocalesOf(m'.groupTexts, g) == LOCALES
  {
    GroupsRenamed(m, m', src);
    forall g | g in GroupsOf(m', m.nextVersion) ensures LocalesOf(m'.groupTexts, g) == LOCALES {
      var x :| x in GroupsOf(m, src) && GroupMap(m, src)[x] == g;
      GroupLocales(m, src, x);
    }
  }

  lemma ChoicesComplete(m: Menu, m': Menu, src: int, catalog: Catalog)
    requires TextsOwned(m) && ChoicesOwned(m) && VersionsBelow(m, m.nextVersion)
    requires forall o :: o in ChoicesOf(m, src) ==> Terms(catalog, m.choices[o].name) == LOCALES
    requires m'.groups == NewGroups(m, src, m.nextVersion) && m'.choices == NewChoices(m, src)
    requires m'.choiceTexts == NewChoiceTexts(m, src, catalog)
    ensures forall o :: o in ChoicesOf(m', m.nextVersion) ==> LocalesOf(m'.choiceTexts, o) == LOCALES
  {
    ChoicesRenamed(m, m', src);
    forall o | o in ChoicesOf(m', m.nextVersion) ensures LocalesOf(m'.choiceTexts, o) == LOCALES {
      var x :| x in ChoicesOf(m, src) && ChoiceMap(m, src)[x] == o;
      ChoiceLocales(m, src, catalog, x);
    }
  }

  ghost predicate TextsCloned(m: Menu, m': Menu, src: int, catalog: Catalog) {
    && m'.itemTexts == NewItemTexts(m, src, catalog) && m'.aliases == NewAliases(m, src, m.nextVersion, catalog)
    && m'.groupTexts == NewGroupTexts(m, src) && m'.choiceTexts == NewChoiceTexts(m, src, catalog)
  }

  lemma KnownAliasesAre(m: Menu, src: int)
    ensures KnownAliases(m, src) <==> forall x :: x in ItemsOf(m, src) ==> AliasLocales(m.aliases, x) <= LOCALES
  {
    forall x, locale | x in ItemsOf(m, src) ensures locale in AliasLocales(m.aliases, x)
                                              <==> exists a :: a in m.aliases && a.item == x && a.locale == locale {
      AliasLocalesAre(m.aliases, x, locale);
    }
    if forall x :: x in ItemsOf(m, src) ==> AliasLocales(m.aliases, x) <= LOCALES {
      forall a | a in m.aliases && a.item in ItemsOf(m, src) ensures a.locale in LOCALES {
        AliasLocalesAre(m.aliases, a.item, a.locale);
      }
    }
  }

  lemma ItemsCompleteIff(m: Menu, m': Menu, src: int, catalog: Catalog)
    requires Keys(m.items, m.nextItem) && VersionsBelow(m, m.nextVersion) && TextsOwned(m) && AliasesOwned(m)
    requires forall x :: x in ItemsOf(m, src) ==> CatalogTexts(catalog, m.items[x].code).Keys == LOCALES && Spoken(catalog, m.items[x].code)
    requires m'.items == NewItems(m, src, m.nextVersion, catalog.version)
    requires m'.itemTexts == NewItemTexts(m, src, catalog) && m'.aliases == NewAliases(m, src, m.nextVersion, catalog)
    ensures (forall i :: i in ItemsOf(m', m.nextVersion) ==> ItemComplete(m', i, catalog.version)) <==> KnownAliases(m, src)
    ensures ItemsOf(m', m.nextVersion) == {} <==> ItemsOf(m, src) == {}
  {
    var r := ItemMap(m, src);
    ItemsRenamed(m, m', src, catalog.version);
    KnownAliasesAre(m, src);
    forall x | x in ItemsOf(m, src)
      ensures x in r && r[x] in ItemsOf(m', m.nextVersion)
      ensures ItemComplete(m', r[x], catalog.version) <==> AliasLocales(m.aliases, x) <= LOCALES
    {
      ItemCompleteIff(m, m', src, catalog, x);
    }
    if KnownAliases(m, src) {
      forall i | i in ItemsOf(m', m.nextVersion) ensures ItemComplete(m', i, catalog.version) {
        var x :| x in ItemsOf(m, src) && r[x] == i;
      }
    }
    if ItemsOf(m, src) != {} {
      var x := SomeMember(ItemsOf(m, src));
      assert r[x] in ItemsOf(m', m.nextVersion);
    }
    if ItemsOf(m', m.nextVersion) != {} {
      var y := SomeMember(ItemsOf(m', m.nextVersion));
      var x :| x in ItemsOf(m, src) && r[x] == y;
    }
  }

  /** The clone passes the completeness check exactly when the menu has items and their aliases are in the three locales. */
  lemma CloneCompleteIff(m: Menu, m': Menu, src: int, catalog: Catalog)
    requires Owned(m) && TextsOwned(m) && AliasesOwned(m) && CatalogShape(catalog) && Covers(catalog, m, src)
    requires IsClone(m, m', src, catalog.version) && TextsCloned(m, m', src, catalog)
    ensures Complete(m', m.nextVersion, catalog.version) <==> ItemsOf(m, src) != {} && KnownAliases(m, src)
  {
    CoveredLocales(m, src, catalog);
    GroupsComplete(m, m', src);
    ChoicesComplete(m, m', src, catalog);
    ItemsCompleteIff(m, m', src, catalog);
  }

  // ---------- publishing again ----------

  lemma PublishedTexts(m: Menu, m': Menu, restaurant: int, number: int, src: int, catalog: Catalog)
    requires PublishedAs(m, m', restaurant, number, src, catalog)
    ensures TextsCloned(m, m', src, catalog)
  {
  }

  lemma PublishedIsCovered(m: Menu, restaurant: int, catalog: Catalog)
    requires Keys(m.versions, m.nextVersion) && OnePublished(m.versions)
    requires PublishCatalog(m, restaurant, catalog).result.Ok? && !PublishCatalog(m, restaurant, catalog).result.value.replayed
    ensures CurrentVersion(m, restaurant).Some? && Refusal(m, CurrentVersion(m, restaurant).value, catalog).None?
    ensures Covers(catalog, m, CurrentVersion(m, restaurant).value)
    ensures PublishCatalog(m, restaurant, catalog).result.value.version == m.nextVersion
  {
    var src := CurrentVersion(m, restaurant).value;
    assert CloneDraft(m, restaurant, NextNumber(m, restaurant), src, catalog).Ok?;
  }

  /** A catalog publish leaves a menu that satisfies every key, with the answered version published. */
  lemma PublishCatalogKeepsSchema(m: Menu, restaurant: int, catalog: Catalog)
    requires Schema(m) && PublishCatalog(m, restaurant, catalog).result.Ok?
    ensures Schema(PublishCatalog(m, restaurant, catalog).menu)
    ensures CurrentVersion(PublishCatalog(m, restaurant, catalog).menu, restaurant)
         == Some(PublishCatalog(m, restaurant, catalog).result.value.version)
  {
    var o := PublishCatalog(m, restaurant, catalog);
    PublishesClone(m, restaurant, catalog);
    if !o.result.value.replayed {
      PublishedIsCovered(m, restaurant, catalog);
      var src := CurrentVersion(m, restaurant).value;
      PublishedKeepsSchema(m, restaurant, src, catalog, o.menu);
    }
  }

  lemma PublishedKeepsSchema(m: Menu, restaurant: int, src: int, catalog: Catalog, m': Menu)
    requires Schema(m) && Refusal(m, src, catalog).None? && PublishedOther(m.versions, restaurant, -1, src)
    requires PublishedAs(m, m', restaurant, NextNumber(m, restaurant), src, catalog)
    ensures Schema(m') && CurrentVersion(m', restaurant) == Some(m.nextVersion)
  {
    NextNumberIsFree(m, restaurant);
    CloneKeepsSchema(m, restaurant, NextNumber(m, restaurant), src, catalog);
    DraftSwapped(m, Cloned(m, restaurant, NextNumber(m, restaurant), src, catalog), restaurant, NextNumber(m, restaurant), src);
  }

  lemma DraftSwapped(m: Menu, cloned: Menu, restaurant: int, number: int, src: int)
    requires Schema(cloned) && Keys(m.versions, m.nextVersion) && OnePublished(m.versions) && PublishedOther(m.versions, restaurant, -1, src)
    requires cloned.versions == m.versions[m.nextVersion := Version(restaurant, number, DraftMenu)]
    ensures var m' := Swap(cloned, restaurant, Some(src), m.nextVersion);
      Schema(m') && CurrentVersion(m', restaurant) == Some(m.nextVersion)
  {
    var m' := Swap(cloned, restaurant, Some(src), m.nextVersion);
    assert forall w :: PublishedOther(cloned.versions, restaurant, m.nextVersion, w) ==> PublishedOther(m.versions, restaurant, -1, w);
    SwapKeepsSchema(cloned, restaurant, Some(src), m.nextVersion);
    FindsTheOne(m'.versions, m'.nextVersion, restaurant, -1, m.nextVersion);
  }

  /**
   Publishing a validated catalog twice changes nothing the second time and answers the
   same version, if and only if the published menu was complete for the catalog before
   the first call, or is a non-empty menu whose aliases all lie in the three locales.
   */
  lemma PublishTwice(m: Menu, restaurant: int, catalog: Catalog)
    requires Schema(m) && CatalogShape(catalog) && PublishCatalog(m, restaurant, catalog).result.Ok?
    ensures var first := PublishCatalog(m, restaurant, catalog);
      PublishCatalog(first.menu, restaurant, catalog) == MenuOutcome(first.menu, Ok(PublishedCatalog(first.result.value.version, true)))
      <==> var src := CurrentVersion(m, restaurant).value;
           Complete(m, src, catalog.version) || (ItemsOf(m, src) != {} && KnownAliases(m, src))
  {
    var first := PublishCatalog(m, restaurant, catalog);
    PublishesClone(m, restaurant, catalog);
    PublishCatalogKeepsSchema(m, restaurant, catalog);
    var v := first.result.value.version;
    SecondCall(first.menu, restaurant, v, catalog);
    ReplayedIff(m, restaurant, catalog);
    if first.result.value.replayed {
      FirstReplay(m, restaurant, catalog);
    } else {
      var src := CurrentVersion(m, restaurant).value;
      PublishedIsCovered(m, restaurant, catalog);
      SchemaOwned(m);
      PublishedIsClone(m, first.menu, restaurant, NextNumber(m, restaurant), src, catalog);
      PublishedTexts(m, first.menu, restaurant, NextNumber(m, restaurant), src, catalog);
      CloneCompleteIff(m, first.menu, src, catalog);
    }
  }

  lemma FirstReplay(m: Menu, restaurant: int, catalog: Catalog)
    requires PublishCatalog(m, restaurant, catalog).result.Ok? && PublishCatalog(m, restaurant, catalog).result.value.replayed
    ensures CurrentVersion(m, restaurant) == Some(PublishCatalog(m, restaurant, catalog).result.value.version)
    ensures Complete(m, PublishCatalog(m, restaurant, catalog).result.value.version, catalog.version)
    ensures PublishCatalog(m, restaurant, catalog).menu == m
  {
  }

  lemma SecondCall(m: Menu, restaurant: int, v: int, catalog: Catalog)
    requires CurrentVersion(m, restaurant) == Some(v)
    ensures PublishCatalog(m, restaurant, catalog) == MenuOutcome(m, Ok(PublishedCatalog(v, true))) <==> Complete(m, v, catalog.version)
  {
    if Complete(m, v, catalog.version) {
      assert PublishCatalog(m, restaurant, catalog) == MenuOutcome(m, Ok(PublishedCatalog(v, true)));
    }
  }
}
