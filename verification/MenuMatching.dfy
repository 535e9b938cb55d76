/** Finding dishes by name in a customer's text: one best dish, or all that fit side by side. */
module MenuMatching {
  import opened Wrappers

  /** An available dish: its id and the names it goes by, canonical name first. */
  datatype Dish = Dish(id: string, names: seq<string>)

  /** An occurrence of the dish at an index of the menu. */
  datatype Hit = Hit(span: Span, index: nat)

  // ---------- occurrences ----------

  predicate OccursAt(text: string, name: string, i: int) {
    0 <= i && i + |name| <= |text| && text[i..i + |name|] == name
  }

  predicate Occurs(text: string, name: string) {
    exists i | 0 <= i <= |text| :: OccursAt(text, name, i)
  }

  function FindFrom(text: string, name: string, i: nat): nat
    requires i <= |text|
    decreases |text| - i
  {
    if i == |text| || OccursAt(text, name, i) then i else FindFrom(text, name, i + 1)
  }

  /** The first place a name occurs, where it does. */
  function Find(text: string, name: string): nat {
    FindFrom(text, name, 0)
  }

  lemma {:induction false} FindFromIsFirst(text: string, name: string, i: nat)
    requires i <= |text| && exists j :: i <= j <= |text| && OccursAt(text, name, j)
    ensures OccursAt(text, name, FindFrom(text, name, i)) && i <= FindFrom(text, name, i)
    ensures forall j :: i <= j < FindFrom(text, name, i) ==> !OccursAt(text, name, j)
    decreases |text| - i
  {
    if !(i == |text| || OccursAt(text, name, i)) { FindFromIsFirst(text, name, i + 1); }
  }

  lemma FindIsFirst(text: string, name: string)
    requires Occurs(text, name)
    ensures OccursAt(text, name, Find(text, name))
    ensures forall j :: OccursAt(text, name, j) ==> Find(text, name) <= j
  {
    FindFromIsFirst(text, name, 0);
  }

  // ---------- the best occurrence of a dish ----------

  /** Earlier beats later; at the same place longer beats shorter. */
  datatype Span = Span(position: nat, length: nat) {
    predicate Beats(s: Span) {
      position < s.position || (position == s.position && length > s.length)
    }
  }

  /** The first and, there, longest occurrence of any of the names. */
  function BestOf(text: string, names: seq<string>): Option<Span> {
    if names == [] then None
    else
      var rest := BestOf(text, names[..|names| - 1]);
      var name := names[|names| - 1];
      if name == "" || !Occurs(text, name) then rest
      else if rest.Some? && !Span(Find(text, name), |name|).Beats(rest.value) then rest
      else Some(Span(Find(text, name), |name|))
  }

  ghost predicate Named(names: seq<string>, text: string, s: Span) {
    exists n :: 0 <= n < |names| && names[n] != "" && Occurs(text, names[n]) && s == Span(Find(text, names[n]), |names[n]|)
  }

  lemma NamedLast(names: seq<string>, text: string, s: Span)
    requires names != []
    ensures Named(names, text, s) <==>
            Named(names[..|names| - 1], text, s)
            || (var name := names[|names| - 1]; name != "" && Occurs(text, name) && s == Span(Find(text, name), |name|))
  {
    var n := |names| - 1;
    var init := names[..n];
    assert forall j :: 0 <= j < n ==> init[j] == names[j];
    if Named(names, text, s) {
      var j :| 0 <= j < |names| && names[j] != "" && Occurs(text, names[j]) && s == Span(Find(text, names[j]), |names[j]|);
      assert j < n ==> init[j] != "" && Occurs(text, init[j]) && s == Span(Find(text, init[j]), |init[j]|);
    }
    if Named(init, text, s) {
      var j :| 0 <= j < n && init[j] != "" && Occurs(text, init[j]) && s == Span(Find(text, init[j]), |init[j]|);
      assert names[j] == init[j];
    }
  }

  lemma {:induction false} BestIsBest(text: string, names: seq<string>)
    ensures BestOf(text, names).Some? ==> Named(names, text, BestOf(text, names).value)
    ensures forall s :: Named(names, text, s) ==> BestOf(text, names).Some? && !s.Beats(BestOf(text, names).value)
  {
    if names != [] {
      BestIsBest(text, names[..|names| - 1]);
      forall s ensures Named(names, text, s) <==>
            Named(names[..|names| - 1], text, s)
            || (var name := names[|names| - 1]; name != "" && Occurs(text, name) && s == Span(Find(text, name), |name|))
      {
        NamedLast(names, text, s);
      }
    }
  }

  // ---------- the hits in order ----------

  /** The best occurrence of each dish that occurs. */
  function Hits(text: string, dishes: seq<Dish>): seq<Hit> {
    if dishes == [] then []
    else
      var n := |dishes| - 1;
      var best := BestOf(text, dishes[n].names);
      Hits(text, dishes[..n]) + if best.Some? then [Hit(best.value, n)] else []
  }

  /** Equal spans stay in menu order. */
  predicate Before(a: Hit, b: Hit) {
    a.span.Beats(b.span) || (a.span == b.span && a.index < b.index)
  }

  function Insert(h: Hit, s: seq<Hit>): (r: seq<Hit>)
    ensures multiset(r) == multiset(s) + multiset{h}
  {
    if s == [] || Before(h, s[0]) then [h] + s
    else
      assert s == [s[0]] + s[1..];
      [s[0]] + Insert(h, s[1..])
  }

  function Sorted(s: seq<Hit>): (r: seq<Hit>)
    ensures multiset(r) == multiset(s)
  {
    if s == [] then []
    else
      assert s == s[..|s| - 1] + [s[|s| - 1]];
      Insert(s[|s| - 1], Sorted(s[..|s| - 1]))
  }

  // ---------- one dish by name ----------

  /** The first dish one of whose names is the whole text. */
  function ExactBelow(text: string, dishes: seq<Dish>, n: nat): Option<nat>
    requires n <= |dishes|
  {
    if n == 0 then None
    else
      var found := ExactBelow(text, dishes, n - 1);
      if found.Some? then found else if text in dishes[n - 1].names then Some(n - 1) else None
  }

  function NameHits(text: string, names: seq<string>, index: nat): seq<Hit> {
    if names == [] then []
    else
      var name := names[|names| - 1];
      NameHits(text, names[..|names| - 1], index)
      + if name != "" && Occurs(text, name) then [Hit(Span(Find(text, name), |name|), index)] else []
  }

  /** Every occurring name of every dish, in menu order. */
  function AllHits(text: string, dishes: seq<Dish>): seq<Hit> {
    if dishes == [] then []
    else AllHits(text, dishes[..|dishes| - 1]) + NameHits(text, dishes[|dishes| - 1].names, |dishes| - 1)
  }

  /** The first of the hits no other beats. */
  function Least(hits: seq<Hit>): Hit
    requires hits != []
  {
    var last := hits[|hits| - 1];
    if |hits| == 1 then last
    else
      var least := Least(hits[..|hits| - 1]);
      if last.span.Beats(least.span) then last else least
  }

  /** find_item_by_name: an exact name first, else the first and longest occurrence. */
  function FindByName(text: string, dishes: seq<Dish>): Option<nat> {
    if text == "" then None
    else
      var exact := ExactBelow(text, dishes, |dishes|);
      if exact.Some? then exact
      else if AllHits(text, dishes) == [] then None
      else Some(Least(AllHits(text, dishes)).index)
  }

  // ---------- all dishes in a text ----------

  predicate Overlap(a: Span, b: Span) {
    a.position < b.position + b.length && a.position + a.length > b.position
  }

  function IdOf(dishes: seq<Dish>, h: Hit): string {
    if h.index < |dishes| then dishes[h.index].id else ""
  }

  predicate Blocked(chosen: seq<Hit>, dishes: seq<Dish>, h: Hit) {
    exists c | c in chosen :: Overlap(h.span, c.span) || IdOf(dishes, c) == IdOf(dishes, h)
  }

  /** Takes each hit in turn unless a chosen one overlaps it or is the same dish. */
  function Choose(hits: seq<Hit>, dishes: seq<Dish>): seq<Hit> {
    if hits == [] then []
    else
      var chosen := Choose(hits[..|hits| - 1], dishes);
      var h := hits[|hits| - 1];
      if Blocked(chosen, dishes, h) then chosen else chosen + [h]
  }

  /** find_items_in_text, with the span each dish was chosen for. */
  function FindAll(text: string, dishes: seq<Dish>): seq<Hit> {
    if text == "" then [] else Choose(Sorted(Hits(text, dishes)), dishes)
  }

  /** The best position of each dish, dish by dish. */
  method Positions(text: string, dishes: seq<Dish>) returns (positions: seq<Hit>)
    ensures positions == Hits(text, dishes)
  {
    positions := [];
    for n := 0 to |dishes|
      invariant positions == Hits(text, dishes[..n])
    {
      var best := BestOf(text, dishes[n].names);
      if best.Some? { positions := positions + [Hit(best.value, n)]; }
      assert dishes[..n + 1][..n] == dishes[..n];
    }
    assert dishes[..|dishes|] == dishes;
  }

  method IsFree(span: Span, chosen: seq<Hit>) returns (free: bool)
    ensures free <==> forall c :: c in chosen ==> !Overlap(span, c.span)
  {
    for i := 0 to |chosen|
      invariant forall j :: 0 <= j < i ==> !Overlap(span, chosen[j].span)
    {
      if Overlap(span, chosen[i].span) { return false; }
    }
    free := true;
  }

  /** Keeps the occupied spans, and the ids already matched. */
  method ChooseInOrder(sorted: seq<Hit>, dishes: seq<Dish>) returns (chosen: seq<Hit>)
    ensures chosen == Choose(sorted, dishes)
  {
    var ids: set<string> := {};
    chosen := [];
    for n := 0 to |sorted|
      invariant chosen == Choose(sorted[..n], dishes)
      invariant forall id :: id in ids <==> exists c :: c in chosen && IdOf(dishes, c) == id
    {
      var h := sorted[n];
      assert sorted[..n + 1][..n] == sorted[..n];
      var free := IsFree(h.span, chosen);
      if free && IdOf(dishes, h) !in ids {
        chosen, ids := chosen + [h], ids + {IdOf(dishes, h)};
      }
    }
    assert sorted[..|sorted|] == sorted;
  }

  method FindItemsInText(text: string, dishes: seq<Dish>) returns (chosen: seq<Hit>)
    ensures chosen == FindAll(text, dishes)
  {
    if text == "" { return []; }
    var positions := Positions(text, dishes);
    chosen := ChooseInOrder(Sorted(positions), dishes);
  }

  method FindItemByName(text: string, dishes: seq<Dish>) returns (item: Option<nat>)
    ensures item == FindByName(text, dishes)
  {
    if text == "" { return None; }
    for n := 0 to |dishes|
      invariant ExactBelow(text, dishes, n).None?
    {
      if text in dishes[n].names {
        ExactStays(text, dishes, n + 1, |dishes|);
        return Some(n);
      }
    }
    var matches: seq<Hit> := [];
    for n := 0 to |dishes|
      invariant matches == AllHits(text, dishes[..n])
    {
      var names := dishes[n].names;
      var before := matches;
      for k := 0 to |names|
        invariant matches == before + NameHits(text, names[..k], n)
      {
        if names[k] != "" && Occurs(text, names[k]) { matches := matches + [Hit(Span(Find(text, names[k]), |names[k]|), n)]; }
        assert names[..k + 1][..k] == names[..k];
      }
      assert names[..|names|] == names;
      assert dishes[..n + 1][..n] == dishes[..n];
    }
    assert dishes[..|dishes|] == dishes;
    if matches == [] { return None; }
    item := Some(Least(matches).index);
  }

  lemma {:induction false} ExactStays(text: string, dishes: seq<Dish>, m: nat, n: nat)
    requires m <= n <= |dishes| && ExactBelow(text, dishes, m).Some?
    ensures ExactBelow(text, dishes, n) == ExactBelow(text, dishes, m)
    decreases n
  {
    if m < n { ExactStays(text, dishes, m, n - 1); }
  }

  // ---------- the sorted hits ----------

  ghost predicate Ordered(s: seq<Hit>) {
    forall i, j :: 0 <= i < j < |s| ==> !Before(s[j], s[i])
  }

  lemma {:induction false} InsertOrders(h: Hit, s: seq<Hit>)
    requires Ordered(s)
    ensures Ordered(Insert(h, s))
  {
    if s != [] && !Before(h, s[0]) {
      InsertOrders(h, s[1..]);
      var rest := Insert(h, s[1..]);
      forall j | 0 <= j < |rest| ensures !Before(rest[j], s[0]) {
        var x := rest[j];
        assert x in multiset(rest);
        assert x == h || x in s[1..];
      }
    }
  }

  lemma {:induction false} SortedOrders(s: seq<Hit>)
    ensures Ordered(Sorted(s)) && multiset(Sorted(s)) == multiset(s)
  {
    if s != [] {
      SortedOrders(s[..|s| - 1]);
      InsertOrders(s[|s| - 1], Sorted(s[..|s| - 1]));
    }
  }

  lemma SortedMembers(s: seq<Hit>)
    ensures forall h :: h in Sorted(s) <==> h in s
  {
    forall h ensures h in Sorted(s) <==> h in s {
      assert h in multiset(Sorted(s)) <==> h in multiset(s);
    }
  }

  ghost predicate IsHit(text: string, dishes: seq<Dish>, h: Hit) {
    h.index < |dishes| && BestOf(text, dishes[h.index].names) == Some(h.span)
  }

  lemma {:induction false} HitsAre(text: string, dishes: seq<Dish>)
    ensures forall h :: h in Hits(text, dishes) <==> IsHit(text, dishes, h)
  {
    if dishes != [] {
      HitsAre(text, dishes[..|dishes| - 1]);
    }
  }

  // ---------- what is chosen ----------

  lemma {:induction false} ChosenFrom(hits: seq<Hit>, dishes: seq<Dish>)
    ensures forall h :: h in Choose(hits, dishes) ==> h in hits
  {
    if hits != [] { ChosenFrom(hits[..|hits| - 1], dishes); }
  }

  /** The two share a character of the text, or are occurrences of dishes with one id. */
  ghost predicate Clash(dishes: seq<Dish>, a: Hit, b: Hit)
    requires a.index < |dishes| && b.index < |dishes|
  {
    || (a.span.position < b.span.position + b.span.length && b.span.position < a.span.position + a.span.length)
    || dishes[a.index].id == dishes[b.index].id
  }

  ghost predicate InMenu(hits: seq<Hit>, dishes: seq<Dish>) {
    forall h :: h in hits ==> h.index < |dishes|
  }

  /** A chosen hit that was ahead of hit n in the list clashes with it. */
  ghost predicate BlockedAt(hits: seq<Hit>, dishes: seq<Dish>, n: nat)
    requires InMenu(hits, dishes)
  {
    n < |hits| && exists i :: 0 <= i < n && hits[i] in Choose(hits, dishes) && Clash(dishes, hits[i], hits[n])
  }

  lemma LastBlocked(hits: seq<Hit>, dishes: seq<Dish>)
    requires InMenu(hits, dishes) && hits != [] && hits[|hits| - 1] !in Choose(hits, dishes)
    ensures BlockedAt(hits, dishes, |hits| - 1)
  {
    var n := |hits| - 1;
    var init := hits[..n];
    ChosenFrom(init, dishes);
    var c :| c in Choose(init, dishes) && (Overlap(hits[n].span, c.span) || IdOf(dishes, c) == IdOf(dishes, hits[n]));
    var i :| 0 <= i < |init| && init[i] == c;
    assert hits[i] in hits && hits[n] in hits;
    assert Clash(dishes, hits[i], hits[n]);
  }

  /** A hit that is left out clashes with a chosen one that was ahead of it in the list. */
  lemma {:induction false} LeftOutIsBlocked(hits: seq<Hit>, dishes: seq<Dish>, h: Hit)
    requires InMenu(hits, dishes) && h in hits && h !in Choose(hits, dishes)
    ensures exists n :: 0 <= n < |hits| && hits[n] == h && BlockedAt(hits, dishes, n)
  {
    var n := |hits| - 1;
    var init := hits[..n];
    assert forall x :: x in init ==> x in hits;
    if h in init {
      LeftOutIsBlocked(init, dishes, h);
      var k :| 0 <= k < |init| && init[k] == h && BlockedAt(init, dishes, k);
      var i :| 0 <= i < k && init[i] in Choose(init, dishes) && Clash(dishes, init[i], init[k]);
      assert hits[i] == init[i] && hits[k] == h;
      assert BlockedAt(hits, dishes, k);
    } else {
      assert h == hits[n];
      LastBlocked(hits, dishes);
    }
  }

  ghost predicate NoClash(chosen: seq<Hit>, dishes: seq<Dish>) {
    InMenu(chosen, dishes) && forall i, j :: 0 <= i < j < |chosen| ==> chosen[i] in chosen && chosen[j] in chosen && !Clash(dishes, chosen[i], chosen[j])
  }

  /** No two chosen hits clash. */
  lemma {:induction false} ChosenDoNotClash(hits: seq<Hit>, dishes: seq<Dish>)
    requires InMenu(hits, dishes)
    ensures NoClash(Choose(hits, dishes), dishes)
  {
    if hits != [] {
      var n := |hits| - 1;
      var init := hits[..n];
      assert forall x :: x in init ==> x in hits;
      ChosenDoNotClash(init, dishes);
      var h := hits[n];
      assert h in hits;
      if !Blocked(Choose(init, dishes), dishes, h) { NoClashSnoc(Choose(init, dishes), dishes, h); }
    }
  }

  lemma NoClashSnoc(chosen: seq<Hit>, dishes: seq<Dish>, h: Hit)
    requires NoClash(chosen, dishes) && h.index < |dishes| && !Blocked(chosen, dishes, h)
    ensures NoClash(chosen + [h], dishes)
  {
    var all := chosen + [h];
    forall i, j | 0 <= i < j < |all| ensures all[i] in all && all[j] in all && !Clash(dishes, all[i], all[j]) {
      if j == |chosen| {
        var c := chosen[i];
        assert c in chosen;
      } else {
        assert all[i] == chosen[i] && all[j] == chosen[j];
      }
    }
  }

  /** Side by side in reading order. */
  ghost predicate SideBySide(chosen: seq<Hit>) {
    forall i, j :: 0 <= i < j < |chosen| ==> chosen[i].span.position + chosen[i].span.length <= chosen[j].span.position
  }

  lemma {:induction false} ChosenSideBySide(hits: seq<Hit>, dishes: seq<Dish>)
    requires Ordered(hits) && forall h :: h in hits ==> h.span.length > 0
    ensures SideBySide(Choose(hits, dishes))
  {
    if hits != [] {
      var n := |hits| - 1;
      ChosenSideBySide(hits[..n], dishes);
      var chosen := Choose(hits[..n], dishes);
      ChosenFrom(hits[..n], dishes);
      if !Blocked(chosen, dishes, hits[n]) {
        forall i | 0 <= i < |chosen| ensures chosen[i].span.position + chosen[i].span.length <= hits[n].span.position {
          var c := chosen[i];
          assert c in chosen && c in hits[..n];
          var k :| 0 <= k < n && hits[k] == c;
          assert !Before(hits[n], hits[k]) && hits[n].span.length > 0;
        }
      }
    }
  }

  /** A non-empty name of the dish stands in the text at the span. */
  ghost predicate RealOccurrence(text: string, dishes: seq<Dish>, h: Hit) {
    && h.index < |dishes| && h.span.length > 0 && h.span.position + h.span.length <= |text|
    && text[h.span.position..h.span.position + h.span.length] in dishes[h.index].names
  }

  /** A non-empty name of the dish stands somewhere in the text. */
  ghost predicate Mentioned(text: string, d: Dish) {
    exists i, j :: 0 <= i < j <= |text| && text[i..j] in d.names
  }

  lemma HitIsReal(text: string, dishes: seq<Dish>, h: Hit)
    requires IsHit(text, dishes, h)
    ensures RealOccurrence(text, dishes, h) && h.span.length > 0
  {
    var names := dishes[h.index].names;
    BestIsBest(text, names);
    var n :| 0 <= n < |names| && names[n] != "" && Occurs(text, names[n]) && h.span == Span(Find(text, names[n]), |names[n]|);
    FindIsFirst(text, names[n]);
    assert names[n] in names;
    assert OccursAt(text, names[n], h.span.position);
  }

  /** Nothing of the dish stands earlier in the text, nor longer at the same place. */
  lemma HitIsBest(text: string, dishes: seq<Dish>, h: Hit, i: nat, j: nat)
    requires IsHit(text, dishes, h) && i < j <= |text| && text[i..j] in dishes[h.index].names
    ensures h.span.position < i || (h.span.position == i && h.span.length >= j - i)
  {
    var name := text[i..j];
    assert OccursAt(text, name, i);
    var names := dishes[h.index].names;
    BestIsBest(text, names);
    FindIsFirst(text, name);
    var n :| 0 <= n < |names| && names[n] == name;
    assert Named(names, text, Span(Find(text, names[n]), |names[n]|));
  }

  lemma MentionedIsHit(text: string, dishes: seq<Dish>, d: nat)
    requires d < |dishes| && Mentioned(text, dishes[d])
    ensures BestOf(text, dishes[d].names).Some?
  {
    var names := dishes[d].names;
    BestIsBest(text, names);
    var i, j :| 0 <= i < j <= |text| && text[i..j] in names;
    var n :| 0 <= n < |names| && names[n] == text[i..j];
    assert OccursAt(text, names[n], i);
    assert Named(names, text, Span(Find(text, names[n]), |names[n]|));
  }

  /** A hit of the dish is among the chosen ones, or clashes with a chosen one that starts earlier, or there and is no shorter. */
  ghost predicate ChosenOrBeaten(text: string, dishes: seq<Dish>, d: nat)
    requires d < |dishes|
  {
    exists h: Hit :: h.index == d && IsHit(text, dishes, h)
                && (h in FindAll(text, dishes)
                    || exists c :: c in FindAll(text, dishes) && c.index < |dishes| && Clash(dishes, c, h)
                                   && (c.span.position < h.span.position
                                       || (c.span.position == h.span.position && c.span.length >= h.span.length)))
  }

  /**
   The chosen spans are real occurrences, side by side in reading order, of different
   dishes; a dish is mentioned if and only if its best span is chosen, or is beaten by a
   chosen one it overlaps or whose dish has its id.
   */
  lemma ChosenDishes(text: string, dishes: seq<Dish>)
    requires text != ""
    ensures SideBySide(FindAll(text, dishes))
    ensures forall h :: h in FindAll(text, dishes) ==> RealOccurrence(text, dishes, h) && IsHit(text, dishes, h)
    ensures NoClash(FindAll(text, dishes), dishes)
    ensures forall d: nat | d < |dishes| :: Mentioned(text, dishes[d]) <==> ChosenOrBeaten(text, dishes, d)
  {
    var hits := Hits(text, dishes);
    var sorted := Sorted(hits);
    HitsAre(text, dishes);
    SortedOrders(hits);
    SortedMembers(hits);
    forall h | h in sorted ensures IsHit(text, dishes, h) && RealOccurrence(text, dishes, h) && h.span.length > 0 {
      HitIsReal(text, dishes, h);
    }
    ChosenSideBySide(sorted, dishes);
    ChosenFrom(sorted, dishes);
    ChosenDoNotClash(sorted, dishes);
    forall d: nat | d < |dishes| ensures Mentioned(text, dishes[d]) <==> ChosenOrBeaten(text, dishes, d) {
      if Mentioned(text, dishes[d]) { MentionedIsChosen(text, dishes, d); }
      if h: Hit :| h.index == d && IsHit(text, dishes, h) { HitIsReal(text, dishes, h); }
    }
  }

  lemma MentionedIsChosen(text: string, dishes: seq<Dish>, d: nat)
    requires text != "" && d < |dishes| && Mentioned(text, dishes[d])
    ensures ChosenOrBeaten(text, dishes, d)
  {
    var sorted := Sorted(Hits(text, dishes));
    HitsAre(text, dishes);
    SortedOrders(Hits(text, dishes));
    SortedMembers(Hits(text, dishes));
    MentionedIsHit(text, dishes, d);
    var h := Hit(BestOf(text, dishes[d].names).value, d);
    assert IsHit(text, dishes, h);
    if h !in FindAll(text, dishes) {
      LeftOutIsBlocked(sorted, dishes, h);
      var n :| 0 <= n < |sorted| && sorted[n] == h && BlockedAt(sorted, dishes, n);
      var i :| 0 <= i < n && sorted[i] in Choose(sorted, dishes) && Clash(dishes, sorted[i], sorted[n]);
      var c := sorted[i];
      assert c in sorted && !Before(h, c);
    }
  }

  // ---------- agreement of the two searches ----------

  lemma {:induction false} FirstIsChosen(hits: seq<Hit>, dishes: seq<Dish>)
    requires hits != []
    ensures Choose(hits, dishes) != [] && Choose(hits, dishes)[0] == hits[0]
  {
    if |hits| > 1 {
      FirstIsChosen(hits[..|hits| - 1], dishes);
    } else {
      assert Choose(hits[..0], dishes) == [];
    }
  }

  lemma {:induction false} NameHitsAre(text: string, names: seq<string>, index: nat)
    ensures forall h :: h in NameHits(text, names, index) <==> h.index == index && Named(names, text, h.span)
  {
    if names != [] {
      var init := names[..|names| - 1];
      NameHitsAre(text, init, index);
      forall h ensures h in NameHits(text, names, index) <==> h.index == index && Named(names, text, h.span) {
        NamedLast(names, text, h.span);
      }
    }
  }

  lemma {:induction false} AllHitsAre(text: string, dishes: seq<Dish>)
    ensures forall h :: h in AllHits(text, dishes) <==> h.index < |dishes| && Named(dishes[h.index].names, text, h.span)
    ensures IndexOrdered(AllHits(text, dishes))
  {
    if dishes != [] {
      var n := |dishes| - 1;
      AllHitsAre(text, dishes[..n]);
      NameHitsAre(text, dishes[n].names, n);
      var before, last := AllHits(text, dishes[..n]), NameHits(text, dishes[n].names, n);
      forall i | 0 <= i < |before| ensures before[i].index < n {
        var h := before[i];
        assert h in before;
      }
      forall i | 0 <= i < |last| ensures last[i].index == n {
        var h := last[i];
        assert h in last;
      }
    }
  }

  ghost predicate IndexOrdered(hits: seq<Hit>) {
    forall i, j :: 0 <= i < j < |hits| ==> hits[i].index <= hits[j].index
  }

  lemma {:induction false} LeastIsLeast(hits: seq<Hit>)
    requires hits != [] && IndexOrdered(hits)
    ensures Least(hits) in hits
    ensures forall i :: 0 <= i < |hits| ==>
              !hits[i].span.Beats(Least(hits).span) && (hits[i].span == Least(hits).span ==> Least(hits).index <= hits[i].index)
  {
    if |hits| > 1 {
      var n := |hits| - 1;
      var init := hits[..n];
      assert forall i :: 0 <= i < n ==> init[i] == hits[i];
      LeastIsLeast(init);
      assert Least(init) in hits;
      var k :| 0 <= k < n && init[k] == Least(init);
      assert Least(init).index <= hits[n].index;
    }
  }

  lemma {:induction false} ExactIsFirst(text: string, dishes: seq<Dish>, n: nat)
    requires n <= |dishes|
    ensures ExactBelow(text, dishes, n).Some? ==>
              ExactBelow(text, dishes, n).value < n && text in dishes[ExactBelow(text, dishes, n).value].names
    ensures forall d :: 0 <= d < n && text in dishes[d].names ==>
              ExactBelow(text, dishes, n).Some? && ExactBelow(text, dishes, n).value <= d
  {
    if n > 0 { ExactIsFirst(text, dishes, n - 1); }
  }

  /** A dish named by the whole text has the whole text as its best span, and only such a dish has. */
  lemma WholeText(text: string, dishes: seq<Dish>, h: Hit)
    requires text != "" && IsHit(text, dishes, h)
    ensures text in dishes[h.index].names <==> h.span == Span(0, |text|)
  {
    HitIsReal(text, dishes, h);
    if text in dishes[h.index].names {
      assert text[0..|text|] == text;
      HitIsBest(text, dishes, h, 0, |text|);
    }
    assert text[0..|text|] == text;
  }

  lemma WholeTextIsMentioned(text: string, d: Dish)
    requires text != "" && text in d.names
    ensures Mentioned(text, d)
  {
    assert text[0..|text|] == text;
  }

  /** The first sorted hit comes before every other. */
  lemma FirstSorted(text: string, dishes: seq<Dish>, h: Hit)
    requires IsHit(text, dishes, h)
    ensures Sorted(Hits(text, dishes)) != [] && IsHit(text, dishes, Sorted(Hits(text, dishes))[0])
    ensures !Before(h, Sorted(Hits(text, dishes))[0])
  {
    var sorted := Sorted(Hits(text, dishes));
    HitsAre(text, dishes);
    SortedOrders(Hits(text, dishes));
    SortedMembers(Hits(text, dishes));
    var k :| 0 <= k < |sorted| && sorted[k] == h;
    var first := sorted[0];
    assert first in sorted;
  }

  lemma FirstIsExact(text: string, dishes: seq<Dish>)
    requires text != "" && ExactBelow(text, dishes, |dishes|).Some?
    ensures Sorted(Hits(text, dishes)) != []
    ensures Sorted(Hits(text, dishes))[0].index == ExactBelow(text, dishes, |dishes|).value
  {
    ExactIsFirst(text, dishes, |dishes|);
    var e := ExactBelow(text, dishes, |dishes|).value;
    WholeTextIsMentioned(text, dishes[e]);
    MentionedIsHit(text, dishes, e);
    var h := Hit(BestOf(text, dishes[e].names).value, e);
    FirstSorted(text, dishes, h);
    var first := Sorted(Hits(text, dishes))[0];
    WholeText(text, dishes, h);
    HitIsReal(text, dishes, first);
    WholeText(text, dishes, first);
  }

  lemma FirstIsLeast(text: string, dishes: seq<Dish>)
    requires AllHits(text, dishes) != []
    ensures Sorted(Hits(text, dishes)) != []
    ensures Sorted(Hits(text, dishes))[0].index == Least(AllHits(text, dishes)).index
  {
    AllHitsAre(text, dishes);
    LeastIsLeast(AllHits(text, dishes));
    var m := Least(AllHits(text, dishes));
    BestIsBest(text, dishes[m.index].names);
    var h := Hit(BestOf(text, dishes[m.index].names).value, m.index);
    FirstSorted(text, dishes, h);
    var first := Sorted(Hits(text, dishes))[0];
    BestIsBest(text, dishes[first.index].names);
    assert first in AllHits(text, dishes);
  }

  lemma NothingMentioned(text: string, dishes: seq<Dish>)
    requires AllHits(text, dishes) == []
    ensures Hits(text, dishes) == []
  {
    AllHitsAre(text, dishes);
    HitsAre(text, dishes);
    if Hits(text, dishes) != [] {
      var h := Hits(text, dishes)[0];
      assert h in Hits(text, dishes);
      BestIsBest(text, dishes[h.index].names);
    }
  }

  /**
   The two searches agree: one finds nothing exactly when the other does, and the single
   best dish is the first of all of them, exact names and ties included.
   */
  lemma SearchesAgree(text: string, dishes: seq<Dish>)
    ensures FindAll(text, dishes) == [] <==> FindByName(text, dishes).None?
    ensures FindAll(text, dishes) != [] ==> FindByName(text, dishes) == Some(FindAll(text, dishes)[0].index)
  {
    if text != "" {
      var sorted := Sorted(Hits(text, dishes));
      if ExactBelow(text, dishes, |dishes|).Some? {
        FirstIsExact(text, dishes);
        FirstIsChosen(sorted, dishes);
      } else if AllHits(text, dishes) != [] {
        FirstIsLeast(text, dishes);
        FirstIsChosen(sorted, dishes);
      } else {
        NothingMentioned(text, dishes);
      }
    }
  }

  // ---------- the single best dish ----------

  /** Some name of dish d stands in the text from i to j. */
  ghost predicate Stands(text: string, dishes: seq<Dish>, d: nat, i: nat, j: nat) {
    d < |dishes| && i < j <= |text| && text[i..j] in dishes[d].names
  }

  /** Nothing of any dish stands earlier, or longer from the same place, and no earlier dish exactly there. */
  ghost predicate BestStand(text: string, dishes: seq<Dish>, d: nat, i: nat, j: nat) {
    && Stands(text, dishes, d, i, j)
    && forall e: nat, p: nat, q: nat :: Stands(text, dishes, e, p, q) ==> i < p || (i == p && j > q) || (i == p && j == q && d <= e)
  }

  /** The dish found by name has the text as one of its names, first of all dishes, or else the best occurrence of any name. */
  lemma FoundIsBest(text: string, dishes: seq<Dish>, d: nat)
    requires FindByName(text, dishes) == Some(d)
    ensures d < |dishes|
    ensures if exists e :: 0 <= e < |dishes| && text in dishes[e].names
            then text in dishes[d].names && forall e :: 0 <= e < d ==> text !in dishes[e].names
            else exists i, j :: BestStand(text, dishes, d, i, j)
  {
    ExactIsFirst(text, dishes, |dishes|);
    if ExactBelow(text, dishes, |dishes|).None? {
      LeastStands(text, dishes);
    }
  }

  lemma LeastStands(text: string, dishes: seq<Dish>)
    requires AllHits(text, dishes) != []
    ensures var m := Least(AllHits(text, dishes)); BestStand(text, dishes, m.index, m.span.position, m.span.position + m.span.length)
  {
    AllHitsAre(text, dishes);
    LeastIsLeast(AllHits(text, dishes));
    var m := Least(AllHits(text, dishes));
    NamedStands(text, dishes, m);
    forall e: nat, p: nat, q: nat | Stands(text, dishes, e, p, q)
      ensures m.span.position < p || (m.span.position == p && m.span.position + m.span.length > q)
              || (m.span.position == p && m.span.position + m.span.length == q && m.index <= e)
    {
      var h := StandIsNamed(text, dishes, e, p, q);
      assert h in AllHits(text, dishes);
    }
  }

  lemma NamedStands(text: string, dishes: seq<Dish>, h: Hit)
    requires h.index < |dishes| && Named(dishes[h.index].names, text, h.span)
    ensures Stands(text, dishes, h.index, h.span.position, h.span.position + h.span.length)
  {
    var names := dishes[h.index].names;
    var n :| 0 <= n < |names| && names[n] != "" && Occurs(text, names[n]) && h.span == Span(Find(text, names[n]), |names[n]|);
    FindIsFirst(text, names[n]);
    assert OccursAt(text, names[n], h.span.position) && names[n] in names;
  }

  /** The first occurrence of a name that stands in the text is a hit, and no later. */
  lemma StandIsNamed(text: string, dishes: seq<Dish>, d: nat, i: nat, j: nat) returns (h: Hit)
    requires Stands(text, dishes, d, i, j)
    ensures h.index == d && Named(dishes[d].names, text, h.span) && h.span.position <= i && h.span.length == j - i
  {
    var names := dishes[d].names;
    var n :| 0 <= n < |names| && names[n] == text[i..j];
    assert OccursAt(text, names[n], i);
    FindIsFirst(text, names[n]);
    h := Hit(Span(Find(text, names[n]), |names[n]|), d);
  }
}
