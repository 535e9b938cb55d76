/** Checking a customer's modifier selections against an item's groups. */
module ModifierValidation {
  import opened Wrappers
  import opened IdLists

  datatype Choice = Choice(id: int, code: string, name: string, delta: nat, active: bool)

  datatype Group = Group(id: int, code: string, required: bool, minimum: nat, maximum: nat, active: bool, choices: seq<Choice>)

  datatype Selection = Structured(groupCode: string, optionCode: string) | Named(name: string) | Malformed

  /** A group and one of its options. */
  datatype Pick = Pick(group: Group, choice: Choice)

  datatype Resolved = Resolved(groupCode: string, optionCode: string, name: string, delta: nat)

  datatype Error = NotAvailable | Ambiguous | Duplicate | Required(code: string) | TooFew(code: string) | TooMany(code: string)

  predicate Matches(p: Pick, selection: Selection) {
    match selection
    case Structured(g, o) => p.group.code == g && p.choice.code == o
    case Named(name) => p.choice.name == name
    case Malformed => false
  }

  function PicksIn(group: Group): seq<Pick> {
    seq(|group.choices|, o requires 0 <= o < |group.choices| => Pick(group, group.choices[o]))
  }

  /** Every option with its group, in configuration order. */
  function AllPicks(groups: seq<Group>): seq<Pick> {
    if groups == [] then [] else PicksIn(groups[0]) + AllPicks(groups[1..])
  }

  function Candidates(picks: seq<Pick>, selection: Selection): seq<Pick> {
    if picks == [] then []
    else (if Matches(picks[0], selection) then [picks[0]] else []) + Candidates(picks[1..], selection)
  }

  function Resolve(groups: seq<Group>, selection: Selection): Result<Pick, Error> {
    var found := Candidates(AllPicks(groups), selection);
    if found == [] then Err(NotAvailable)
    else if |found| != 1 then Err(Ambiguous)
    else if !found[0].group.active || !found[0].choice.active then Err(NotAvailable)
    else Ok(found[0])
  }

  function ResolveAll(groups: seq<Group>, selections: seq<Selection>): Result<seq<Pick>, Error> {
    if selections == [] then Ok([])
    else
      match ResolveAll(groups, selections[..|selections| - 1])
      case Err(e) => Err(e)
      case Ok(picks) =>
        match Resolve(groups, selections[|selections| - 1])
        case Err(e) => Err(e)
        case Ok(pick) => Ok(picks + [pick])
  }

  function CountOf(picks: seq<Pick>, group: int): nat {
    if picks == [] then 0 else CountOf(picks[..|picks| - 1], group) + if picks[|picks| - 1].group.id == group then 1 else 0
  }

  function Minimum(group: Group): nat {
    var least := if group.required then 1 else 0;
    if group.minimum > least then group.minimum else least
  }

  function CheckGroup(group: Group, count: nat): Option<Error> {
    if !group.active then None
    else if count == 0 && group.required then Some(Required(group.code))
    else if count < Minimum(group) then Some(TooFew(group.code))
    else if count > group.maximum then Some(TooMany(group.code))
    else None
  }

  /** The first group that is broken. */
  function CheckGroups(groups: seq<Group>, picks: seq<Pick>): Option<Error> {
    if groups == [] then None
    else
      var first := CheckGroup(groups[0], CountOf(picks, groups[0].id));
      if first.Some? then first else CheckGroups(groups[1..], picks)
  }

  function OptionIds(picks: seq<Pick>): seq<int> {
    seq(|picks|, i requires 0 <= i < |picks| => picks[i].choice.id)
  }

  function Report(picks: seq<Pick>): seq<Resolved> {
    seq(|picks|, i requires 0 <= i < |picks| => ReportOf(picks[i]))
  }

  function ReportOf(p: Pick): Resolved {
    Resolved(p.group.code, p.choice.code, p.choice.name, p.choice.delta)
  }

  ghost function Validated(groups: seq<Group>, selections: seq<Selection>): Result<seq<Resolved>, Error> {
    match ResolveAll(groups, selections)
    case Err(e) => Err(e)
    case Ok(picks) =>
      if !Distinct(OptionIds(picks)) then Err(Duplicate)
      else
        var broken := CheckGroups(groups, picks);
        if broken.Some? then Err(broken.value) else Ok(Report(picks))
  }

  /** The validator's loops: resolve, look for a repeated option, then count per group. */
  method Validate(groups: seq<Group>, selections: seq<Selection>) returns (result: Result<seq<Resolved>, Error>)
    ensures result == Validated(groups, selections)
  {
    var picks: seq<Pick> := [];
    for n := 0 to |selections|
      invariant ResolveAll(groups, selections[..n]) == Ok(picks)
    {
      assert selections[..n + 1][..n] == selections[..n];
      var r := Resolve(groups, selections[n]);
      if r.Err? {
        ErrorStays(groups, selections, n + 1);
        return Err(r.error);
      }
      picks := picks + [r.value];
    }
    assert selections[..|selections|] == selections;
    var seen: set<int> := {};
    for n := 0 to |picks|
      invariant Distinct(OptionIds(picks[..n]))
      invariant forall id :: id in seen <==> exists i :: 0 <= i < n && picks[i].choice.id == id
    {
      if picks[n].choice.id in seen {
        ghost var i :| 0 <= i < n && picks[i].choice.id == picks[n].choice.id;
        assert OptionIds(picks)[i] == OptionIds(picks)[n];
        return Err(Duplicate);
      }
      seen := seen + {picks[n].choice.id};
      assert OptionIds(picks[..n + 1]) == OptionIds(picks[..n]) + [picks[n].choice.id];
    }
    assert picks[..|picks|] == picks;
    for n := 0 to |groups|
      invariant CheckGroups(groups, picks) == CheckGroups(groups[n..], picks)
    {
      var broken := CheckGroup(groups[n], CountOf(picks, groups[n].id));
      if broken.Some? { return Err(broken.value); }
      assert groups[n..][1..] == groups[n + 1..];
    }
    result := Ok(Report(picks));
  }

  /** The first selection that does not resolve decides the error. */
  lemma {:induction false} ErrorStays(groups: seq<Group>, selections: seq<Selection>, n: nat)
    requires n <= |selections| && ResolveAll(groups, selections[..n]).Err?
    ensures ResolveAll(groups, selections) == Err(ResolveAll(groups, selections[..n]).error)
    decreases |selections|
  {
    if n == |selections| {
      assert selections[..n] == selections;
    } else {
      var init := selections[..|selections| - 1];
      assert init[..n] == selections[..n];
      ErrorStays(groups, init, n);
    }
  }

  // ---------- what acceptance means ----------

  /** Option k of the configuration, and no other, matches the selection, and it and its group are active. */
  ghost predicate StandsFor(picks: seq<Pick>, selection: Selection, k: int) {
    && OnlyMatch(picks, selection, k) && picks[k].group.active && picks[k].choice.active
  }

  ghost predicate OnlyMatch(picks: seq<Pick>, selection: Selection, k: int) {
    0 <= k < |picks| && Matches(picks[k], selection) && forall j :: 0 <= j < |picks| && Matches(picks[j], selection) ==> j == k
  }

  lemma {:induction false} NoCandidate(picks: seq<Pick>, selection: Selection)
    ensures Candidates(picks, selection) == [] <==> forall k :: 0 <= k < |picks| ==> !Matches(picks[k], selection)
  {
    if picks != [] {
      NoCandidate(picks[1..], selection);
      assert forall k :: 1 <= k < |picks| ==> picks[k] == picks[1..][k - 1];
    }
  }

  lemma {:induction false} OneCandidate(picks: seq<Pick>, selection: Selection)
    ensures |Candidates(picks, selection)| == 1 <==> exists k :: OnlyMatch(picks, selection, k)
    ensures forall k :: OnlyMatch(picks, selection, k) ==> Candidates(picks, selection) == [picks[k]]
  {
    if picks != [] {
      var rest := picks[1..];
      OneCandidate(rest, selection);
      NoCandidate(rest, selection);
      assert forall k :: 1 <= k < |picks| ==> picks[k] == rest[k - 1];
      if Matches(picks[0], selection) {
        assert (forall k :: 0 <= k < |rest| ==> !Matches(rest[k], selection)) ==> OnlyMatch(picks, selection, 0);
      } else {
        forall k ensures OnlyMatch(picks, selection, k) <==> OnlyMatch(rest, selection, k - 1) {}
        if k :| OnlyMatch(rest, selection, k) { assert OnlyMatch(picks, selection, k + 1); }
      }
    }
  }

  /** A selection resolves exactly when it stands for one option, and then to that option. */
  lemma ResolveIff(groups: seq<Group>, selection: Selection)
    ensures Resolve(groups, selection).Ok? <==> exists k :: StandsFor(AllPicks(groups), selection, k)
    ensures forall k :: StandsFor(AllPicks(groups), selection, k) ==> Resolve(groups, selection) == Ok(AllPicks(groups)[k])
  {
    OneCandidate(AllPicks(groups), selection);
    if Resolve(groups, selection).Ok? {
      var k :| OnlyMatch(AllPicks(groups), selection, k);
      assert StandsFor(AllPicks(groups), selection, k);
    }
  }

  /** What each selection stands for. */
  ghost predicate AllResolve(groups: seq<Group>, selections: seq<Selection>, picks: seq<Pick>) {
    |picks| == |selections| && forall i :: 0 <= i < |selections| ==> Resolve(groups, selections[i]) == Ok(picks[i])
  }

  lemma {:induction false} ResolveAllIff(groups: seq<Group>, selections: seq<Selection>)
    ensures ResolveAll(groups, selections).Ok? <==> forall i :: 0 <= i < |selections| ==> Resolve(groups, selections[i]).Ok?
    ensures ResolveAll(groups, selections).Ok? ==> AllResolve(groups, selections, ResolveAll(groups, selections).value)
  {
    if selections != [] { ResolveAllIff(groups, selections[..|selections| - 1]); }
  }

  /** An active group takes between its minimum and its maximum, and something if it is required. */
  ghost predicate WithinRange(group: Group, count: nat) {
    !group.active || (group.minimum <= count <= group.maximum && (group.required ==> count >= 1))
  }

  /** How a count breaks an active group, and the error that names it. */
  ghost predicate Breaks(group: Group, count: nat, e: Error) {
    group.active &&
    match e
    case Required(code) => code == group.code && group.required && count == 0
    case TooFew(code) => code == group.code && (group.required ==> count >= 1) && count < group.minimum
    case TooMany(code) => code == group.code && (group.required ==> count >= 1) && group.minimum <= count && group.maximum < count
    case _ => false
  }

  lemma {:induction false} CheckGroupsIff(groups: seq<Group>, picks: seq<Pick>)
    ensures CheckGroups(groups, picks).None? <==> forall g :: 0 <= g < |groups| ==> WithinRange(groups[g], CountOf(picks, groups[g].id))
  {
    if groups != [] {
      CheckGroupsIff(groups[1..], picks);
      assert forall g :: 1 <= g < |groups| ==> groups[g] == groups[1..][g - 1];
    }
  }

  /** The first group out of range decides the error. */
  ghost predicate FirstBroken(groups: seq<Group>, picks: seq<Pick>, g: int, e: Error) {
    && 0 <= g < |groups| && Breaks(groups[g], CountOf(picks, groups[g].id), e)
    && forall h :: 0 <= h < g ==> WithinRange(groups[h], CountOf(picks, groups[h].id))
  }

  lemma {:induction false} BrokenGroupsIff(groups: seq<Group>, picks: seq<Pick>, e: Error)
    ensures CheckGroups(groups, picks) == Some(e) <==> exists g :: FirstBroken(groups, picks, g, e)
  {
    if groups != [] {
      var rest := groups[1..];
      BrokenGroupsIff(rest, picks, e);
      var count := CountOf(picks, groups[0].id);
      assert CheckGroup(groups[0], count) == Some(e) <==> Breaks(groups[0], count, e);
      assert CheckGroup(groups[0], count).None? <==> WithinRange(groups[0], count);
      if g :| FirstBroken(groups, picks, g, e) {
        if g > 0 {
          assert WithinRange(groups[0], count);
          assert forall h :: 0 <= h < g - 1 ==> rest[h] == groups[h + 1];
          assert FirstBroken(rest, picks, g - 1, e);
        }
      }
      if CheckGroups(groups, picks) == Some(e) {
        if CheckGroup(groups[0], count).Some? {
          assert FirstBroken(groups, picks, 0, e);
        } else {
          var g :| FirstBroken(rest, picks, g, e);
          assert forall h :: 1 <= h < g + 1 ==> groups[h] == rest[h - 1];
          assert FirstBroken(groups, picks, g + 1, e);
        }
      }
    }
  }

  lemma {:induction false} ResolveAllIs(groups: seq<Group>, selections: seq<Selection>, picks: seq<Pick>)
    requires AllResolve(groups, selections, picks)
    ensures ResolveAll(groups, selections) == Ok(picks)
  {
    if selections != [] {
      var n := |selections| - 1;
      ResolveAllIs(groups, selections[..n], picks[..n]);
      assert picks == picks[..n] + [picks[n]];
    }
  }

  /** The picks answer the selections one by one, none twice, with every active group in range. */
  ghost predicate Accepts(groups: seq<Group>, selections: seq<Selection>, picks: seq<Pick>) {
    && |picks| == |selections|
    && (forall i :: 0 <= i < |selections| ==> Answers(groups, selections[i], picks[i]))
    && Distinct(OptionIds(picks))
    && (forall g :: 0 <= g < |groups| ==> WithinRange(groups[g], CountOf(picks, groups[g].id)))
  }

  ghost predicate Answers(groups: seq<Group>, selection: Selection, pick: Pick) {
    exists k :: StandsFor(AllPicks(groups), selection, k) && AllPicks(groups)[k] == pick
  }

  lemma AnswersIff(groups: seq<Group>, selection: Selection, pick: Pick)
    ensures Answers(groups, selection, pick) <==> Resolve(groups, selection) == Ok(pick)
  {
    ResolveIff(groups, selection);
  }

  /**
   Validation succeeds if and only if every selection stands for one active option of an
   active group, no option repeats, and every active group's count is in its effective range.
   */
  lemma AcceptedIff(groups: seq<Group>, selections: seq<Selection>)
    ensures Validated(groups, selections).Ok? <==> exists picks :: Accepts(groups, selections, picks)
    ensures forall picks :: Accepts(groups, selections, picks) ==> Validated(groups, selections) == Ok(Report(picks))
  {
    ResolveAllIff(groups, selections);
    if Validated(groups, selections).Ok? {
      var picks := ResolveAll(groups, selections).value;
      forall i | 0 <= i < |selections| ensures Answers(groups, selections[i], picks[i]) {
        AnswersIff(groups, selections[i], picks[i]);
      }
      CheckGroupsIff(groups, picks);
      assert Accepts(groups, selections, picks);
    }
    forall picks | Accepts(groups, selections, picks) ensures Validated(groups, selections) == Ok(Report(picks)) {
      AcceptedIs(groups, selections, picks);
    }
  }

  lemma AcceptedIs(groups: seq<Group>, selections: seq<Selection>, picks: seq<Pick>)
    requires Accepts(groups, selections, picks)
    ensures Validated(groups, selections) == Ok(Report(picks)) && ResolveAll(groups, selections) == Ok(picks)
  {
    forall i | 0 <= i < |selections| ensures Resolve(groups, selections[i]) == Ok(picks[i]) {
      AnswersIff(groups, selections[i], picks[i]);
    }
    ResolveAllIs(groups, selections, picks);
    CheckGroupsIff(groups, picks);
  }

  // ---------- acceptance in terms of the configuration alone ----------

  /** The selection names option o of group g, by both codes or by the option's name. */
  ghost predicate Names(groups: seq<Group>, selection: Selection, g: int, o: int) {
    && 0 <= g < |groups| && 0 <= o < |groups[g].choices|
    && ((selection.Structured? && groups[g].code == selection.groupCode && groups[g].choices[o].code == selection.optionCode)
        || (selection.Named? && groups[g].choices[o].name == selection.name))
  }

  ghost predicate OnlyNames(groups: seq<Group>, selection: Selection, g: int, o: int) {
    Names(groups, selection, g, o) && forall h, p :: Names(groups, selection, h, p) ==> h == g && p == o
  }

  /** Where an option stands in configuration order. */
  ghost function Position(groups: seq<Group>, g: nat, o: nat): nat
    requires g < |groups|
  {
    if g == 0 then o else |groups[0].choices| + Position(groups[1..], g - 1, o)
  }

  lemma {:induction false} PickAt(groups: seq<Group>, g: nat, o: nat)
    requires g < |groups| && o < |groups[g].choices|
    ensures Position(groups, g, o) < |AllPicks(groups)|
    ensures AllPicks(groups)[Position(groups, g, o)] == Pick(groups[g], groups[g].choices[o])
  {
    if g > 0 { PickAt(groups[1..], g - 1, o); }
  }

  lemma {:induction false} PositionsDiffer(groups: seq<Group>, g: nat, o: nat, h: nat, p: nat)
    requires g < |groups| && o < |groups[g].choices| && h < |groups| && p < |groups[h].choices|
    ensures Position(groups, g, o) == Position(groups, h, p) ==> g == h && o == p
  {
    if g > 0 && h > 0 { PositionsDiffer(groups[1..], g - 1, o, h - 1, p); }
  }

  lemma {:induction false} Locate(groups: seq<Group>, k: nat) returns (g: nat, o: nat)
    requires k < |AllPicks(groups)|
    ensures g < |groups| && o < |groups[g].choices| && Position(groups, g, o) == k
  {
    if k < |groups[0].choices| {
      g, o := 0, k;
    } else {
      g, o := Locate(groups[1..], k - |groups[0].choices|);
      g := g + 1;
    }
  }

  lemma NamesMatch(groups: seq<Group>, selection: Selection, g: nat, o: nat)
    requires g < |groups| && o < |groups[g].choices|
    ensures Position(groups, g, o) < |AllPicks(groups)|
    ensures Names(groups, selection, g, o) <==> Matches(AllPicks(groups)[Position(groups, g, o)], selection)
  {
    PickAt(groups, g, o);
  }

  lemma OnlyNamesIff(groups: seq<Group>, selection: Selection, g: nat, o: nat)
    requires g < |groups| && o < |groups[g].choices|
    ensures OnlyNames(groups, selection, g, o) <==> OnlyMatch(AllPicks(groups), selection, Position(groups, g, o))
  {
    var picks, k := AllPicks(groups), Position(groups, g, o);
    NamesMatch(groups, selection, g, o);
    if OnlyNames(groups, selection, g, o) {
      forall j | 0 <= j < |picks| && Matches(picks[j], selection) ensures j == k {
        var h, p := Locate(groups, j);
        NamesMatch(groups, selection, h, p);
        assert Names(groups, selection, h, p);
      }
    }
    if OnlyMatch(picks, selection, k) {
      forall h, p | Names(groups, selection, h, p) ensures h == g && p == o {
        NamesMatch(groups, selection, h, p);
        PositionsDiffer(groups, g, o, h, p);
      }
    }
  }

  /** The selection names one option and no other, and the option and its group are active. */
  ghost predicate Means(groups: seq<Group>, selection: Selection, g: int, o: int) {
    OnlyNames(groups, selection, g, o) && groups[g].active && groups[g].choices[o].active
  }

  /** A selection resolves to an option if and only if it means it; two named options are ambiguous; everything else is unavailable. */
  lemma ResolveMeans(groups: seq<Group>, selection: Selection)
    ensures forall pick :: Resolve(groups, selection) == Ok(pick)
              <==> exists g, o :: Means(groups, selection, g, o) && pick == Pick(groups[g], groups[g].choices[o])
    ensures Resolve(groups, selection) == Err(Ambiguous)
       <==> exists g, o, h, p :: Names(groups, selection, g, o) && Names(groups, selection, h, p) && (g != h || o != p)
    ensures Resolve(groups, selection).Err? ==> Resolve(groups, selection).error in {Ambiguous, NotAvailable}
  {
    ResolvesToMeant(groups, selection);
    AmbiguousIff(groups, selection);
  }

  lemma ResolvesToMeant(groups: seq<Group>, selection: Selection)
    ensures forall pick :: Resolve(groups, selection) == Ok(pick)
              <==> exists g, o :: Means(groups, selection, g, o) && pick == Pick(groups[g], groups[g].choices[o])
  {
    ResolveIff(groups, selection);
    var picks := AllPicks(groups);
    forall pick | Resolve(groups, selection) == Ok(pick)
      ensures exists g, o :: Means(groups, selection, g, o) && pick == Pick(groups[g], groups[g].choices[o])
    {
      var k :| StandsFor(picks, selection, k);
      var g, o := Locate(groups, k);
      PickAt(groups, g, o);
      OnlyNamesIff(groups, selection, g, o);
      assert Means(groups, selection, g, o);
    }
    forall g, o | Means(groups, selection, g, o) ensures Resolve(groups, selection) == Ok(Pick(groups[g], groups[g].choices[o])) {
      PickAt(groups, g, o);
      OnlyNamesIff(groups, selection, g, o);
      assert StandsFor(picks, selection, Position(groups, g, o));
    }
  }

  lemma AmbiguousIff(groups: seq<Group>, selection: Selection)
    ensures Resolve(groups, selection) == Err(Ambiguous)
       <==> exists g, o, h, p :: Names(groups, selection, g, o) && Names(groups, selection, h, p) && (g != h || o != p)
  {
    var picks := AllPicks(groups);
    NoCandidate(picks, selection);
    OneCandidate(picks, selection);
    if Resolve(groups, selection) == Err(Ambiguous) {
      var k :| 0 <= k < |picks| && Matches(picks[k], selection);
      assert !OnlyMatch(picks, selection, k);
      var j :| 0 <= j < |picks| && Matches(picks[j], selection) && j != k;
      var g, o := Locate(groups, k);
      var h, p := Locate(groups, j);
      NamesMatch(groups, selection, g, o);
      NamesMatch(groups, selection, h, p);
    }
    if g, o, h, p :| Names(groups, selection, g, o) && Names(groups, selection, h, p) && (g != h || o != p) {
      NamesMatch(groups, selection, g, o);
      NamesMatch(groups, selection, h, p);
      PositionsDiffer(groups, g, o, h, p);
      forall k ensures !OnlyMatch(picks, selection, k) {}
    }
  }

  /** How many of the selections chose an option of the group. */
  ghost function ChosenIn(groups: seq<Group>, chosen: seq<(int, int)>, g: int): nat
    requires 0 <= g < |groups| && forall i :: 0 <= i < |chosen| ==> 0 <= chosen[i].0 < |groups|
  {
    |set i | 0 <= i < |chosen| && groups[chosen[i].0].id == groups[g].id|
  }

  lemma {:induction false} CountIsNumber(picks: seq<Pick>, group: int)
    ensures CountOf(picks, group) == |set i | 0 <= i < |picks| && picks[i].group.id == group|
  {
    if picks != [] {
      var n := |picks| - 1;
      CountIsNumber(picks[..n], group);
      var before := set i | 0 <= i < n && picks[..n][i].group.id == group;
      var all := set i | 0 <= i < |picks| && picks[i].group.id == group;
      assert all == before + if picks[n].group.id == group then {n} else {};
    }
  }

  /**
   The answer names, selection by selection, the one active option it means; no option
   is chosen twice; every active group is in its range.
   */
  ghost predicate Fits(groups: seq<Group>, selections: seq<Selection>, chosen: seq<(int, int)>, answer: seq<Resolved>) {
    && |chosen| == |selections| == |answer|
    && (forall i :: 0 <= i < |selections| ==>
          && Means(groups, selections[i], chosen[i].0, chosen[i].1)
          && var group, choice := groups[chosen[i].0], groups[chosen[i].0].choices[chosen[i].1];
          && answer[i].groupCode == group.code && answer[i].optionCode == choice.code
          && answer[i].name == choice.name && answer[i].delta == choice.delta)
    && (forall i, j :: 0 <= i < j < |chosen| ==>
          groups[chosen[i].0].choices[chosen[i].1].id != groups[chosen[j].0].choices[chosen[j].1].id)
    && (forall g :: 0 <= g < |groups| && groups[g].active ==>
          var count := ChosenIn(groups, chosen, g);
          groups[g].minimum <= count <= groups[g].maximum && (groups[g].required ==> count >= 1))
  }

  ghost predicate PicksOf(groups: seq<Group>, chosen: seq<(int, int)>, picks: seq<Pick>) {
    && |picks| == |chosen|
    && forall i :: 0 <= i < |chosen| ==>
         0 <= chosen[i].0 < |groups| && 0 <= chosen[i].1 < |groups[chosen[i].0].choices|
         && picks[i] == Pick(groups[chosen[i].0], groups[chosen[i].0].choices[chosen[i].1])
  }

  lemma ChosenCount(groups: seq<Group>, chosen: seq<(int, int)>, picks: seq<Pick>, g: int)
    requires PicksOf(groups, chosen, picks) && 0 <= g < |groups|
    ensures ChosenIn(groups, chosen, g) == CountOf(picks, groups[g].id)
  {
    CountIsNumber(picks, groups[g].id);
    assert (set i | 0 <= i < |picks| && picks[i].group.id == groups[g].id)
        == (set i | 0 <= i < |chosen| && groups[chosen[i].0].id == groups[g].id);
  }

  lemma FitIsAccepted(groups: seq<Group>, selections: seq<Selection>, chosen: seq<(int, int)>, answer: seq<Resolved>)
    requires Fits(groups, selections, chosen, answer)
    ensures Validated(groups, selections) == Ok(answer)
  {
    var picks := seq(|chosen|, i requires 0 <= i < |chosen| => Pick(groups[chosen[i].0], groups[chosen[i].0].choices[chosen[i].1]));
    forall i | 0 <= i < |selections| ensures Answers(groups, selections[i], picks[i]) {
      assert Means(groups, selections[i], chosen[i].0, chosen[i].1);
      ResolvesToMeant(groups, selections[i]);
      AnswersIff(groups, selections[i], picks[i]);
    }
    forall g | 0 <= g < |groups| ensures WithinRange(groups[g], CountOf(picks, groups[g].id)) { ChosenCount(groups, chosen, picks, g); }
    assert Accepts(groups, selections, picks);
    AcceptedIs(groups, selections, picks);
    assert Report(picks) == answer;
  }

  lemma {:induction false} ChooseAll(groups: seq<Group>, selections: seq<Selection>, picks: seq<Pick>) returns (chosen: seq<(int, int)>)
    requires |picks| == |selections| && forall i :: 0 <= i < |selections| ==> Answers(groups, selections[i], picks[i])
    ensures PicksOf(groups, chosen, picks)
    ensures forall i :: 0 <= i < |selections| ==> Means(groups, selections[i], chosen[i].0, chosen[i].1)
  {
    if selections == [] {
      chosen := [];
    } else {
      var n := |selections| - 1;
      chosen := ChooseAll(groups, selections[..n], picks[..n]);
      AnswersIff(groups, selections[n], picks[n]);
      ResolvesToMeant(groups, selections[n]);
      var g, o :| Means(groups, selections[n], g, o) && picks[n] == Pick(groups[g], groups[g].choices[o]);
      chosen := chosen + [(g, o)];
    }
  }

  lemma AcceptedFits(groups: seq<Group>, selections: seq<Selection>) returns (chosen: seq<(int, int)>)
    requires Validated(groups, selections).Ok?
    ensures Fits(groups, selections, chosen, Validated(groups, selections).value)
  {
    AcceptedIff(groups, selections);
    var picks: seq<Pick> :| Accepts(groups, selections, picks);
    AcceptedIs(groups, selections, picks);
    chosen := ChooseAll(groups, selections, picks);
    forall g | 0 <= g < |groups| ensures ChosenIn(groups, chosen, g) == CountOf(picks, groups[g].id) { ChosenCount(groups, chosen, picks, g); }
    forall i, j | 0 <= i < j < |chosen|
      ensures groups[chosen[i].0].choices[chosen[i].1].id != groups[chosen[j].0].choices[chosen[j].1].id
    {
      assert OptionIds(picks)[i] != OptionIds(picks)[j];
    }
  }

  /** Validation answers exactly what fits the configuration. */
  lemma ValidatedFits(groups: seq<Group>, selections: seq<Selection>, answer: seq<Resolved>)
    ensures Validated(groups, selections) == Ok(answer) <==> exists chosen :: Fits(groups, selections, chosen, answer)
  {
    if Validated(groups, selections) == Ok(answer) {
      var chosen := AcceptedFits(groups, selections);
      assert Fits(groups, selections, chosen, answer);
    }
    if chosen :| Fits(groups, selections, chosen, answer) { FitIsAccepted(groups, selections, chosen, answer); }
  }

  // ---------- which error a rejected order gets ----------

  lemma {:induction false} FirstUnresolved(groups: seq<Group>, selections: seq<Selection>)
    ensures forall e :: ResolveAll(groups, selections) == Err(e)
              <==> exists n :: 0 <= n < |selections| && Resolve(groups, selections[n]) == Err(e)
                               && forall i :: 0 <= i < n ==> Resolve(groups, selections[i]).Ok?
  {
    if selections != [] {
      var n := |selections| - 1;
      FirstUnresolved(groups, selections[..n]);
      ResolveAllIff(groups, selections[..n]);
      assert forall i :: 0 <= i < n ==> selections[..n][i] == selections[i];
    }
  }

  /**
   A rejection names the first selection that does not resolve; else a repeated option;
   else the first active group out of its range, as required, too few or too many.
   */
  lemma RejectedIff(groups: seq<Group>, selections: seq<Selection>, e: Error)
    ensures Validated(groups, selections) == Err(e)
       <==> || (exists n :: 0 <= n < |selections| && Resolve(groups, selections[n]) == Err(e)
                            && forall i :: 0 <= i < n ==> Resolve(groups, selections[i]).Ok?)
            || (exists picks :: AllResolve(groups, selections, picks)
                                && if Distinct(OptionIds(picks)) then exists g :: FirstBroken(groups, picks, g, e) else e == Duplicate)
  {
    FirstUnresolved(groups, selections);
    ResolveAllIff(groups, selections);
    forall picks | AllResolve(groups, selections, picks) ensures ResolveAll(groups, selections) == Ok(picks) {
      ResolveAllIs(groups, selections, picks);
    }
    if ResolveAll(groups, selections).Ok? {
      BrokenGroupsIff(groups, ResolveAll(groups, selections).value, e);
    }
  }

  // ---------- the order of the selections ----------

  function Map<A, B>(s: seq<A>, f: A -> B): seq<B> {
    seq(|s|, i requires 0 <= i < |s| => f(s[i]))
  }

  lemma Removed<A>(s: seq<A>, j: nat)
    requires j < |s|
    ensures multiset(s[..j] + s[j + 1..]) == multiset(s) - multiset{s[j]}
  {
    assert s == s[..j] + [s[j]] + s[j + 1..];
  }

  lemma MapRemoved<A, B>(s: seq<A>, j: nat, f: A -> B)
    requires j < |s|
    ensures multiset(Map(s, f)) == multiset(Map(s[..j] + s[j + 1..], f)) + multiset{f(s[j])}
  {
    assert Map(s, f) == Map(s[..j], f) + [f(s[j])] + Map(s[j + 1..], f);
    assert Map(s[..j] + s[j + 1..], f) == Map(s[..j], f) + Map(s[j + 1..], f);
  }

  lemma RestPermuted<A>(a: seq<A>, b: seq<A>, j: nat)
    requires a != [] && j < |b| && b[j] == a[0] && multiset(a) == multiset(b)
    ensures multiset(a[1..]) == multiset(b[..j] + b[j + 1..])
  {
    assert a[..0] + a[0 + 1..] == a[1..];
    Removed(a, 0);
    Removed(b, j);
  }

  lemma {:induction false} MapPermuted<A, B>(a: seq<A>, b: seq<A>, f: A -> B)
    requires multiset(a) == multiset(b)
    ensures multiset(Map(a, f)) == multiset(Map(b, f))
    decreases |a|
  {
    if a == [] {
      assert |b| == |multiset(b)| == 0;
    } else {
      var j := IndexOf(b, a[0], multiset(a));
      RestPermuted(a, b, j);
      MapPermuted(a[1..], b[..j] + b[j + 1..], f);
      MapRemoved(a, 0, f);
      MapRemoved(b, j, f);
      assert a[..0] + a[0 + 1..] == a[1..];
    }
  }

  lemma IndexOf<A>(s: seq<A>, x: A, all: multiset<A>) returns (j: nat)
    requires multiset(s) == all && x in all
    ensures j < |s| && s[j] == x
  {
    assert x in s;
    j :| 0 <= j < |s| && s[j] == x;
  }

  lemma {:induction false} CountIsMultiplicity(picks: seq<Pick>, group: int)
    ensures CountOf(picks, group) == multiset(Map(picks, (p: Pick) => p.group.id))[group]
  {
    if picks != [] {
      var n := |picks| - 1;
      CountIsMultiplicity(picks[..n], group);
      assert Map(picks, (p: Pick) => p.group.id) == Map(picks[..n], (p: Pick) => p.group.id) + [picks[n].group.id];
    }
  }

  lemma ResolutionsPermuted(groups: seq<Group>, a: seq<Selection>, b: seq<Selection>, picks: seq<Pick>) returns (picks': seq<Pick>)
    requires multiset(a) == multiset(b) && AllResolve(groups, a, picks)
    ensures AllResolve(groups, b, picks') && multiset(picks') == multiset(picks)
  {
    forall i | 0 <= i < |b| ensures Resolve(groups, b[i]).Ok? {
      assert b[i] in multiset(b) && b[i] in multiset(a);
      var j :| 0 <= j < |a| && a[j] == b[i];
    }
    ResolveAllIff(groups, b);
    picks' := ResolveAll(groups, b).value;
    var f := (s: Selection) => PickOf(Resolve(groups, s));
    assert Map(a, f) == picks && Map(b, f) == picks';
    MapPermuted(a, b, f);
  }

  const NO_PICK := Pick(Group(0, "", false, 0, 0, false, []), Choice(0, "", "", 0, false))

  function PickOf(r: Result<Pick, Error>): Pick {
    if r.Ok? then r.value else NO_PICK
  }

  /** Acceptance does not depend on the order of the selections, and the answer is reordered with them. */
  lemma OrderDoesNotMatter(groups: seq<Group>, a: seq<Selection>, b: seq<Selection>)
    requires multiset(a) == multiset(b)
    ensures Validated(groups, a).Ok? <==> Validated(groups, b).Ok?
    ensures Validated(groups, a).Ok? ==> multiset(Validated(groups, a).value) == multiset(Validated(groups, b).value)
  {
    if Validated(groups, a).Ok? { AcceptedPermuted(groups, a, b); }
    if Validated(groups, b).Ok? { AcceptedPermuted(groups, b, a); }
  }

  lemma AcceptedPermuted(groups: seq<Group>, a: seq<Selection>, b: seq<Selection>)
    requires multiset(a) == multiset(b) && Validated(groups, a).Ok?
    ensures Validated(groups, b).Ok? && multiset(Validated(groups, a).value) == multiset(Validated(groups, b).value)
  {
    AcceptedIff(groups, a);
    var picks :| Accepts(groups, a, picks);
    forall i | 0 <= i < |a| ensures Resolve(groups, a[i]) == Ok(picks[i]) { AnswersIff(groups, a[i], picks[i]); }
    var picks' := ResolutionsPermuted(groups, a, b, picks);
    PicksPermuted(groups, b, picks, picks');
    AcceptedIs(groups, a, picks);
    AcceptedIs(groups, b, picks');
    ReportIsMap(picks);
    ReportIsMap(picks');
    MapPermuted(picks, picks', ReportOf);
  }

  lemma ReportIsMap(picks: seq<Pick>)
    ensures Report(picks) == Map(picks, ReportOf)
  {
  }

  lemma PicksPermuted(groups: seq<Group>, b: seq<Selection>, picks: seq<Pick>, picks': seq<Pick>)
    requires multiset(picks) == multiset(picks') && AllResolve(groups, b, picks') && Distinct(OptionIds(picks))
    requires forall g :: 0 <= g < |groups| ==> WithinRange(groups[g], CountOf(picks, groups[g].id))
    ensures Accepts(groups, b, picks')
  {
    var id := (p: Pick) => p.choice.id;
    assert OptionIds(picks) == Map(picks, id) && OptionIds(picks') == Map(picks', id);
    MapPermuted(picks, picks', id);
    MultisetDistinct(OptionIds(picks'), OptionIds(picks));
    MapPermuted(picks, picks', (p: Pick) => p.group.id);
    forall g ensures CountOf(picks', g) == CountOf(picks, g) {
      CountIsMultiplicity(picks, g);
      CountIsMultiplicity(picks', g);
    }
    forall i | 0 <= i < |b| ensures Answers(groups, b[i], picks'[i]) { AnswersIff(groups, b[i], picks'[i]); }
  }

  // ---------- resubmitting the structured answer ----------

  /** Group codes are unique in a menu version, option codes in a group. */
  ghost predicate CodesUnique(groups: seq<Group>) {
    && (forall g, h :: 0 <= g < h < |groups| ==> groups[g].code != groups[h].code)
    && (forall g :: 0 <= g < |groups| ==> ChoiceCodesUnique(groups[g].choices))
  }

  ghost predicate ChoiceCodesUnique(choices: seq<Choice>) {
    forall o, p :: 0 <= o < p < |choices| ==> choices[o].code != choices[p].code
  }

  ghost predicate PairsUnique(picks: seq<Pick>) {
    forall j, k :: 0 <= j < k < |picks| ==> picks[j].group.code != picks[k].group.code || picks[j].choice.code != picks[k].choice.code
  }

  lemma {:induction false} PickGroups(groups: seq<Group>, p: Pick)
    requires p in AllPicks(groups)
    ensures p.group in groups
  {
    if p in PicksIn(groups[0]) {
      assert p.group == groups[0];
    } else {
      PickGroups(groups[1..], p);
    }
  }

  lemma {:induction false} PicksUnique(groups: seq<Group>)
    requires CodesUnique(groups)
    ensures PairsUnique(AllPicks(groups))
  {
    if groups != [] {
      var head, rest := PicksIn(groups[0]), AllPicks(groups[1..]);
      PicksUnique(groups[1..]);
      forall j, k | 0 <= j < |head| && 0 <= k < |rest| ensures head[j].group.code != rest[k].group.code {
        PickGroups(groups[1..], rest[k]);
        var g :| 0 <= g < |groups[1..]| && rest[k].group == groups[1..][g];
        assert groups[1..][g] == groups[g + 1];
      }
      assert ChoiceCodesUnique(groups[0].choices);
      assert PairsUnique(head);
      PairsUniqueAppend(head, rest);
    }
  }

  lemma PairsUniqueAppend(a: seq<Pick>, b: seq<Pick>)
    requires PairsUnique(a) && PairsUnique(b)
    requires forall j, k :: 0 <= j < |a| && 0 <= k < |b| ==> a[j].group.code != b[k].group.code
    ensures PairsUnique(a + b)
  {
  }

  function Resubmission(answer: seq<Resolved>): seq<Selection> {
    Map(answer, (r: Resolved) => Structured(r.groupCode, r.optionCode))
  }

  lemma StructuredAnswers(groups: seq<Group>, selection: Selection, pick: Pick)
    requires CodesUnique(groups) && Answers(groups, selection, pick)
    ensures Answers(groups, Structured(pick.group.code, pick.choice.code), pick)
  {
    PicksUnique(groups);
    var k :| StandsFor(AllPicks(groups), selection, k) && AllPicks(groups)[k] == pick;
    assert StandsFor(AllPicks(groups), Structured(pick.group.code, pick.choice.code), k);
  }

  /** Whatever was accepted, by name or by code, its structured answer is accepted again and answered unchanged. */
  lemma ResubmittedUnchanged(groups: seq<Group>, selections: seq<Selection>)
    requires CodesUnique(groups) && Validated(groups, selections).Ok?
    ensures Validated(groups, Resubmission(Validated(groups, selections).value)) == Validated(groups, selections)
  {
    AcceptedIff(groups, selections);
    var picks: seq<Pick> :| Accepts(groups, selections, picks);
    AcceptedIs(groups, selections, picks);
    var again: seq<Selection> := Resubmission(Report(picks));
    forall i | 0 <= i < |again| ensures Answers(groups, again[i], picks[i]) {
      StructuredAnswers(groups, selections[i], picks[i]);
      assert again[i] == Structured(picks[i].group.code, picks[i].choice.code);
    }
    assert Accepts(groups, again, picks);
    AcceptedIs(groups, again, picks);
  }
}
