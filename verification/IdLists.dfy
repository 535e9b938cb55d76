/**
 Rows in id order and rows ordered by a key then id, as the menu queries list
 them, and what a renaming of ids does to such lists.
 */
module IdLists {

  /** The ids of a set below a bound, in ascending order. */
  function Ascending(ids: set<int>, bound: int): seq<int>
    decreases bound
  {
    if bound <= 0 then []
    else Ascending(ids, bound - 1) + if bound - 1 in ids then [bound - 1] else []
  }

  lemma SomeMember<T>(s: set<T>) returns (x: T)
    requires s != {}
    ensures x in s
  {
    x :| x in s;
  }

  ghost predicate Increasing(s: seq<int>) {
    forall i, j :: 0 <= i < j < |s| ==> s[i] < s[j]
  }

  ghost predicate Lists(s: seq<int>, ids: set<int>) {
    Increasing(s) && (forall x :: x in s <==> x in ids)
  }

  lemma {:induction false} AscendingLists(ids: set<int>, bound: int)
    requires forall x :: x in ids ==> 0 <= x < bound
    ensures Lists(Ascending(ids, bound), ids)
  {
    AscendingBelow(ids, bound);
    forall x | x in ids ensures x in Ascending(ids, bound) {}
  }

  lemma {:induction false} AscendingBelow(ids: set<int>, bound: int)
    ensures Increasing(Ascending(ids, bound))
    ensures forall x :: x in Ascending(ids, bound) <==> x in ids && 0 <= x < bound
    decreases bound
  {
    if bound > 0 {
      AscendingBelow(ids, bound - 1);
      var rest := Ascending(ids, bound - 1);
      forall i | 0 <= i < |rest| ensures rest[i] < bound - 1 {
        assert rest[i] in rest;
      }
    }
  }

  lemma ElementsIn(s: seq<int>, ids: set<int>)
    requires forall x :: x in s ==> x in ids
    ensures forall i :: 0 <= i < |s| ==> s[i] in ids
  {
    forall i | 0 <= i < |s| ensures s[i] in ids {
      var x := s[i];
      assert x in s;
    }
  }

  lemma AscendingIn(ids: set<int>, bound: int)
    ensures forall i :: 0 <= i < |Ascending(ids, bound)| ==> Ascending(ids, bound)[i] in ids
  {
    AscendingBelow(ids, bound);
    ElementsIn(Ascending(ids, bound), ids);
  }

  /** An increasing list is determined by its elements. */
  lemma {:induction false} IncreasingUnique(a: seq<int>, b: seq<int>)
    requires Increasing(a) && Increasing(b) && (forall x :: x in a <==> x in b)
    ensures a == b
  {
    assert |a| > 0 ==> a[0] in a;
    assert |b| > 0 ==> b[0] in b;
    if |a| > 0 {
      assert a[0] in b && b[0] in a;
      assert a[0] == b[0];
      forall x ensures x in a[1..] <==> x in b[1..] {
        if x in a[1..] { assert x in b && x != b[0]; }
        if x in b[1..] { assert x in a && x != a[0]; }
      }
      IncreasingUnique(a[1..], b[1..]);
      assert a == [a[0]] + a[1..] && b == [b[0]] + b[1..];
    }
  }

  // ---------- ordering by a key, then by id ----------

  /** The value at a key, or the given one outside the map. */
  function At(m: map<int, int>, x: int, otherwise: int): int {
    if x in m then m[x] else otherwise
  }

  predicate Before(a: int, b: int, keys: map<int, int>) {
    At(keys, a, 0) < At(keys, b, 0) || (At(keys, a, 0) == At(keys, b, 0) && a < b)
  }

  function Insert(id: int, s: seq<int>, keys: map<int, int>): (r: seq<int>)
    ensures multiset(r) == multiset(s) + multiset{id}
  {
    if s == [] then [id]
    else if Before(id, s[0], keys) then [id] + s
    else
      assert s == [s[0]] + s[1..];
      [s[0]] + Insert(id, s[1..], keys)
  }

  /** ORDER BY key, id. */
  function Sort(s: seq<int>, keys: map<int, int>): (r: seq<int>)
    ensures multiset(r) == multiset(s)
  {
    if s == [] then []
    else
      assert s == [s[0]] + s[1..];
      Insert(s[0], Sort(s[1..], keys), keys)
  }

  lemma SortMembers(s: seq<int>, keys: map<int, int>)
    ensures |Sort(s, keys)| == |s|
    ensures forall x :: x in Sort(s, keys) <==> x in s
  {
    assert |multiset(Sort(s, keys))| == |multiset(s)|;
    forall x ensures x in Sort(s, keys) <==> x in s {
      assert x in multiset(Sort(s, keys)) <==> x in multiset(s);
    }
  }

  lemma SortedIn(ids: set<int>, bound: int, keys: map<int, int>)
    ensures forall i :: 0 <= i < |Sort(Ascending(ids, bound), keys)| ==> Sort(Ascending(ids, bound), keys)[i] in ids
  {
    AscendingBelow(ids, bound);
    SortMembers(Ascending(ids, bound), keys);
    ElementsIn(Sort(Ascending(ids, bound), keys), ids);
  }

  ghost predicate Sorted(s: seq<int>, keys: map<int, int>) {
    forall i, j :: 0 <= i < j < |s| ==> s[i] == s[j] || Before(s[i], s[j], keys)
  }

  lemma {:induction false} InsertSorted(id: int, s: seq<int>, keys: map<int, int>)
    requires Sorted(s, keys)
    ensures Sorted(Insert(id, s, keys), keys)
  {
    if s != [] && !Before(id, s[0], keys) {
      InsertSorted(id, s[1..], keys);
      var rest := Insert(id, s[1..], keys);
      forall j | 0 <= j < |rest| ensures s[0] == rest[j] || Before(s[0], rest[j], keys) {
        assert rest[j] in multiset(rest);
      }
    } else if s != [] {
      forall j | 0 <= j < |s| ensures id == s[j] || Before(id, s[j], keys) {}
    }
  }

  /** Sort really orders by the key, then by id. */
  lemma {:induction false} SortSorts(s: seq<int>, keys: map<int, int>)
    ensures Sorted(Sort(s, keys), keys) && multiset(Sort(s, keys)) == multiset(s)
  {
    if s != [] {
      SortSorts(s[1..], keys);
      InsertSorted(s[0], Sort(s[1..], keys), keys);
    }
  }

  // ---------- renaming ----------

  function Rename(s: seq<int>, m: map<int, int>): (r: seq<int>)
    ensures |r| == |s| && forall i :: 0 <= i < |s| ==> r[i] == At(m, s[i], s[i])
  {
    seq(|s|, i requires 0 <= i < |s| => At(m, s[i], s[i]))
  }

  /** The renaming keeps the order of the ids it renames. */
  ghost predicate Monotone(m: map<int, int>) {
    forall a, b :: a in m && b in m && a < b ==> m[a] < m[b]
  }

  /** The renamed id has the key of the id. */
  ghost predicate SameKey(x: int, m: map<int, int>, keys: map<int, int>, keys': map<int, int>) {
    x in m && At(keys', m[x], 0) == At(keys, x, 0)
  }

  lemma RenameMembers(s: seq<int>, m: map<int, int>)
    requires forall x :: x in s ==> x in m
    ensures forall y :: y in Rename(s, m) <==> exists x :: x in s && m[x] == y
  {
    var r := Rename(s, m);
    forall x | x in s ensures m[x] in r {
      var i :| 0 <= i < |s| && s[i] == x;
      assert r[i] == m[x];
    }
    forall y | y in r ensures exists x :: x in s && m[x] == y {
      var i :| 0 <= i < |r| && r[i] == y;
      assert s[i] in s && m[s[i]] == y;
    }
  }

  lemma RenameCons(x: int, s: seq<int>, m: map<int, int>)
    ensures Rename([x] + s, m) == [At(m, x, x)] + Rename(s, m)
  {
  }

  lemma {:induction false} InsertRenamed(id: int, s: seq<int>, m: map<int, int>, keys: map<int, int>, keys': map<int, int>)
    requires Monotone(m) && SameKey(id, m, keys, keys') && forall x :: x in s ==> SameKey(x, m, keys, keys')
    ensures Insert(m[id], Rename(s, m), keys') == Rename(Insert(id, s, keys), m)
  {
    if s != [] {
      assert SameKey(s[0], m, keys, keys');
      assert Before(id, s[0], keys) == Before(m[id], m[s[0]], keys');
      if Before(id, s[0], keys) {
        RenameCons(id, s, m);
      } else {
        assert Rename(s, m)[1..] == Rename(s[1..], m);
        forall x | x in s[1..] ensures SameKey(x, m, keys, keys') { assert x in s; }
        InsertRenamed(id, s[1..], m, keys, keys');
        RenameCons(s[0], Insert(id, s[1..], keys), m);
      }
    }
  }

  /** Ordering commutes with a renaming that keeps ids in order and keys unchanged. */
  lemma {:induction false} SortRenamed(s: seq<int>, m: map<int, int>, keys: map<int, int>, keys': map<int, int>)
    requires Monotone(m) && forall x :: x in s ==> SameKey(x, m, keys, keys')
    ensures Sort(Rename(s, m), keys') == Rename(Sort(s, keys), m)
  {
    if s != [] {
      assert SameKey(s[0], m, keys, keys');
      forall x | x in s[1..] ensures SameKey(x, m, keys, keys') { assert x in s; }
      SortRenamed(s[1..], m, keys, keys');
      assert Rename(s, m)[1..] == Rename(s[1..], m);
      SortMembers(s[1..], keys);
      InsertRenamed(s[0], Sort(s[1..], keys), m, keys, keys');
    }
  }

  /** What each listed id contributes, in list order. */
  function FlatMap<T>(s: seq<int>, f: int -> seq<T>): seq<T> {
    if s == [] then [] else f(s[0]) + FlatMap(s[1..], f)
  }

  lemma {:induction false} FlatMapRenamed<T>(s: seq<int>, r: map<int, int>, f: int -> seq<T>, f': int -> seq<T>)
    requires forall x :: x in s ==> x in r && f'(r[x]) == f(x)
    ensures FlatMap(Rename(s, r), f') == FlatMap(s, f)
  {
    if s != [] {
      var x := s[0];
      assert x in s;
      forall y | y in s[1..] ensures y in r && f'(r[y]) == f(y) { assert y in s; }
      FlatMapRenamed(s[1..], r, f, f');
      assert Rename(s, r)[1..] == Rename(s[1..], r);
    }
  }

  /** The ascending list of the renamed ids is the renamed ascending list. */
  lemma AscendingRenamed(ids: set<int>, bound: int, ids': set<int>, bound': int, m: map<int, int>)
    requires forall x :: x in ids ==> 0 <= x < bound && x in m
    requires forall y :: y in ids' ==> 0 <= y < bound'
    requires Monotone(m) && forall y :: y in ids' <==> exists x :: x in ids && m[x] == y
    ensures Ascending(ids', bound') == Rename(Ascending(ids, bound), m)
  {
    AscendingLists(ids, bound);
    AscendingLists(ids', bound');
    var s := Ascending(ids, bound);
    RenameMembers(s, m);
    var r := Rename(s, m);
    forall i, j | 0 <= i < j < |r| ensures r[i] < r[j] {
      assert s[i] in s && s[j] in s;
    }
    forall x ensures x in Ascending(ids', bound') <==> x in r {}
    IncreasingUnique(Ascending(ids', bound'), r);
  }

  // ---------- numbering copies ----------

  /** The id each listed row's copy gets: base, base + 1, ... in list order. */
  function Numbering(ids: seq<int>, base: int): map<int, int>
  {
    if ids == [] then map[]
    else Numbering(ids[..|ids| - 1], base)[ids[|ids| - 1] := base + |ids| - 1]
  }

  ghost predicate Distinct(s: seq<int>) {
    forall i, j :: 0 <= i < j < |s| ==> s[i] != s[j]
  }

  lemma {:induction false} NumberingAt(ids: seq<int>, base: int)
    requires Distinct(ids)
    ensures forall x :: x in Numbering(ids, base) <==> x in ids
    ensures forall i :: 0 <= i < |ids| ==> Numbering(ids, base)[ids[i]] == base + i
  {
    if ids != [] {
      var init := ids[..|ids| - 1];
      NumberingAt(init, base);
      assert ids == init + [ids[|ids| - 1]];
    }
  }

  lemma NumberingMonotone(ids: seq<int>, base: int)
    requires Increasing(ids)
    ensures Monotone(Numbering(ids, base))
    ensures forall x :: x in Numbering(ids, base) <==> x in ids
    ensures forall i :: 0 <= i < |ids| ==> Numbering(ids, base)[ids[i]] == base + i
  {
    NumberingAt(ids, base);
    var m := Numbering(ids, base);
    forall a, b | a in m && b in m && a < b ensures m[a] < m[b] {
      var i :| 0 <= i < |ids| && ids[i] == a;
      var j :| 0 <= j < |ids| && ids[j] == b;
      assert i < j;
    }
  }

  lemma MultisetDistinct(a: seq<int>, b: seq<int>)
    requires multiset(a) == multiset(b) && Distinct(b)
    ensures Distinct(a)
  {
    forall i, j | 0 <= i < j < |a| ensures a[i] != a[j] {
      if a[i] == a[j] {
        assert a == a[..j] + [a[j]] + a[j + 1..];
        assert a[i] in a[..j];
        assert multiset(a)[a[i]] >= 2;
        DistinctOnce(b, a[i]);
      }
    }
  }

  lemma {:induction false} DistinctOnce(s: seq<int>, x: int)
    requires Distinct(s)
    ensures multiset(s)[x] <= 1
  {
    if s != [] {
      assert s == s[..|s| - 1] + [s[|s| - 1]];
      DistinctOnce(s[..|s| - 1], x);
    }
  }

  // ---------- adding numbered rows to a table ----------

  /** The table after inserting the rows at base, base + 1, ... */
  function AddRows<T>(table: map<int, T>, rows: seq<T>, base: int): map<int, T>
  {
    if rows == [] then table
    else AddRows(table, rows[..|rows| - 1], base)[base + |rows| - 1 := rows[|rows| - 1]]
  }

  lemma {:induction false} AddRowsAt<T>(table: map<int, T>, rows: seq<T>, base: int)
    ensures forall k :: k in AddRows(table, rows, base) <==> k in table || base <= k < base + |rows|
    ensures forall i :: 0 <= i < |rows| ==> AddRows(table, rows, base)[base + i] == rows[i]
    ensures forall k :: k in table && !(base <= k < base + |rows|) ==> AddRows(table, rows, base)[k] == table[k]
  {
    if rows != [] {
      var init := rows[..|rows| - 1];
      AddRowsAt(table, init, base);
    }
  }
}
