/**
 An event table shared by many owners. A row stores its owner and its sequence
 number; a new row takes one more than the largest number its owner has.
 */
module Journal {

  datatype Row<+T> = Row(owner: int, number: int, entry: T)

  /** `coalesce(max(sequence_number), 0)` over the rows of one owner. */
  function MaxNumber<T>(rows: seq<Row<T>>, owner: int): int
  {
    if rows == [] then 0
    else
      var rest := MaxNumber(rows[..|rows| - 1], owner);
      var last := rows[|rows| - 1];
      if last.owner == owner && last.number > rest then last.number else rest
  }

  function Append<T>(rows: seq<Row<T>>, owner: int, entry: T): seq<Row<T>>
  {
    rows + [Row(owner, MaxNumber(rows, owner) + 1, entry)]
  }

  /** The rows of one owner, in table order. */
  function RowsOf<T>(rows: seq<Row<T>>, owner: int): seq<Row<T>>
  {
    if rows == [] then []
    else
      var last := rows[|rows| - 1];
      RowsOf(rows[..|rows| - 1], owner) + if last.owner == owner then [last] else []
  }

  /** The entries of one owner, in table order. */
  function Entries<T>(rows: seq<Row<T>>, owner: int): (r: seq<T>)
    ensures |r| == |RowsOf(rows, owner)|
  {
    var mine := RowsOf(rows, owner);
    seq(|mine|, i requires 0 <= i < |mine| => mine[i].entry)
  }

  /** Every owner's rows are numbered 1, 2, 3, ... in table order. */
  ghost predicate Numbered<T>(rows: seq<Row<T>>)
  {
    forall owner, k :: 0 <= k < |RowsOf(rows, owner)| ==> RowsOf(rows, owner)[k].number == k + 1
  }

  lemma {:induction false} MaxIsCount<T>(rows: seq<Row<T>>, owner: int)
    requires forall k :: 0 <= k < |RowsOf(rows, owner)| ==> RowsOf(rows, owner)[k].number == k + 1
    ensures MaxNumber(rows, owner) == |RowsOf(rows, owner)|
  {
    if rows != [] {
      var init := rows[..|rows| - 1];
      assert forall k :: 0 <= k < |RowsOf(init, owner)| ==> RowsOf(rows, owner)[k] == RowsOf(init, owner)[k];
      MaxIsCount(init, owner);
      if rows[|rows| - 1].owner == owner {
        assert RowsOf(rows, owner)[|RowsOf(init, owner)|] == rows[|rows| - 1];
      }
    }
  }

  /** Appending writes the next number for its owner and touches no other owner. */
  lemma {:induction false} AppendExtends<T>(rows: seq<Row<T>>, owner: int, entry: T)
    requires Numbered(rows)
    ensures Numbered(Append(rows, owner, entry))
    ensures Entries(Append(rows, owner, entry), owner) == Entries(rows, owner) + [entry]
    ensures forall other :: other != owner ==> Entries(Append(rows, owner, entry), other) == Entries(rows, other)
  {
    var next := Append(rows, owner, entry);
    assert next[..|next| - 1] == rows;
    MaxIsCount(rows, owner);
    forall other ensures RowsOf(next, other) == RowsOf(rows, other) + if other == owner then [next[|rows|]] else [] {}
  }
}
