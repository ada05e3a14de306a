/** Rows of a relation table, kept as a sequence in insertion order.
    A relation with a uniqueness constraint is a sequence without repeated rows;
    deleting a row removes it and keeps the order of the others. */
module Rows {

  /** No row occurs twice: the table's unique-together constraint. */
  predicate NoDups<T(==)>(s: seq<T>)
  {
    forall i, j :: 0 <= i < j < |s| ==> s[i] != s[j]
  }

  /** The table after deleting every row equal to `x`. */
  function Without<T(==,!new)>(s: seq<T>, x: T): (r: seq<T>)
    ensures forall y :: y in r <==> y in s && y != x
    ensures x !in s ==> r == s
    ensures NoDups(s) ==> NoDups(r)
    ensures NoDups(s) && x in s ==> |r| == |s| - 1
  {
    if |s| == 0 then []
    else if s[0] == x then
      assert NoDups(s) ==> x !in s[1..];
      Without(s[1..], x)
    else
      var rest := Without(s[1..], x);
      assert NoDups(s) ==> s[0] !in rest;
      [s[0]] + rest
  }

  /** Inserting a row that was absent keeps the table free of repeats. */
  lemma AppendKeepsNoDups<T>(s: seq<T>, x: T)
    requires NoDups(s) && x !in s
    ensures NoDups(s + [x])
  {
  }

  /** Deleting the row that was just inserted gives back the table as it was. */
  lemma {:induction false} WithoutAppended<T(!new)>(s: seq<T>, x: T)
    requires x !in s
    ensures Without(s + [x], x) == s
  {
    if |s| == 0 {
      assert s + [x] == [x];
    } else {
      assert (s + [x])[1..] == s[1..] + [x];
      WithoutAppended(s[1..], x);
      assert [s[0]] + s[1..] == s;
    }
  }
}
