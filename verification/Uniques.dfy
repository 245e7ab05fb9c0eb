/** Keeping the first occurrence of each value: what the repository does wherever it appends to
    a list only what the list does not hold yet. */
module Uniques {

  function Unique<T(==,!new)>(s: seq<T>): (r: seq<T>)
    ensures forall x :: x in r <==> x in s
    ensures forall i, j :: 0 <= i < j < |r| ==> r[i] != r[j]
  {
    if s == [] then []
    else
      var front := Unique(s[..|s| - 1]);
      assert s == s[..|s| - 1] + [s[|s| - 1]];
      if s[|s| - 1] in front then front else front + [s[|s| - 1]]
  }

  lemma UniqueSnoc<T(!new)>(s: seq<T>, x: T)
    ensures Unique(s + [x]) == if x in Unique(s) then Unique(s) else Unique(s) + [x]
  {
    assert (s + [x])[..|s|] == s;
  }

  lemma UniqueEmpty<T(!new)>(s: seq<T>)
    ensures Unique(s) == [] <==> s == []
  {
    if s != [] { assert s[0] in Unique(s); }
  }

  /** Values keep the order of their first occurrences: of two values kept, the earlier one
      occurs before the later one does for the first time. */
  lemma {:induction false} UniqueKeepsOrder<T(!new)>(s: seq<T>, i: nat, j: nat)
    requires i < j < |Unique(s)|
    ensures exists p, q :: 0 <= p < q < |s| && s[p] == Unique(s)[i] && s[q] == Unique(s)[j]
              && Unique(s)[j] !in s[..q]
    decreases |s|
  {
    var front := s[..|s| - 1];
    if j < |Unique(front)| {
      UniqueKeepsOrder(front, i, j);
      var p, q :| 0 <= p < q < |front| && front[p] == Unique(front)[i] && front[q] == Unique(front)[j]
        && Unique(front)[j] !in front[..q];
      assert s[..q] == front[..q];
      assert s[p] == Unique(s)[i] && s[q] == Unique(s)[j];
    } else {
      assert Unique(front)[i] in front;
      var p :| 0 <= p < |front| && front[p] == Unique(front)[i];
      assert s[p] == Unique(s)[i] && s[|s| - 1] == Unique(s)[j] && s[..|s| - 1] == front;
    }
  }
}
