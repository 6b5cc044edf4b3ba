/** Facts about lists, sets and distances that several modules share. */
module Collections {
  function Abs(x: real): real {
    if x < 0.0 then -x else x
  }

  /** Nothing is listed twice. */
  ghost predicate Distinct<T>(s: seq<T>) {
    forall i, j :: 0 <= i < j < |s| ==> s[i] != s[j]
  }

  lemma SubsetFits<T>(a: set<T>, b: set<T>)
    requires a <= b
    ensures |a| <= |b|
  {
    assert |b| == |a| + |b - a| by {
      assert b == a + (b - a);
    }
  }

  /** A list without repetition is no longer than any set that holds its elements. */
  lemma {:induction false} DistinctFits<T>(s: seq<T>, all: set<T>)
    requires Distinct(s) && forall x :: x in s ==> x in all
    ensures |s| <= |all|
  {
    if s != [] {
      var front, last := s[..|s| - 1], s[|s| - 1];
      forall x | x in front
        ensures x in all - {last}
      {
        var i :| 0 <= i < |front| && front[i] == x;
        assert s[i] == x;
      }
      DistinctFits(front, all - {last});
    }
  }
}
