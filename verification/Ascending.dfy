/** The keys of a table in ascending order: `sorted(keys)`. */
module Ascending {
  predicate IsLeast(s: set<int>, m: int) { m in s && forall x :: x in s ==> m <= x }

  lemma Member<T>(s: set<T>) returns (x: T)
    requires |s| > 0
    ensures x in s
  {
    x :| x in s;
  }

  lemma SomeLeast(s: set<int>) returns (m: int)
    requires |s| > 0
    ensures IsLeast(s, m)
    decreases |s|
  {
    m := Member(s);
    if s - {m} != {} {
      var n := SomeLeast(s - {m});
      assert forall x :: x in s ==> x == m || x in s - {m};
      if n < m { m := n; }
    }
  }

  lemma HasLeast(s: set<int>)
    requires s != {}
    ensures exists m :: IsLeast(s, m)
  {
    var m := SomeLeast(s);
  }

  function Least(s: set<int>): (m: int)
    requires s != {}
    ensures IsLeast(s, m)
  {
    HasLeast(s);
    var m :| IsLeast(s, m);
    m
  }

  function Sorted(s: set<int>): (r: seq<int>)
    ensures forall x :: x in r <==> x in s
    ensures forall i, j :: 0 <= i < j < |r| ==> r[i] < r[j]
    decreases |s|
  {
    if s == {} then []
    else
      var m := Least(s);
      [m] + Sorted(s - {m})
  }
}
