/** Python's `sorted` on a set of integers. */
module Sorting {

  predicate Ascending(r: seq<int>) {
    forall i, j :: 0 <= i < j < |r| ==> r[i] < r[j]
  }

  predicate IsLeast(m: int, s: set<int>) {
    m in s && forall x :: x in s ==> m <= x
  }

  function Below(s: set<int>, y: int): set<int> {
    set x | x in s && x < y
  }

  /** A set of integers that has an element has a least one. */
  lemma {:induction false} LeastExists(s: set<int>, y: int)
    requires y in s
    ensures exists m :: IsLeast(m, s)
    decreases Below(s, y)
  {
    if exists x :: x in s && x < y {
      var x :| x in s && x < y;
      assert x in Below(s, y) && x !in Below(s, x) && Below(s, x) <= Below(s, y);
      LeastExists(s, x);
    } else {
      assert IsLeast(y, s);
    }
  }

  function Sorted(s: set<int>): (r: seq<int>)
    ensures forall x :: x in r <==> x in s
    ensures Ascending(r)
    decreases s
  {
    if exists y :: y in s then
      assert exists m :: IsLeast(m, s) by {
        var y :| y in s;
        LeastExists(s, y);
      }
      var m :| IsLeast(m, s);
      [m] + Sorted(s - {m})
    else []
  }
}
