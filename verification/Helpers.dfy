/** What several modules share. */
module Helpers {

  datatype Option<+T> = None | Some(value: T)

  function Min(a: int, b: int): int {
    if a < b then a else b
  }

  function Max(a: int, b: int): int {
    if a > b then a else b
  }

  lemma SubsetCard<T>(a: set<T>, b: set<T>)
    requires a <= b
    ensures |a| <= |b|
  {
    assert b == a + (b - a);
  }

  lemma {:induction false} Lowest(s: set<nat>) returns (low: nat)
    requires s != {}
    ensures low in s && forall x :: x in s ==> low <= x
  {
    low :| low in s;
    if s != {low} {
      var rest := s - {low};
      var m := Lowest(rest);
      assert forall y :: y in s ==> y == low || y in rest;
      low := if m < low then m else low;
    }
  }

  function Elements<T>(q: seq<T>): set<T> {
    set x | x in q
  }

  lemma {:induction false} DistinctSize<T>(q: seq<T>)
    requires forall i, j :: 0 <= i < j < |q| ==> q[i] != q[j]
    ensures |Elements(q)| == |q|
  {
    if q != [] {
      DistinctSize(q[1..]);
      assert Elements(q) == Elements(q[1..]) + {q[0]};
    }
  }
}
