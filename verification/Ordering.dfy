/** Taking a set of numbers in ascending order. */
module Ordering {

  ghost predicate Ascending(s: seq<int>) {
    forall i, j | 0 <= i < j < |s| :: s[i] < s[j]
  }

  lemma SomeMember(s: set<int>)
    ensures s == {} || exists y: int :: y in s
  {
    if forall y: int :: y !in s { assert s == {}; }
  }

  method Smallest(s: set<int>) returns (x: int)
    requires s != {}
    ensures x in s && forall y | y in s :: x <= y
  {
    SomeMember(s);
    x :| x in s;
    var left := s - {x};
    while left != {}
      invariant x in s && left <= s && forall y | y in s && y !in left :: x <= y
      decreases left
    {
      SomeMember(left);
      var y :| y in left;
      left := left - {y};
      if y < x { x := y; }
    }
  }

  method Greatest(s: set<int>) returns (x: int)
    requires s != {}
    ensures x in s && forall y | y in s :: y <= x
  {
    SomeMember(s);
    x :| x in s;
    var left := s - {x};
    while left != {}
      invariant x in s && left <= s && forall y | y in s && y !in left :: y <= x
      decreases left
    {
      SomeMember(left);
      var y :| y in left;
      left := left - {y};
      if x < y { x := y; }
    }
  }

  lemma AscendingSnoc(s: seq<int>, n: int)
    requires Ascending(s) && forall m | m in s :: m < n
    ensures Ascending(s + [n])
  {
    assert forall i | 0 <= i < |s| :: s[i] in s;
  }

  /** `sorted(s)` */
  method SortedMembers(s: set<int>) returns (order: seq<int>)
    ensures Ascending(order) && |order| == |s| && forall n :: n in order <==> n in s
  {
    order := [];
    var left := s;
    while left != {}
      invariant left <= s && |order| + |left| == |s|
      invariant forall n :: n in s <==> n in left || n in order
      invariant forall n | n in order :: forall m | m in left :: n < m
      invariant Ascending(order)
      decreases |left|
    {
      var n := Smallest(left);
      AscendingSnoc(order, n);
      var rest := left - {n};
      assert |rest| == |left| - 1;
      left, order := rest, order + [n];
    }
  }
}
