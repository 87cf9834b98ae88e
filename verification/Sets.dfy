/** Small facts about finite sets. */
module Sets {

  lemma AnyMember<T>(s: set<T>) returns (x: T)
    requires s != {}
    ensures x in s
  {
    x :| x in s;
  }

  lemma SubsetSize<T>(a: set<T>, b: set<T>)
    requires a <= b
    ensures |a| <= |b|
    ensures |a| == |b| ==> a == b
  {
    assert b == a + (b - a);
  }

  lemma Growth<T>(a: set<T>, b: set<T>)
    requires a <= b
    ensures |b| == |a| + |b - a|
  {
    assert b == a + (b - a);
  }

  lemma RemoveSize<T>(s: set<T>, x: T)
    requires x in s
    ensures |s - {x}| == |s| - 1
  {
  }

  lemma {:induction false} LeastExists(ids: set<int>)
    requires ids != {}
    ensures exists m :: m in ids && forall x :: x in ids ==> m <= x
  {
    var x := AnyMember(ids);
    if ids != {x} {
      LeastExists(ids - {x});
      var m :| m in ids - {x} && forall y :: y in ids - {x} ==> m <= y;
      var least := if m < x then m else x;
      assert forall y :: y in ids ==> y == x || y in ids - {x};
      assert least in ids && forall y :: y in ids ==> least <= y;
    }
  }

  function Least(ids: set<int>): (m: int)
    requires ids != {}
    ensures m in ids && forall x :: x in ids ==> m <= x
  {
    LeastExists(ids);
    var m :| m in ids && forall x :: x in ids ==> m <= x;
    m
  }

  /** The ids 1..n. */
  function Range(n: nat): (ids: set<int>)
    ensures forall id :: id in ids <==> 1 <= id <= n
    ensures |ids| == n
  {
    if n == 0 then {} else Range(n - 1) + {n}
  }
}
