/** Sorting with a comparison, as slices.SortFunc does it: what the result is,
    and an in-place method proved against that. */
module Sorting {

  /** less is a strict weak order: "neither is less" is an equivalence. */
  ghost predicate WeakOrder<T(!new)>(less: (T, T) -> bool) {
    && (forall x, y :: less(x, y) ==> !less(y, x))
    && (forall x, y, z {:trigger less(x, y), less(x, z)} {:trigger less(y, z), less(x, z)} ::
          less(x, z) ==> less(x, y) || less(y, z))
  }

  function Insert<T>(less: (T, T) -> bool, x: T, sorted: seq<T>): seq<T>
  {
    if sorted == [] || !less(sorted[0], x) then [x] + sorted
    else [sorted[0]] + Insert(less, x, sorted[1..])
  }

  function Sort<T>(less: (T, T) -> bool, s: seq<T>): seq<T>
  {
    if s == [] then [] else Insert(less, s[0], Sort(less, s[1..]))
  }

  ghost predicate Sorted<T>(less: (T, T) -> bool, s: seq<T>) {
    forall i, j :: 0 <= i < j < |s| ==> !less(s[j], s[i])
  }

  lemma {:induction false} InsertPermutes<T>(less: (T, T) -> bool, x: T, sorted: seq<T>)
    ensures multiset(Insert(less, x, sorted)) == multiset(sorted) + multiset{x}
  {
    if sorted != [] && less(sorted[0], x) {
      InsertPermutes(less, x, sorted[1..]);
      assert sorted == [sorted[0]] + sorted[1..];
    }
  }

  lemma {:induction false} SortPermutes<T>(less: (T, T) -> bool, s: seq<T>)
    ensures multiset(Sort(less, s)) == multiset(s)
  {
    if s != [] {
      SortPermutes(less, s[1..]);
      InsertPermutes(less, s[0], Sort(less, s[1..]));
      assert s == [s[0]] + s[1..];
    }
  }

  lemma SortedCons<T>(less: (T, T) -> bool, x: T, rest: seq<T>)
    requires Sorted(less, rest) && forall y :: y in multiset(rest) ==> !less(y, x)
    ensures Sorted(less, [x] + rest)
  {
    forall k | 0 <= k < |rest|
      ensures !less(rest[k], x)
    {
      assert rest[k] in multiset(rest);
    }
  }

  lemma {:induction false} InsertSorted<T(!new)>(less: (T, T) -> bool, x: T, sorted: seq<T>)
    requires WeakOrder(less) && Sorted(less, sorted)
    ensures Sorted(less, Insert(less, x, sorted))
  {
    if sorted != [] && less(sorted[0], x) {
      InsertSorted(less, x, sorted[1..]);
      InsertPermutes(less, x, sorted[1..]);
      SortedCons(less, sorted[0], Insert(less, x, sorted[1..]));
    }
  }

  lemma {:induction false} SortSorts<T(!new)>(less: (T, T) -> bool, s: seq<T>)
    requires WeakOrder(less)
    ensures Sorted(less, Sort(less, s))
  {
    if s != [] {
      SortSorts(less, s[1..]);
      InsertSorted(less, s[0], Sort(less, s[1..]));
    }
  }

  /** No two different elements tie. */
  ghost predicate NoTies<T(!new)>(less: (T, T) -> bool, m: multiset<T>) {
    forall x, y :: x in m && y in m && x != y ==> less(x, y) || less(y, x)
  }

  lemma FirstIsSame<T(!new)>(less: (T, T) -> bool, a: seq<T>, b: seq<T>)
    requires Sorted(less, a) && Sorted(less, b) && a != [] && multiset(a) == multiset(b)
    requires NoTies(less, multiset(a))
    ensures b != [] && a[0] == b[0]
  {
    assert a[0] in multiset(b) && b[0] in multiset(a) by {
      assert |multiset(a)| == |a| && |multiset(b)| == |b|;
      assert a[0] in multiset(a) && b[0] in multiset(b);
    }
    var k :| 0 <= k < |b| && b[k] == a[0];
    var l :| 0 <= l < |a| && a[l] == b[0];
  }

  lemma RestOf<T>(a: seq<T>)
    requires a != []
    ensures multiset(a[1..]) == multiset(a) - multiset{a[0]}
  {
    assert a == [a[0]] + a[1..];
  }

  /** Two sorted arrangements of the same elements are the same. */
  lemma {:induction false} SortedUnique<T(!new)>(less: (T, T) -> bool, a: seq<T>, b: seq<T>)
    requires Sorted(less, a) && Sorted(less, b) && multiset(a) == multiset(b)
    requires NoTies(less, multiset(a))
    ensures a == b
  {
    assert |multiset(a)| == |a| && |multiset(b)| == |b|;
    if a != [] {
      FirstIsSame(less, a, b);
      RestOf(a);
      RestOf(b);
      SortedUnique(less, a[1..], b[1..]);
    }
  }

  ghost predicate AllLess<T>(less: (T, T) -> bool, s: seq<T>, x: T) {
    forall i :: 0 <= i < |s| ==> less(s[i], x)
  }

  /** Where x lands: before the first element that is not less. */
  lemma {:induction false} InsertAt<T>(less: (T, T) -> bool, x: T, sorted: seq<T>, k: nat)
    requires k <= |sorted| && AllLess(less, sorted[..k], x)
    requires k == |sorted| || !less(sorted[k], x)
    ensures Insert(less, x, sorted) == sorted[..k] + [x] + sorted[k..]
  {
    if k > 0 {
      assert sorted[..k][0] == sorted[0] && sorted[..k][1..] == sorted[1..][..k - 1];
      InsertAt(less, x, sorted[1..], k - 1);
      assert sorted[1..][k - 1..] == sorted[k..];
      assert sorted[..k] == [sorted[0]] + sorted[1..][..k - 1];
    }
  }

  lemma ShiftedItems<T>(was: seq<T>, now: seq<T>, n: nat, j: nat)
    requires n <= j < |was| == |now| && now[j] == was[n]
    requires forall k :: j < k < |was| ==> now[k] == was[k]
    requires forall k :: n < k <= j ==> now[k - 1] == was[k]
    ensures now[n..] == was[n + 1..j + 1] + [was[n]] + was[j + 1..]
  {
    assert now[n..j] == was[n + 1..j + 1] && now[j + 1..] == was[j + 1..];
  }

  /** The array once the element at n has moved to j. */
  lemma Shifted<T>(less: (T, T) -> bool, was: seq<T>, now: seq<T>, n: nat, j: nat)
    requires n <= j < |was| == |now| && now[j] == was[n]
    requires forall k :: j < k < |was| ==> now[k] == was[k]
    requires forall k :: n < k <= j ==> now[k - 1] == was[k]
    requires AllLess(less, was[n + 1..j + 1], was[n])
    requires j + 1 < |was| ==> !less(was[j + 1], was[n])
    ensures now[n..] == Insert(less, was[n], was[n + 1..])
  {
    var tail := was[n + 1..];
    assert tail[..j - n] == was[n + 1..j + 1] && tail[j - n..] == was[j + 1..];
    InsertAt(less, was[n], tail, j - n);
    ShiftedItems(was, now, n, j);
  }

  /** Moves a[n] right into the sorted rest of the array. */
  method SiftRight<T>(less: (T, T) -> bool, a: array<T>, n: nat)
    requires n < a.Length
    modifies a
    ensures a[..n] == old(a[..n])
    ensures a[n..] == Insert(less, old(a[n]), old(a[n + 1..]))
  {
    var x, j := a[n], n;
    ghost var was := a[..];
    while j + 1 < a.Length && less(a[j + 1], x)
      invariant n <= j < a.Length
      invariant forall k :: 0 <= k < n || j < k < a.Length ==> a[k] == was[k]
      invariant forall k :: n < k <= j ==> a[k - 1] == was[k]
      invariant AllLess(less, was[n + 1..j + 1], x)
    {
      a[j] := a[j + 1];
      j := j + 1;
    }
    a[j] := x;
    Shifted(less, was, a[..], n, j);
  }

  /** An insertion sort from the right end. */
  method SortInPlace<T>(less: (T, T) -> bool, a: array<T>)
    modifies a
    ensures a[..] == Sort(less, old(a[..]))
  {
    ghost var was := a[..];
    var n := a.Length;
    while n > 0
      invariant 0 <= n <= a.Length
      invariant a[..n] == was[..n]
      invariant a[n..] == Sort(less, was[n..])
    {
      n := n - 1;
      assert a[n] == a[..n + 1][n] == was[n];
      assert a[..n] == a[..n + 1][..n] == was[..n];
      assert was[n..][1..] == was[n + 1..];
      SiftRight(less, a, n);
    }
    assert a[..] == a[0..] && was == was[0..];
  }
}
