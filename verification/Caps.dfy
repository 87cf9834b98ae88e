/** normalizeCaps: the one spelling of a capability list that the client sends
    and the engine records. */
module Caps {
  import opened Text
  import opened Sorting

  const PREFIX := "CAP_"
  const ALL := "ALL"

  /** strings.ToUpper on one ASCII byte. */
  function UpperChar(c: char): char { if 'a' <= c <= 'z' then c - 'a' + 'A' else c }

  function Upper(s: string): (u: string)
    ensures |u| == |s|
  {
    seq(|s|, i requires 0 <= i < |s| => UpperChar(s[i]))
  }

  /** One capability: upper case, prefixed except for ALL. */
  function Spelling(c: string): string
  {
    var u := Upper(c);
    if u != ALL && !HasPrefix(u, PREFIX) then PREFIX + u else u
  }

  function Spellings(caps: seq<string>): (s: seq<string>)
    ensures |s| == |caps|
  {
    seq(|caps|, i requires 0 <= i < |caps| => Spelling(caps[i]))
  }

  /** slices.Compact: drops every element equal to the one before it. */
  function Compact<T(==)>(s: seq<T>): seq<T>
  {
    if |s| <= 1 then s
    else if s[0] == s[1] then Compact(s[1..])
    else [s[0]] + Compact(s[1..])
  }

  function Canonical(caps: seq<string>): seq<string> { Compact(Sort(Less, Spellings(caps))) }

  /** normalizeCaps, nil kept apart from empty. */
  function Normalized(caps: Option<seq<string>>): Option<seq<string>>
  {
    if caps.None? then None else Some(Canonical(caps.value))
  }

  // The code

  lemma {:induction false} CompactMore<T>(s: seq<T>, x: T)
    ensures Compact(s + [x]) == if s != [] && s[|s| - 1] == x then Compact(s) else Compact(s) + [x]
  {
    if |s| > 1 {
      CompactMore(s[1..], x);
      assert (s + [x])[1..] == s[1..] + [x];
      assert s[0] != s[1] ==> [s[0]] + (Compact(s[1..]) + [x]) == ([s[0]] + Compact(s[1..])) + [x];
    }
  }

  /** Keeps the distinct elements at the front of the array. */
  method CompactInPlace<T(==)>(a: array<T>) returns (n: nat)
    modifies a
    ensures n <= a.Length
    ensures a[..n] == Compact(old(a[..]))
  {
    ghost var was := a[..];
    n := 0;
    for i := 0 to a.Length
      invariant n <= i
      invariant a[i..] == was[i..]
      invariant a[..n] == Compact(was[..i])
      invariant i > 0 ==> n > 0 && a[n - 1] == was[i - 1]
    {
      assert a[i] == a[i..][0] == was[i] && a[i + 1..] == a[i..][1..] == was[i + 1..];
      CompactMore(was[..i], was[i]);
      assert was[..i + 1] == was[..i] + [was[i]];
      if i == 0 || a[i] != a[n - 1] {
        ghost var kept := a[..n];
        a[n] := a[i];
        n := n + 1;
        assert a[..n] == a[..n - 1] + [a[n - 1]] && a[..n - 1] == kept;
      }
    }
    assert was[..a.Length] == was;
  }

  /** normalizeCaps: a fresh list, spelled, sorted and compacted in place. */
  method NormalizeCaps(caps: Option<seq<string>>) returns (out: Option<seq<string>>)
    ensures out == Normalized(caps)
  {
    if caps.None? { return None; }
    var a := new string[|caps.value|];
    for i := 0 to |caps.value|
      invariant a[..i] == Spellings(caps.value)[..i]
    {
      a[i] := Spelling(caps.value[i]);
      assert a[..i + 1] == a[..i] + [a[i]];
      assert Spellings(caps.value)[..i + 1] == Spellings(caps.value)[..i] + [Spelling(caps.value[i])];
    }
    assert a[..] == Spellings(caps.value);
    SortInPlace(Less, a);
    var n := CompactInPlace(a);
    return Some(a[..n]);
  }

  // What the result is

  ghost predicate Ascending(s: seq<string>) { forall i, j :: 0 <= i < j < |s| ==> Less(s[i], s[j]) }

  lemma LessIsOrder()
    ensures WeakOrder(Less)
  {
    forall x: string, y: string
      ensures Less(x, y) ==> !Less(y, x)
    {
      LessIrreflexive(x);
      if Less(x, y) && Less(y, x) { LessTransitive(x, y, x); }
    }
    forall x: string, y: string, z: string
      ensures Less(x, z) ==> Less(x, y) || Less(y, z)
    {
      LessTotal(x, y);
      if Less(x, z) && Less(y, x) { LessTransitive(y, x, z); }
    }
  }

  lemma NextIsGreater(s: seq<string>, x: string)
    requires Sorted(Less, s) && |s| > 1 && s[0] != s[1] && x in s[1..]
    ensures Less(s[0], x)
  {
    LessTotal(s[0], s[1]);
    assert Less(s[0], s[1]);
    var k :| 0 <= k < |s[1..]| && s[1..][k] == x;
    LessTotal(s[1], x);
    if Less(s[1], x) { LessTransitive(s[0], s[1], x); }
  }

  /** On a sorted list Compact leaves each value once, still in order. */
  lemma {:induction false} CompactAscends(s: seq<string>)
    requires Sorted(Less, s)
    ensures Ascending(Compact(s))
    ensures forall x :: x in Compact(s) <==> x in s
  {
    if |s| > 1 {
      CompactAscends(s[1..]);
      var rest := Compact(s[1..]);
      assert forall x :: x in s <==> x == s[0] || x in s[1..];
      if s[0] != s[1] {
        forall k | 0 <= k < |rest|
          ensures Less(s[0], rest[k])
        {
          assert rest[k] in s[1..];
          NextIsGreater(s, rest[k]);
        }
      }
    }
  }

  lemma SortKeepsMembers(s: seq<string>)
    ensures forall x :: x in Sort(Less, s) <==> x in s
  {
    SortPermutes(Less, s);
    forall x ensures x in Sort(Less, s) <==> x in s {
      assert x in multiset(Sort(Less, s)) <==> x in multiset(s);
    }
  }

  /** The canonical form lists each spelling once, in strict order. */
  lemma CanonicalIs(caps: seq<string>)
    ensures Ascending(Canonical(caps))
    ensures forall x :: x in Canonical(caps) <==> x in Spellings(caps)
  {
    LessIsOrder();
    SortSorts(Less, Spellings(caps));
    CompactAscends(Sort(Less, Spellings(caps)));
    SortKeepsMembers(Spellings(caps));
  }

  lemma FirstSmallest(s: seq<string>, x: string)
    requires Ascending(s) && x in s
    ensures s[0] == x || Less(s[0], x)
  {
  }

  lemma NotInRest(s: seq<string>)
    requires Ascending(s) && s != []
    ensures s[0] !in s[1..]
  {
    forall k | 0 <= k < |s[1..]| ensures s[1..][k] != s[0] {
      assert Less(s[0], s[k + 1]);
      LessIrreflexive(s[0]);
    }
  }

  lemma {:induction false} AscendingUnique(a: seq<string>, b: seq<string>)
    requires Ascending(a) && Ascending(b) && forall x :: x in a <==> x in b
    ensures a == b
  {
    assert b != [] ==> b[0] in b;
    if a != [] {
      assert a[0] in b && b != [] && b[0] in a;
      FirstSmallest(a, b[0]);
      FirstSmallest(b, a[0]);
      if Less(a[0], b[0]) && Less(b[0], a[0]) { LessTransitive(a[0], b[0], a[0]); }
      LessIrreflexive(a[0]);
      assert a[0] == b[0];
      NotInRest(a);
      NotInRest(b);
      assert forall x :: x in a <==> x == a[0] || x in a[1..];
      assert forall x :: x in b <==> x == b[0] || x in b[1..];
      AscendingUnique(a[1..], b[1..]);
      assert a == [a[0]] + a[1..] && b == [b[0]] + b[1..];
    }
  }

  /** Two lists have the same canonical form exactly when they spell the same
      set of capabilities. */
  lemma CanonicalDecides(a: seq<string>, b: seq<string>)
    ensures Canonical(a) == Canonical(b) <==> forall x :: x in Spellings(a) <==> x in Spellings(b)
  {
    CanonicalIs(a);
    CanonicalIs(b);
    if forall x :: x in Spellings(a) <==> x in Spellings(b) {
      AscendingUnique(Canonical(a), Canonical(b));
    }
  }

  // Idempotence

  lemma UpperIdempotent(s: string)
    ensures Upper(Upper(s)) == Upper(s)
  {
  }

  lemma UpperPrefixed(u: string)
    ensures Upper(PREFIX + u) == PREFIX + Upper(u)
  {
  }

  lemma SpellingIdempotent(c: string)
    ensures Spelling(Spelling(c)) == Spelling(c)
  {
    var u := Upper(c);
    UpperIdempotent(c);
    UpperPrefixed(u);
  }

  lemma SpelledAlready(caps: seq<string>, once: seq<string>)
    requires forall x :: x in once ==> x in Spellings(caps)
    ensures Spellings(once) == once
  {
    forall i | 0 <= i < |once|
      ensures Spelling(once[i]) == once[i]
    {
      assert once[i] in Spellings(caps);
      var k :| 0 <= k < |caps| && Spelling(caps[k]) == once[i];
      SpellingIdempotent(caps[k]);
    }
  }

  /** Normalizing twice is normalizing once. */
  lemma NormalizedIdempotent(caps: Option<seq<string>>)
    ensures Normalized(Normalized(caps)) == Normalized(caps)
  {
    if caps.Some? {
      var once := Canonical(caps.value);
      CanonicalIs(caps.value);
      SpelledAlready(caps.value, once);
      CanonicalIs(once);
      AscendingUnique(Canonical(once), once);
    }
  }
}
