/** Byte strings and the standard-library string operations the harness uses.

    A Go string is a sequence of bytes. Here it is a Dafny `string` whose
    characters stand for bytes 0..255; every function is total, so no member has
    to exclude the characters above 255, which never occur. */
module Text {

  datatype Option<+T> = None | Some(value: T)

  /** What a loop has appended after adding every reported value in turn. */
  function Collect<T>(found: seq<Option<T>>): seq<T>
  {
    if found == [] then []
    else Collect(found[..|found| - 1]) + (if found[|found| - 1].Some? then [found[|found| - 1].value] else [])
  }

  lemma {:induction false} CollectEmpty<T>(found: seq<Option<T>>)
    ensures Collect(found) == [] <==> forall k :: 0 <= k < |found| ==> found[k].None?
  {
    if found != [] { CollectEmpty(found[..|found| - 1]); }
  }

  lemma CollectMore<T>(found: seq<Option<T>>, next: Option<T>)
    ensures Collect(found + [next]) == Collect(found) + (if next.Some? then [next.value] else [])
  {
    assert (found + [next])[..|found|] == found;
  }

  lemma CollectStep<T>(found: seq<Option<T>>, i: nat)
    requires i < |found|
    ensures Collect(found[..i + 1]) == Collect(found[..i]) + (if found[i].Some? then [found[i].value] else [])
  {
    assert found[..i + 1] == found[..i] + [found[i]];
    CollectMore(found[..i], found[i]);
  }

  /** One check: x is reported if bad. */
  function When<T>(bad: bool, x: T): Option<T> { if bad then Some(x) else None }

  /** One check after the others. */
  method Add<T>(reported: seq<T>, found: Option<T>, ghost checks: seq<Option<T>>, ghost i: nat)
    returns (more: seq<T>)
    requires i < |checks| && reported == Collect(checks[..i]) && checks[i] == found
    ensures more == Collect(checks[..i + 1])
  {
    CollectStep(checks, i);
    more := reported;
    if found.Some? { more := more + [found.value]; }
  }

  /** A short list of checks reports nothing when none of them does. */
  lemma FewNone<T>(checks: seq<Option<T>>)
    requires 2 <= |checks| <= 7
    ensures Collect(checks) == [] <==>
              checks[0].None? && checks[1].None? && (|checks| > 2 ==> checks[2].None?)
              && (|checks| > 3 ==> checks[3].None?) && (|checks| > 4 ==> checks[4].None?)
              && (|checks| > 5 ==> checks[5].None?) && (|checks| > 6 ==> checks[6].None?)
  {
    CollectEmpty(checks);
  }

  lemma {:induction false} CollectAppend<T>(a: seq<Option<T>>, b: seq<Option<T>>)
    ensures Collect(a + b) == Collect(a) + Collect(b)
  {
    if b == [] {
      assert a + b == a;
    } else {
      var rest := b[..|b| - 1];
      CollectAppend(a, rest);
      assert (a + b)[..|a + b| - 1] == a + rest;
    }
  }

  lemma {:induction false} InCollect<T>(found: seq<Option<T>>, x: T)
    ensures x in Collect(found) <==> exists k :: 0 <= k < |found| && found[k] == Some(x)
  {
    if found != [] {
      var before, last := found[..|found| - 1], found[|found| - 1];
      InCollect(before, x);
      assert forall k :: 0 <= k < |before| ==> before[k] == found[k];
      assert x in Collect(found) <==> x in Collect(before) || last == Some(x);
    }
  }

  /** Lists one after another. */
  function Concat<T>(parts: seq<seq<T>>): seq<T>
  {
    if parts == [] then [] else Concat(parts[..|parts| - 1]) + parts[|parts| - 1]
  }

  lemma ConcatMore<T>(parts: seq<seq<T>>, i: nat)
    requires i < |parts|
    ensures Concat(parts[..i + 1]) == Concat(parts[..i]) + parts[i]
  {
    assert parts[..i + 1][..i] == parts[..i];
  }

  lemma {:induction false} ConcatEmpty<T>(parts: seq<seq<T>>)
    ensures Concat(parts) == [] <==> forall k :: 0 <= k < |parts| ==> parts[k] == []
  {
    if parts != [] {
      var before, last := parts[..|parts| - 1], parts[|parts| - 1];
      ConcatEmpty(before);
      assert forall k :: 0 <= k < |before| ==> before[k] == parts[k];
      assert Concat(parts) == [] <==> Concat(before) == [] && last == [];
    }
  }

  lemma {:induction false} InConcat<T>(parts: seq<seq<T>>, x: T)
    ensures x in Concat(parts) <==> exists k :: 0 <= k < |parts| && x in parts[k]
  {
    if parts != [] {
      var before, last := parts[..|parts| - 1], parts[|parts| - 1];
      InConcat(before, x);
      assert forall k :: 0 <= k < |before| ==> before[k] == parts[k];
      assert x in Concat(parts) <==> x in Concat(before) || x in last;
    }
  }

  lemma NothingIn<T>(s: seq<T>)
    ensures s == [] <==> forall x :: x !in s
  {
    if s != [] { assert s[0] in s; }
  }

  /** strings.Join(parts, sep). */
  function Join(parts: seq<string>, sep: char): string
  {
    if parts == [] then ""
    else if |parts| == 1 then parts[0]
    else parts[0] + [sep] + Join(parts[1..], sep)
  }

  /** strings.Split(s, sep) for a one-byte separator: never empty. */
  function Split(s: string, sep: char): (parts: seq<string>)
    ensures |parts| >= 1
    ensures Join(parts, sep) == s
    ensures forall k :: 0 <= k < |parts| ==> sep !in parts[k]
  {
    if s == "" then [""]
    else
      var rest := Split(s[1..], sep);
      if s[0] == sep then [""] + rest
      else
        assert [[s[0]] + rest[0]] + rest[1..] != [];
        [[s[0]] + rest[0]] + rest[1..]
  }

  predicate HasPrefix(s: string, prefix: string) { prefix <= s }

  predicate HasSuffix(s: string, suffix: string) {
    |suffix| <= |s| && s[|s| - |suffix|..] == suffix
  }

  /** strings.CutPrefix; None when s does not start with prefix. */
  function CutPrefix(s: string, prefix: string): Option<string> {
    if prefix <= s then Some(s[|prefix|..]) else None
  }

  /** strings.CutSuffix; None when s does not end with suffix. */
  function CutSuffix(s: string, suffix: string): Option<string> {
    if HasSuffix(s, suffix) then Some(s[..|s| - |suffix|]) else None
  }

  /** strings.Index: the first position of sub in s, or -1. */
  function Index(s: string, sub: string): (i: int)
    ensures -1 <= i <= |s|
    ensures i >= 0 ==> sub <= s[i..]
    ensures forall j :: 0 <= j < (if i < 0 then |s| + 1 else i) ==> !(sub <= s[j..])
  {
    if sub <= s then 0
    else if s == "" then -1
    else
      var i := Index(s[1..], sub);
      assert forall j :: 1 <= j <= |s| ==> s[j..] == s[1..][j - 1..];
      if i < 0 then -1 else i + 1
  }

  predicate Contains(s: string, sub: string) { Index(s, sub) >= 0 }

  /** strings.Cut(s, sep) for a one-byte separator: the text before and after
      its first occurrence, and whether it occurs. */
  function Cut(s: string, sep: char): (r: (string, string, bool))
    ensures r.2 <==> sep in s
    ensures !r.2 ==> r.0 == s && r.1 == ""
    ensures r.2 ==> s == r.0 + [sep] + r.1
    ensures sep !in r.0
  {
    if s == "" then ("", "", false)
    else if s[0] == sep then ("", s[1..], true)
    else
      var r := Cut(s[1..], sep);
      ([s[0]] + r.0, r.1, r.2)
  }

  /** Cut at the end of a part that holds no separator. */
  lemma {:induction false} CutAt(a: string, b: string, sep: char)
    requires sep !in a
    ensures Cut(a + [sep] + b, sep) == (a, b, true)
  {
    var s := a + [sep] + b;
    if a == "" {
      assert s[1..] == b;
    } else {
      assert s[1..] == a[1..] + [sep] + b;
      CutAt(a[1..], b, sep);
      assert a == [a[0]] + a[1..];
    }
  }

  /** The byte order of strings.Compare and of the < operator on Go strings. */
  predicate Less(a: string, b: string)
  {
    b != "" && (a == "" || a[0] < b[0] || (a[0] == b[0] && Less(a[1..], b[1..])))
  }

  lemma {:induction false} LessIrreflexive(a: string)
    ensures !Less(a, a)
  {
    if a != "" { LessIrreflexive(a[1..]); }
  }

  lemma {:induction false} LessTransitive(a: string, b: string, c: string)
    requires Less(a, b) && Less(b, c)
    ensures Less(a, c)
  {
    if a != "" && a[0] == b[0] && b[0] == c[0] { LessTransitive(a[1..], b[1..], c[1..]); }
  }

  lemma {:induction false} LessTotal(a: string, b: string)
    ensures a == b || Less(a, b) || Less(b, a)
  {
    if a != "" && b != "" && a[0] == b[0] {
      LessTotal(a[1..], b[1..]);
      assert a == [a[0]] + a[1..] && b == [b[0]] + b[1..];
    }
  }

  /** A proper prefix sorts before the longer string. */
  lemma {:induction false} PrefixIsLess(a: string, b: string)
    requires a < b
    ensures Less(a, b)
  {
    if a != "" { PrefixIsLess(a[1..], b[1..]); }
  }

  // Splitting

  lemma {:induction false} SplitWhole(s: string, sep: char)
    requires sep !in s
    ensures Split(s, sep) == [s]
  {
    if s != "" {
      SplitWhole(s[1..], sep);
      assert s == [s[0]] + s[1..];
    }
  }

  lemma {:induction false} SplitAt(a: string, b: string, sep: char)
    requires sep !in a
    ensures Split(a + [sep] + b, sep) == [a] + Split(b, sep)
  {
    var s := a + [sep] + b;
    if a == "" {
      assert s[1..] == b;
    } else {
      assert s[1..] == a[1..] + [sep] + b;
      SplitAt(a[1..], b, sep);
      assert a == [a[0]] + a[1..];
    }
  }

  /** Joining pieces that hold no separator and splitting again gives them back. */
  lemma {:induction false} SplitJoin(parts: seq<string>, sep: char)
    requires parts != []
    requires forall k :: 0 <= k < |parts| ==> sep !in parts[k]
    ensures Split(Join(parts, sep), sep) == parts
  {
    if |parts| == 1 {
      SplitWhole(parts[0], sep);
    } else {
      SplitJoin(parts[1..], sep);
      SplitAt(parts[0], Join(parts[1..], sep), sep);
    }
  }

  lemma {:induction false} JoinAppend(a: seq<string>, b: seq<string>, sep: char)
    requires a != [] && b != []
    ensures Join(a + b, sep) == Join(a, sep) + [sep] + Join(b, sep)
  {
    if |a| == 1 {
      assert (a + b)[1..] == b;
    } else {
      JoinAppend(a[1..], b, sep);
      assert (a + b)[1..] == a[1..] + b;
    }
  }

  /** Where the first occurrence of sep+more must be when the part before it
      holds no sep at all. */
  lemma IndexAfter(a: string, b: string, sub: string)
    requires sub != "" && sub[0] !in a
    requires sub <= b
    ensures Index(a + b, sub) == |a|
  {
    var s := a + b;
    assert s[|a|..] == b;
    forall j | 0 <= j < |a|
      ensures !(sub <= s[j..])
    {
      assert s[j..][0] == a[j];
    }
  }

  // Lines

  /** Every line with its newline. */
  function Terminated(lines: seq<string>): string
  {
    if lines == [] then "" else lines[0] + "\n" + Terminated(lines[1..])
  }

  lemma {:induction false} TerminatedAppend(a: seq<string>, b: seq<string>)
    ensures Terminated(a + b) == Terminated(a) + Terminated(b)
  {
    if a == [] {
      assert a + b == b;
    } else {
      TerminatedAppend(a[1..], b);
      assert (a + b)[1..] == a[1..] + b && (a + b)[0] == a[0];
    }
  }

  lemma TerminatedMore(lines: seq<string>, line: string)
    ensures Terminated(lines + [line]) == Terminated(lines) + line + "\n"
  {
    TerminatedAppend(lines, [line]);
    assert Terminated([line]) == line + "\n" + Terminated([]);
  }

  lemma {:induction false} SplitTerminated(lines: seq<string>)
    requires forall k :: 0 <= k < |lines| ==> '\n' !in lines[k]
    ensures Split(Terminated(lines), '\n') == lines + [""]
  {
    if lines != [] {
      SplitTerminated(lines[1..]);
      SplitAt(lines[0], Terminated(lines[1..]), '\n');
      assert Terminated(lines) == lines[0] + ['\n'] + Terminated(lines[1..]);
      assert lines == [lines[0]] + lines[1..];
    }
  }

  /** One more byte in front. */
  function Prepended(c: char, parts: seq<string>, sep: char): (r: seq<string>)
    requires parts != []
    ensures r != []
  {
    if c == sep then [""] + parts else [[c] + parts[0]] + parts[1..]
  }

  lemma SplitCons(c: char, t: string, sep: char)
    ensures Split([c] + t, sep) == Prepended(c, Split(t, sep), sep)
  {
    assert ([c] + t)[1..] == t;
  }

  /** Two lists of pieces, the last and the first glued into one. */
  function Glue(x: seq<string>, y: seq<string>): seq<string>
    requires x != [] && y != []
  {
    x[..|x| - 1] + [x[|x| - 1] + y[0]] + y[1..]
  }

  lemma GlueCons(h: string, x: seq<string>, y: seq<string>)
    requires x != [] && y != []
    ensures Glue([h] + x, y) == [h] + Glue(x, y)
  {
    var more := [h] + x;
    assert more[..|more| - 1] == [h] + x[..|x| - 1];
  }

  lemma GluePrepended(c: char, x: seq<string>, y: seq<string>, sep: char)
    requires x != [] && y != []
    ensures Glue(Prepended(c, x, sep), y) == Prepended(c, Glue(x, y), sep)
  {
    if c == sep {
      GlueCons("", x, y);
    } else if |x| == 1 {
      assert [c] + (x[0] + y[0]) == [c] + x[0] + y[0];
    } else {
      GlueCons(x[0], x[1..], y);
      GlueCons([c] + x[0], x[1..], y);
      assert [x[0]] + x[1..] == x;
    }
  }

  /** Splitting two texts written one after the other. */
  lemma {:induction false} SplitConcat(a: string, b: string, sep: char)
    ensures Split(a + b, sep) == Glue(Split(a, sep), Split(b, sep))
  {
    if a == "" {
      assert a + b == b && "" + Split(b, sep)[0] == Split(b, sep)[0];
    } else {
      var c, t := a[0], a[1..];
      assert a == [c] + t && a + b == [c] + (t + b);
      assert Split(a, sep) == Prepended(c, Split(t, sep), sep) by { SplitCons(c, t, sep); }
      assert Split(a + b, sep) == Prepended(c, Split(t + b, sep), sep) by { SplitCons(c, t + b, sep); }
      SplitConcat(t, b, sep);
      GluePrepended(c, Split(t, sep), Split(b, sep), sep);
    }
  }

  lemma {:induction false} SplitAppend(a: string, b: string, sep: char)
    ensures Split(a + [sep] + b, sep) == Split(a, sep) + Split(b, sep)
  {
    var s := a + [sep] + b;
    if a == "" {
      assert s[1..] == b;
    } else {
      assert s[1..] == a[1..] + [sep] + b;
      SplitAppend(a[1..], b, sep);
    }
  }
}
