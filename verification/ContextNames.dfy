/** The context-names-clean invariant, and why generated contexts satisfy it. */
module ContextNames {
  import opened Text
  import opened Paths
  import opened FixtureImage
  import opened Dockerfiles
  import Decimal
  import Utf8

  datatype Violation =
    | EmptyName(name: string)
    | NotRelativeClean(name: string)
    | BadBytes(name: string)
    | AppearsTwice(name: string)

  predicate ClimbsUp(n: string) { n == ".." || HasPrefix(n, "../") }

  /** The first two cases of the switch: the path itself. */
  function PathIssue(n: string): Option<Violation> {
    if n == "" || n == "." then Some(EmptyName(n))
    else if Rooted(n) || Clean(n) != n || ClimbsUp(n) then Some(NotRelativeClean(n))
    else None
  }

  predicate BytesBad(n: string) { '\\' in n || '\0' in n || !Utf8.Valid(n) }

  function Issue(names: seq<string>, i: nat): Option<Violation>
    requires i < |names|
  {
    var n := names[i];
    if PathIssue(n).Some? then PathIssue(n)
    else if BytesBad(n) then Some(BadBytes(n))
    else if n in names[..i] then Some(AppearsTwice(n))
    else None
  }

  function Issues(names: seq<string>): (found: seq<Option<Violation>>)
    ensures |found| == |names|
  {
    seq(|names|, i requires 0 <= i < |names| => Issue(names, i))
  }

  function Violations(names: seq<string>): seq<Violation> { Collect(Issues(names)) }

  function Names(files: seq<ContextFile>): seq<string> { seq(|files|, i requires 0 <= i < |files| => files[i].name) }

  /** contextNamesClean. */
  method ContextNamesClean(files: seq<ContextFile>) returns (bad: seq<Violation>)
    ensures bad == Violations(Names(files))
  {
    ghost var names, issues := Names(files), Issues(Names(files));
    bad := [];
    var seen: set<string> := {};
    for i := 0 to |files|
      invariant bad == Collect(issues[..i])
      invariant forall n :: n in seen <==> n in names[..i]
    {
      var n := files[i].name;
      assert names[i] == n && issues[i] == Issue(names, i) && issues[..i + 1] == issues[..i] + [issues[i]];
      CollectMore(issues[..i], issues[i]);
      if PathIssue(n).Some? {
        bad := bad + [PathIssue(n).value];
      } else if BytesBad(n) {
        bad := bad + [BadBytes(n)];
      } else if n in seen {
        bad := bad + [AppearsTwice(n)];
      }
      seen := seen + {n};
      assert names[..i + 1] == names[..i] + [n];
    }
    assert issues[..|files|] == issues;
  }

  // What an accepted name is

  /** One or more plain segments joined by slashes, in plain bytes. */
  predicate GoodName(n: string) { AllPlain(Split(n, '/')) && !BytesBad(n) }

  lemma OddNames(n: string)
    ensures n == "" || n == "." || ClimbsUp(n) ==> !AllPlain(Split(n, '/'))
  {
    if n == "." || n == ".." {
      SplitWhole(n, '/');
    } else if HasPrefix(n, "../") {
      assert n == ".." + ['/'] + n[3..];
      SplitAt("..", n[3..], '/');
    }
  }

  lemma PlainIsClean(n: string)
    requires AllPlain(Split(n, '/'))
    ensures PathIssue(n).None?
  {
    var segs := Split(n, '/');
    PlainHasNoUps(segs);
    assert Normal(false, segs);
    SegmentsOfRender(false, segs);
    assert Render(false, segs) == n;
    CleanIsResolution(n);
    OddNames(n);
  }

  lemma StartsUp(st: seq<string>)
    requires Ups(st) > 0
    ensures ClimbsUp(Join(st, '/'))
  {
  }

  lemma CleanIsPlain(n: string)
    requires PathIssue(n).None?
    ensures AllPlain(Split(n, '/'))
  {
    var st := Segments(n);
    assert Normal(false, st) && n == Join(st, '/') && st != [] by { CleanIsResolution(n); }
    SplitJoin(st, '/');
    if Ups(st) > 0 { StartsUp(st); }
    forall k | 0 <= k < |st| ensures Plain(st[k]) { }
  }

  /** The relative paths that Clean leaves alone and that do not start by
      climbing up are exactly the "/"-joined plain segments. */
  lemma RelativeClean(n: string)
    ensures PathIssue(n).None? <==> AllPlain(Split(n, '/'))
  {
    if PathIssue(n).None? { CleanIsPlain(n); }
    if AllPlain(Split(n, '/')) { PlainIsClean(n); }
  }

  ghost predicate AllGood(names: seq<string>) { forall k :: 0 <= k < |names| ==> GoodName(names[k]) }

  ghost predicate Distinct(names: seq<string>) { forall j, k :: 0 <= j < k < |names| ==> names[j] != names[k] }

  lemma IssueFree(names: seq<string>, i: nat)
    requires i < |names|
    ensures Issue(names, i).None? <==> GoodName(names[i]) && names[i] !in names[..i]
  {
    RelativeClean(names[i]);
  }

  /** The invariant holds exactly of lists of good, different names. */
  lemma CleanNames(names: seq<string>)
    ensures Violations(names) == [] <==> AllGood(names) && Distinct(names)
  {
    var issues := Issues(names);
    CollectEmpty(issues);
    forall k | 0 <= k < |names|
      ensures issues[k].None? <==> GoodName(names[k]) && names[k] !in names[..k]
    {
      IssueFree(names, k);
    }
    assert Distinct(names) <==> forall k :: 0 <= k < |names| ==> names[k] !in names[..k];
  }

  lemma JoinedPath(base: seq<string>, n: string)
    requires base != [] && AllPlain(base)
    ensures var p := "/" + Join(base, '/') + "/" + n;
            Rooted(p) && p != "/" && Split(p[1..], '/') == base + Split(n, '/')
  {
    var names := Split(n, '/');
    var p := "/" + Join(base, '/') + "/" + n;
    JoinAppend(base, names, '/');
    assert p[1..] == Join(base + names, '/');
    assert forall k :: 0 <= k < |base| ==> Plain(base[k]);
    SplitJoin(base + names, '/');
  }

  lemma PlainTogether(a: seq<string>, b: seq<string>)
    ensures AllPlain(a + b) <==> AllPlain(a) && AllPlain(b)
  {
    var both := a + b;
    assert forall k :: 0 <= k < |a| ==> both[k] == a[k];
    assert forall k :: 0 <= k < |b| ==> both[|a| + k] == b[k];
  }

  /** Under any directory, an accepted name resolves to itself below that
      directory; a name that is not made of plain segments never does. */
  lemma NameStaysInside(base: seq<string>, n: string)
    requires base != [] && AllPlain(base)
    ensures var p := "/" + Join(base, '/') + "/" + n;
            (Clean(p) == p <==> AllPlain(Split(n, '/'))) && (Clean(p) == p ==> Segments(p) == base + Split(n, '/'))
  {
    JoinedPath(base, n);
    CleanFixedPoints("/" + Join(base, '/') + "/" + n);
    PlainTogether(base, Split(n, '/'));
  }

  // Generated contexts

  lemma GeneratedNameIsGood(i: nat)
    ensures GoodName(OwnedSrc(i))
    ensures '/' in OwnedSrc(i)
  {
    var n, d := OwnedSrc(i), Decimal.Itoa(i);
    assert n == "d" + ['/'] + d;
    SplitWhole(d, '/');
    SplitAt("d", d, '/');
    Utf8.AsciiIsValid(n);
  }

  predicate Letter(c: char) { 'a' <= c <= 'z' || 'A' <= c <= 'Z' }

  ghost predicate Letters(n: string) { n != "" && forall k :: 0 <= k < |n| ==> Letter(n[k]) }

  lemma FixedNameIsGood(n: string)
    requires Letters(n)
    ensures GoodName(n) && '/' !in n
  {
    SplitWhole(n, '/');
    Utf8.AsciiIsValid(n);
  }

  lemma GeneratedNamesDiffer(i: nat, j: nat)
    requires i < j
    ensures OwnedSrc(i) != OwnedSrc(j)
  {
    if OwnedSrc(i) == OwnedSrc(j) {
      assert OwnedSrc(i)[2..] == Decimal.Itoa(i) && OwnedSrc(j)[2..] == Decimal.Itoa(j);
      Decimal.ItoaInjective(i, j);
    }
  }

  ghost predicate NoSlash(names: seq<string>) { forall k :: 0 <= k < |names| ==> '/' !in names[k] }

  function FixedNames(n: nat): seq<string> { ["Dockerfile", "fixture"] + if n > 0 then ["d"] else [] }

  lemma FixedNamesAreLetters(n: nat)
    ensures var names := FixedNames(n); Distinct(names) && forall k :: 0 <= k < |names| ==> Letters(names[k])
  {
    assert |"Dockerfile"| == 10 && |"fixture"| == 7 && |"d"| == 1;
  }

  lemma LettersAreGood(names: seq<string>)
    requires forall k :: 0 <= k < |names| ==> Letters(names[k])
    ensures AllGood(names) && NoSlash(names)
  {
    forall k | 0 <= k < |names| ensures GoodName(names[k]) && '/' !in names[k] { FixedNameIsGood(names[k]); }
  }

  function GeneratedNames(n: nat): (names: seq<string>)
    ensures |names| == n
  {
    seq(n, i requires 0 <= i < n => OwnedSrc(i))
  }

  lemma GeneratedAreGood(n: nat)
    ensures AllGood(GeneratedNames(n)) && Distinct(GeneratedNames(n))
    ensures forall k :: 0 <= k < n ==> '/' in GeneratedNames(n)[k]
  {
    var names := GeneratedNames(n);
    forall k | 0 <= k < n ensures GoodName(names[k]) && '/' in names[k] { GeneratedNameIsGood(k); }
    forall j, k | 0 <= j < k < n ensures names[j] != names[k] { GeneratedNamesDiffer(j, k); }
  }

  lemma Together(a: seq<string>, b: seq<string>)
    requires AllGood(a) && Distinct(a) && NoSlash(a)
    requires AllGood(b) && Distinct(b) && forall k :: 0 <= k < |b| ==> '/' in b[k]
    ensures AllGood(a + b) && Distinct(a + b)
  {
  }

  lemma ContextNamesAre(text: string, binary: string, n: nat)
    ensures Names(ContextOf(text, binary, n)) == FixedNames(n) + GeneratedNames(n)
  {
    var fixed := ContextFiles(text, binary) + ContextParent(n);
    assert Names(fixed) == FixedNames(n);
    assert Names(ContextOf(text, binary, n)) == Names(fixed) + GeneratedNames(n);
  }

  /** Every generated build context is clean, whatever it was generated from. */
  lemma GeneratedContextIsClean(text: string, binary: string, n: nat)
    ensures Violations(Names(ContextOf(text, binary, n))) == []
  {
    var fixed, generated := FixedNames(n), GeneratedNames(n);
    assert AllGood(fixed) && Distinct(fixed) && NoSlash(fixed) by {
      FixedNamesAreLetters(n);
      LettersAreGood(fixed);
    }
    GeneratedAreGood(n);
    Together(fixed, generated);
    CleanNames(fixed + generated);
    ContextNamesAre(text, binary, n);
  }

  /** The context of an image, in particular. */
  lemma ImageContextIsClean(img: Image, binary: string)
    ensures Violations(Names(Context(img, binary))) == []
  {
    GeneratedContextIsClean(Dockerfile(img), binary, |img.dirs|);
  }
}
