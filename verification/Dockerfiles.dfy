/** Directory order, the generated Dockerfile and the build context. */
module Dockerfiles {
  import opened Text
  import opened FixtureImage
  import opened Decimal
  import opened Json
  import opened Sorting
  import OwnedPaths

  // Directory order

  /** strings.Compare(a.Path, b.Path) < 0 */
  predicate ByPath(a: OwnedDir, b: OwnedDir) { Less(a.path, b.path) }

  function SortDirs(dirs: seq<OwnedDir>): seq<OwnedDir> { Sort(ByPath, dirs) }

  /** sortedDirs: a clone, sorted in place; the image's own list is untouched. */
  method SortedDirs(dirs: seq<OwnedDir>) returns (sorted: seq<OwnedDir>)
    ensures sorted == SortDirs(dirs)
  {
    var a := new OwnedDir[|dirs|](i requires 0 <= i < |dirs| => dirs[i]);
    assert a[..] == dirs;
    SortInPlace(ByPath, a);
    sorted := a[..];
  }

  lemma ByPathIsOrder()
    ensures WeakOrder(ByPath)
  {
    forall x: OwnedDir, y: OwnedDir
      ensures ByPath(x, y) ==> !ByPath(y, x)
    {
      LessIrreflexive(x.path);
      if ByPath(x, y) && ByPath(y, x) { LessTransitive(x.path, y.path, x.path); }
    }
    forall x: OwnedDir, y: OwnedDir, z: OwnedDir
      ensures ByPath(x, z) ==> ByPath(x, y) || ByPath(y, z)
    {
      LessTotal(x.path, y.path);
      if ByPath(x, z) && ByPath(y, x) { LessTransitive(y.path, x.path, z.path); }
    }
  }

  lemma DistinctHaveNoTies(dirs: seq<OwnedDir>)
    requires DistinctPaths(dirs)
    ensures NoTies(ByPath, multiset(dirs))
  {
    forall x, y | x in multiset(dirs) && y in multiset(dirs) && x != y
      ensures ByPath(x, y) || ByPath(y, x)
    {
      LessTotal(x.path, y.path);
    }
  }

  /** Sorting keeps the directories and puts every path before the greater ones. */
  lemma SortDirsSorts(dirs: seq<OwnedDir>)
    ensures Sorted(ByPath, SortDirs(dirs))
    ensures multiset(SortDirs(dirs)) == multiset(dirs)
  {
    ByPathIsOrder();
    SortSorts(ByPath, dirs);
    SortPermutes(ByPath, dirs);
  }

  /** Any two orders of directories with distinct paths sort to the same list. */
  lemma SortForgetsOrder(dirs: seq<OwnedDir>, other: seq<OwnedDir>)
    requires DistinctPaths(dirs) && multiset(other) == multiset(dirs)
    ensures SortDirs(other) == SortDirs(dirs)
  {
    SortDirsSorts(dirs);
    SortDirsSorts(other);
    DistinctHaveNoTies(dirs);
    SortedUnique(ByPath, SortDirs(dirs), SortDirs(other));
  }

  // The Dockerfile

  const BASE := "scratch"
  const BINARY_SRC := "fixture"
  const PROBE_MARKER := "TRINKETS_PROBE"

  /** The build-context name of the i-th owned directory. */
  function OwnedSrc(i: nat): string { "d/" + Itoa(i) }

  const CHOWN := "--chown="

  /** A keyword and its arguments. */
  function Words(keyword: string, rest: string): string { keyword + [' '] + rest }

  function OwnerText(d: OwnedDir): string { Itoa(d.uid) + [':'] + Itoa(d.gid) }

  function CopyArgs(owner: string, args: string): string { CHOWN + owner + [' '] + args }

  function CopyLine(d: OwnedDir, i: nat): string {
    Words("COPY", CopyArgs(OwnerText(d), ArrayText([OwnedSrc(i), d.path])))
  }

  /** One line per element, which may use the element's position. */
  function Numbered<T>(line: (T, nat) -> string, items: seq<T>): (lines: seq<string>)
    ensures |lines| == |items|
  {
    seq(|items|, i requires 0 <= i < |items| => line(items[i], i))
  }

  function CopyLines(dirs: seq<OwnedDir>): seq<string> { Numbered(CopyLine, dirs) }

  function HeadLines(base: string, marker: string, src: string, binary: string): seq<string> {
    [Words("FROM", base), Words("ENV", marker + ['='] + "1"), Words("COPY", ArrayText([src, binary]))]
  }

  function TailLines(user: string, binary: string): seq<string> {
    [Words("USER", user), Words("ENTRYPOINT", ArrayText([binary]))]
  }

  function DockerfileLines(img: Image): seq<string> {
    HeadLines(BASE, PROBE_MARKER, BINARY_SRC, OwnedPaths.BINARY)
    + CopyLines(SortDirs(img.dirs))
    + TailLines(UserOf(img), OwnedPaths.BINARY)
  }

  function Dockerfile(img: Image): string { Terminated(DockerfileLines(img)) }

  method WriteLine(start: string, ghost lines: seq<string>, line: string) returns (b: string)
    requires start == Terminated(lines)
    ensures b == Terminated(lines + [line])
  {
    TerminatedMore(lines, line);
    b := start + line + "\n";
  }

  /** The loop over the sorted directories. */
  method WriteNumbered<T>(start: string, ghost head: seq<string>, line: (T, nat) -> string, items: seq<T>)
    returns (b: string)
    requires start == Terminated(head)
    ensures b == Terminated(head + Numbered(line, items))
  {
    ghost var all := Numbered(line, items);
    b := start;
    assert head + all[..0] == head;
    for i := 0 to |items|
      invariant b == Terminated(head + all[..i])
    {
      b := WriteLine(b, head + all[..i], line(items[i], i));
      assert head + all[..i + 1] == head + all[..i] + [all[i]];
    }
    assert all[..|items|] == all;
  }

  /** fixtureDockerfile, written line by line into a builder. */
  method FixtureDockerfile(img: Image) returns (b: string)
    ensures b == Dockerfile(img)
  {
    var head := HeadLines(BASE, PROBE_MARKER, BINARY_SRC, OwnedPaths.BINARY);
    var tail := TailLines(UserOf(img), OwnedPaths.BINARY);
    b := Terminated(head);
    var dirs := SortedDirs(img.dirs);
    b := WriteNumbered(b, head, CopyLine, dirs);
    TerminatedAppend(head + CopyLines(dirs), tail);
    b := b + Terminated(tail);
  }

  lemma CountedTwice(dirs: seq<OwnedDir>, i: nat, j: nat)
    requires i < j < |dirs| && dirs[i] == dirs[j]
    ensures multiset(dirs)[dirs[j]] >= 2
  {
    assert dirs == dirs[..j] + [dirs[j]] + dirs[j + 1..];
    assert dirs[..j][i] in multiset(dirs[..j]);
  }

  lemma CountedOnce(dirs: seq<OwnedDir>, k: nat)
    requires k < |dirs| && DistinctPaths(dirs)
    ensures multiset(dirs)[dirs[k]] == 1
  {
    assert dirs == dirs[..k] + [dirs[k]] + dirs[k + 1..];
    assert dirs[k] !in dirs[..k] && dirs[k] !in dirs[k + 1..];
  }

  lemma SameDirsValid(dirs: seq<OwnedDir>, other: seq<OwnedDir>)
    requires ValidDirs(dirs) && multiset(other) == multiset(dirs)
    ensures ValidDirs(other)
  {
    forall i | 0 <= i < |other|
      ensures ValidDir(other[i])
    {
      assert other[i] in multiset(dirs);
    }
    forall i, j | 0 <= i < j < |other|
      ensures other[i].path != other[j].path
    {
      assert other[i] in multiset(dirs) && other[j] in multiset(dirs);
      var k :| 0 <= k < |dirs| && dirs[k] == other[i];
      CountedOnce(dirs, k);
      if other[i] == other[j] { CountedTwice(other, i, j); }
    }
  }

  /** The order of Dirs does not matter: any rearrangement of a valid image's
      directories is valid and gives the same Dockerfile, byte for byte. */
  lemma OrderDoesNotMatter(img: Image, other: Image)
    requires ValidImage(img)
    requires other == img.(dirs := other.dirs) && multiset(other.dirs) == multiset(img.dirs)
    ensures ValidImage(other)
    ensures Dockerfile(other) == Dockerfile(img)
  {
    SameDirsValid(img.dirs, other.dirs);
    SortForgetsOrder(img.dirs, other.dirs);
  }

  // The build context

  datatype ContextFile = ContextFile(name: string, dir: bool, mode: int, data: string)

  const MODE_0644 := 420
  const MODE_0755 := 493

  function ContextDirs(n: nat): seq<ContextFile> {
    seq(n, i requires 0 <= i < n => ContextFile(OwnedSrc(i), true, MODE_0755, ""))
  }

  function ContextFiles(text: string, binary: string): seq<ContextFile> {
    [ContextFile("Dockerfile", false, MODE_0644, text), ContextFile("fixture", false, MODE_0755, binary)]
  }

  function ContextParent(n: nat): seq<ContextFile> {
    if n > 0 then [ContextFile("d", true, MODE_0755, "")] else []
  }

  /** The context of n owned directories with this Dockerfile text. */
  function ContextOf(text: string, binary: string, n: nat): seq<ContextFile> {
    ContextFiles(text, binary) + ContextParent(n) + ContextDirs(n)
  }

  function Context(img: Image, binary: string): seq<ContextFile> { ContextOf(Dockerfile(img), binary, |img.dirs|) }

  method AppendDirs(head: seq<ContextFile>, n: nat) returns (files: seq<ContextFile>)
    ensures files == head + ContextParent(n) + ContextDirs(n)
  {
    files := head;
    if n > 0 { files := files + [ContextFile("d", true, MODE_0755, "")]; }
    ghost var start := files;
    for i := 0 to n
      invariant files == start + ContextDirs(i)
    {
      files := files + [ContextFile(OwnedSrc(i), true, MODE_0755, "")];
    }
  }

  /** fixtureContext: nothing is generated from an invalid image. */
  method FixtureContext(img: Image, binary: string) returns (files: seq<ContextFile>, problem: Option<ImageError>)
    ensures problem.None? <==> ValidImage(img)
    ensures files == if problem.None? then Context(img, binary) else []
  {
    problem := Validate(img);
    if problem.Some? { return [], problem; }
    var text := FixtureDockerfile(img);
    files := ContextFiles(text, binary);
    files := AppendDirs(files, |img.dirs|);
  }
}
