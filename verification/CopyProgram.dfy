/** What running the generated Dockerfile does to the image's file system: the
    builder's COPY owns only what it creates. */
module CopyProgram {
  import opened Text
  import opened Paths
  import opened FixtureImage
  import opened Dockerfiles
  import opened DockerfileReader
  import opened Sorting
  import OwnedPaths
  import ContextNames

  datatype Node = Dir(owner: Owner) | File(data: string, owner: Owner)

  /** A file system: what is at each absolute path, named by its segments. */
  type Fs = map<seq<string>, Node>

  const ROOT := Owner(0, 0)

  /** FROM scratch. */
  const SCRATCH: Fs := map[[] := Dir(ROOT)]

  /** Makes dest a directory. A directory that exists is left as it is; a
      missing one is created with this owner, its missing parents as root's. */
  function MakeDir(fs: Fs, dest: seq<string>, owner: Owner): Option<Fs>
  {
    if dest in fs then (if fs[dest].Dir? then Some(fs) else None)
    else if dest == [] then None
    else
      var parent := MakeDir(fs, dest[..|dest| - 1], ROOT);
      if parent.Some? then Some(parent.value[dest := Dir(owner)]) else None
  }

  /** COPY of a file; copying over a directory is not part of this model. */
  function MakeFile(fs: Fs, dest: seq<string>, data: string, owner: Owner): Option<Fs>
  {
    if dest == [] || (dest in fs && fs[dest].Dir?) then None
    else
      var parent := MakeDir(fs, dest[..|dest| - 1], ROOT);
      if parent.Some? then Some(parent.value[dest := File(data, owner)]) else None
  }

  /** The entry of the build context with this name. */
  function Lookup(files: seq<ContextFile>, name: string): (r: Option<ContextFile>)
    ensures r.Some? ==> r.value in files && r.value.name == name
    ensures r.None? ==> forall k :: 0 <= k < |files| ==> files[k].name != name
  {
    if files == [] then None
    else if files[0].name == name then Some(files[0])
    else Lookup(files[1..], name)
  }

  /** One instruction. Every directory of a generated context is empty, so
      copying one only makes the destination. */
  function Step(files: seq<ContextFile>, fs: Fs, i: Instruction): Option<Fs>
  {
    match i
    case From(image) => if image == "scratch" then Some(SCRATCH) else None
    case Copy(chown, src, dest) =>
      var f, owner := Lookup(files, src), if chown.Some? then chown.value else ROOT;
      if f.None? || !Rooted(dest) then None
      else if f.value.dir then MakeDir(fs, Segments(dest), owner)
      else MakeFile(fs, Segments(dest), f.value.data, owner)
    case _ => Some(fs)
  }

  function Run(files: seq<ContextFile>, fs: Fs, program: seq<Instruction>): Option<Fs>
    decreases |program|
  {
    if program == [] then Some(fs)
    else
      var next := Step(files, fs, program[0]);
      if next.Some? then Run(files, next.value, program[1..]) else None
  }

  /** docker build: the image's files, None when the build fails. */
  function Build(text: string, files: seq<ContextFile>): Option<Fs>
  {
    var program := ReadDockerfile(text);
    if program.Some? then Run(files, map[], program.value) else None
  }

  // One COPY of a directory

  ghost predicate Closed(fs: Fs) {
    && [] in fs && fs[[]].Dir?
    && forall p :: p in fs && p != [] ==> p[..|p| - 1] in fs && fs[p[..|p| - 1]].Dir?
  }

  predicate Above(p: seq<string>, dest: seq<string>) { p <= dest }

  /** No file stands at dest or above it. */
  ghost predicate Free(fs: Fs, dest: seq<string>) {
    forall p :: p in fs && Above(p, dest) ==> fs[p].Dir?
  }

  lemma {:induction false} AncestorsAreDirs(fs: Fs, p: seq<string>, q: seq<string>)
    requires Closed(fs) && p in fs && q < p
    ensures q in fs && fs[q].Dir?
    decreases |p|
  {
    var parent := p[..|p| - 1];
    if q != parent { AncestorsAreDirs(fs, parent, q); }
  }

  function At(fs: Fs, p: seq<string>): Option<Node> { if p in fs then Some(fs[p]) else None }

  /** What is at p after the copy. */
  function After(fs: Fs, dest: seq<string>, owner: Owner, p: seq<string>): Option<Node>
  {
    if p in fs then Some(fs[p])
    else if p == dest then Some(Dir(owner))
    else if Above(p, dest) then Some(Dir(ROOT))
    else None
  }

  ghost predicate IsAfter(fs: Fs, dest: seq<string>, owner: Owner, made: Fs) {
    forall p :: At(made, p) == After(fs, dest, owner, p)
  }

  lemma AboveParent(p: seq<string>, dest: seq<string>)
    requires dest != []
    ensures Above(p, dest) <==> p == dest || Above(p, dest[..|dest| - 1])
  {
  }

  lemma MakeExisting(fs: Fs, dest: seq<string>, owner: Owner)
    requires Closed(fs) && dest in fs
    ensures fs[dest].Dir? <==> Free(fs, dest)
    ensures IsAfter(fs, dest, owner, fs)
  {
    forall p | Above(p, dest)
      ensures p in fs && (p != dest ==> fs[p].Dir?)
    {
      if p != dest { AncestorsAreDirs(fs, dest, p); }
    }
    assert Above(dest, dest);
  }

  lemma AboveParents(dest: seq<string>)
    requires dest != []
    ensures forall p :: Above(p, dest) <==> p == dest || Above(p, dest[..|dest| - 1])
    ensures Above(dest[..|dest| - 1], dest[..|dest| - 1]) && !Above(dest, dest[..|dest| - 1])
  {
    forall p ensures Above(p, dest) <==> p == dest || Above(p, dest[..|dest| - 1]) { AboveParent(p, dest); }
  }

  /** The copy succeeds exactly when no file is in the way, creates exactly the
      missing part of the path, and owns exactly the destination it created. */
  lemma {:induction false} MakeDirEffect(fs: Fs, dest: seq<string>, owner: Owner)
    requires Closed(fs)
    ensures MakeDir(fs, dest, owner).Some? <==> Free(fs, dest)
    ensures MakeDir(fs, dest, owner).Some? ==> IsAfter(fs, dest, owner, MakeDir(fs, dest, owner).value)
    decreases |dest|
  {
    if dest in fs {
      MakeExisting(fs, dest, owner);
    } else {
      var parent := dest[..|dest| - 1];
      MakeDirEffect(fs, parent, ROOT);
      AboveParents(dest);
      if MakeDir(fs, parent, ROOT).Some? {
        var made := MakeDir(fs, parent, ROOT).value;
        forall p
          ensures At(made[dest := Dir(owner)], p) == After(fs, dest, owner, p)
        {
          assert At(made, p) == After(fs, parent, ROOT, p);
        }
      }
    }
  }

  lemma ClosedMore(fs: Fs, dest: seq<string>, node: Node)
    requires Closed(fs) && dest != [] && dest !in fs
    requires At(fs, dest[..|dest| - 1]).Some? && At(fs, dest[..|dest| - 1]).value.Dir?
    ensures Closed(fs[dest := node])
  {
  }

  lemma {:induction false} MakeDirClosed(fs: Fs, dest: seq<string>, owner: Owner)
    requires Closed(fs) && Free(fs, dest)
    ensures MakeDir(fs, dest, owner).Some? && Closed(MakeDir(fs, dest, owner).value)
    decreases |dest|
  {
    MakeDirEffect(fs, dest, owner);
    if dest !in fs {
      var parent := dest[..|dest| - 1];
      AboveParents(dest);
      MakeDirClosed(fs, parent, ROOT);
      MakeDirEffect(fs, parent, ROOT);
      var made := MakeDir(fs, parent, ROOT).value;
      assert At(made, parent) == After(fs, parent, ROOT, parent);
      assert At(made, dest) == After(fs, parent, ROOT, dest);
      ClosedMore(made, dest, Dir(owner));
    }
  }

  // A list of COPYs, in any order

  datatype Placed = Placed(dest: seq<string>, owner: Owner)

  function MakeAll(fs: Fs, ps: seq<Placed>): Option<Fs>
    decreases |ps|
  {
    if ps == [] then Some(fs)
    else
      var next := MakeDir(fs, ps[0].dest, ps[0].owner);
      if next.Some? then MakeAll(next.value, ps[1..]) else None
  }

  /** The first COPY that needs p. */
  function FirstNeeding(ps: seq<Placed>, p: seq<string>): (i: nat)
    ensures i <= |ps|
    ensures i < |ps| ==> Above(p, ps[i].dest)
    ensures forall k :: 0 <= k < i ==> !Above(p, ps[k].dest)
  {
    if ps == [] || Above(p, ps[0].dest) then 0 else 1 + FirstNeeding(ps[1..], p)
  }

  /** The first COPY that needs p decides what is there. */
  function AfterAll(fs: Fs, ps: seq<Placed>, p: seq<string>): Option<Node>
  {
    var i := FirstNeeding(ps, p);
    if p in fs then Some(fs[p])
    else if i == |ps| then None
    else if ps[i].dest == p then Some(Dir(ps[i].owner))
    else Some(Dir(ROOT))
  }

  lemma FreeAfter(fs: Fs, p: Placed, dest: seq<string>)
    requires Closed(fs) && Free(fs, p.dest) && Free(fs, dest) && MakeDir(fs, p.dest, p.owner).Some?
    ensures Free(MakeDir(fs, p.dest, p.owner).value, dest)
  {
    MakeDirEffect(fs, p.dest, p.owner);
    var made := MakeDir(fs, p.dest, p.owner).value;
    forall q | q in made && Above(q, dest)
      ensures made[q].Dir?
    {
      assert At(made, q) == After(fs, p.dest, p.owner, q);
    }
  }

  lemma {:induction false} MakeAllEffect(fs: Fs, ps: seq<Placed>)
    requires Closed(fs) && forall i :: 0 <= i < |ps| ==> Free(fs, ps[i].dest)
    ensures MakeAll(fs, ps).Some?
    ensures forall p :: At(MakeAll(fs, ps).value, p) == AfterAll(fs, ps, p)
    decreases |ps|
  {
    if ps != [] {
      MakeDirClosed(fs, ps[0].dest, ps[0].owner);
      MakeDirEffect(fs, ps[0].dest, ps[0].owner);
      var next := MakeDir(fs, ps[0].dest, ps[0].owner).value;
      forall i | 0 <= i < |ps[1..]| ensures Free(next, ps[1..][i].dest) { FreeAfter(fs, ps[0], ps[1..][i].dest); }
      MakeAllEffect(next, ps[1..]);
      forall p
        ensures At(MakeAll(fs, ps).value, p) == AfterAll(fs, ps, p)
      {
        assert At(next, p) == After(fs, ps[0].dest, ps[0].owner, p);
      }
    }
  }

  ghost predicate DistinctDests(ps: seq<Placed>) {
    forall i, j :: 0 <= i < j < |ps| ==> ps[i].dest != ps[j].dest
  }

  /** The first COPY that needs a listed directory: an earlier one below it, if
      there is any, or its own. */
  lemma FirstNeedingOwn(ps: seq<Placed>, j: nat)
    requires DistinctDests(ps) && j < |ps|
    ensures var i := FirstNeeding(ps, ps[j].dest);
            i <= j && (i < j ==> ps[j].dest < ps[i].dest) && (i == j <==> forall k :: 0 <= k < j ==> !(ps[j].dest < ps[k].dest))
  {
    var p := ps[j].dest;
    var i := FirstNeeding(ps, p);
    assert Above(p, ps[j].dest);
    if i < j {
      assert ps[i].dest != p;
    } else {
      forall k | 0 <= k < j ensures !(p < ps[k].dest) { assert !Above(p, ps[k].dest); }
    }
  }

  /** Exactly when an order of COPYs gives a directory the owner asked for: no
      earlier COPY goes below it, or the owner asked for is root anyway. */
  lemma OwnedExactlyWhen(fs: Fs, ps: seq<Placed>, j: nat)
    requires Closed(fs) && forall i :: 0 <= i < |ps| ==> Free(fs, ps[i].dest)
    requires DistinctDests(ps) && j < |ps| && ps[j].dest !in fs
    ensures MakeAll(fs, ps).Some?
    ensures At(MakeAll(fs, ps).value, ps[j].dest) == Some(Dir(ps[j].owner)) <==>
              ps[j].owner == ROOT || forall i :: 0 <= i < j ==> !(ps[j].dest < ps[i].dest)
  {
    MakeAllEffect(fs, ps);
    assert At(MakeAll(fs, ps).value, ps[j].dest) == AfterAll(fs, ps, ps[j].dest);
    FirstNeedingOwn(ps, j);
  }

  ghost predicate ParentsFirst(ps: seq<Placed>) {
    forall i, j :: 0 <= i < j < |ps| ==> !(ps[j].dest < ps[i].dest)
  }

  ghost predicate FreshDests(fs: Fs, ps: seq<Placed>) {
    Closed(fs) && forall q :: q in ps ==> Free(fs, q.dest) && q.dest !in fs
  }

  ghost predicate Listed(ps: seq<Placed>, p: seq<string>) { exists q :: q in ps && q.dest == p }

  ghost predicate Needed(ps: seq<Placed>, p: seq<string>) { exists q :: q in ps && Above(p, q.dest) }

  /** What a list of directories asks for, whatever its order: each listed one
      with its owner, nothing that was there touched, missing parents root's,
      and nothing else. */
  ghost predicate Realises(fs: Fs, made: Fs, ps: seq<Placed>) {
    && (forall q :: q in ps ==> At(made, q.dest) == Some(Dir(q.owner)))
    && (forall p :: p in fs ==> At(made, p) == At(fs, p))
    && forall p :: p !in fs && !Listed(ps, p) ==> At(made, p) == if Needed(ps, p) then Some(Dir(ROOT)) else None
  }

  /** With every parent before its children, a list of COPYs does what it asks for. */
  lemma ParentsFirstRealises(fs: Fs, ps: seq<Placed>)
    requires FreshDests(fs, ps) && DistinctDests(ps) && ParentsFirst(ps)
    ensures MakeAll(fs, ps).Some? && Realises(fs, MakeAll(fs, ps).value, ps)
  {
    MakeAllEffect(fs, ps);
    var made := MakeAll(fs, ps).value;
    forall q | q in ps
      ensures At(made, q.dest) == Some(Dir(q.owner))
    {
      var j :| 0 <= j < |ps| && ps[j] == q;
      OwnedExactlyWhen(fs, ps, j);
    }
    forall p | p !in fs && !Listed(ps, p)
      ensures At(made, p) == if Needed(ps, p) then Some(Dir(ROOT)) else None
    {
      assert At(made, p) == AfterAll(fs, ps, p);
      var i := FirstNeeding(ps, p);
      if i < |ps| { assert ps[i] in ps; }
    }
  }

  // The generated program

  function PlaceOf(d: OwnedDir): (p: Placed)
    requires ValidDir(d)
  {
    Placed(OwnedPaths.SegmentsOf(d.path), Owner(d.uid, d.gid))
  }

  function PlacedOf(dirs: seq<OwnedDir>): (ps: seq<Placed>)
    requires forall i :: 0 <= i < |dirs| ==> ValidDir(dirs[i])
    ensures |ps| == |dirs|
  {
    seq(|dirs|, i requires 0 <= i < |dirs| => PlaceOf(dirs[i]))
  }

  /** The file system before the first owned directory. */
  function Base(binary: string): Fs { map[[] := Dir(ROOT), ["fixture"] := File(binary, ROOT)] }

  lemma FixtureAbove(segs: seq<string>)
    ensures Above(["fixture"], segs) ==> segs != [] && segs[0] == "fixture"
  {
  }

  lemma BaseIsFree(binary: string, segs: seq<string>)
    requires OwnedPaths.GoodSegments(segs)
    ensures Closed(Base(binary)) && Free(Base(binary), segs) && segs !in Base(binary)
  {
    FixtureAbove(segs);
  }

  lemma PlaceIsGood(d: OwnedDir)
    requires ValidDir(d)
    ensures OwnedPaths.GoodSegments(PlaceOf(d).dest) && OwnedPaths.PathOf(PlaceOf(d).dest) == d.path
    ensures PlaceOf(d).dest != []
  {
    OwnedPaths.AcceptableIsGrammar(d.path);
  }

  lemma PlaceIsFree(d: OwnedDir, binary: string)
    requires ValidDir(d)
    ensures var q := PlaceOf(d);
            Closed(Base(binary)) && Free(Base(binary), q.dest) && q.dest !in Base(binary) && OwnedPaths.PathOf(q.dest) == d.path
  {
    PlaceIsGood(d);
    BaseIsFree(binary, PlaceOf(d).dest);
  }

  lemma BaseIsClosed(binary: string)
    ensures Closed(Base(binary))
  {
  }

  lemma PlacedAreFresh(dirs: seq<OwnedDir>, binary: string)
    requires ValidDirs(dirs)
    ensures FreshDests(Base(binary), PlacedOf(dirs)) && DistinctDests(PlacedOf(dirs))
  {
    BaseIsClosed(binary);
    var ps := PlacedOf(dirs);
    forall i | 0 <= i < |ps|
      ensures Free(Base(binary), ps[i].dest) && ps[i].dest !in Base(binary) && OwnedPaths.PathOf(ps[i].dest) == dirs[i].path
    {
      PlaceIsFree(dirs[i], binary);
    }
  }

  lemma AncestorIsLess(d: OwnedDir, e: OwnedDir)
    requires ValidDir(d) && ValidDir(e) && PlaceOf(d).dest < PlaceOf(e).dest
    ensures ByPath(d, e)
  {
    PlaceIsGood(d);
    PlaceIsGood(e);
    OwnedPaths.AncestorSortsFirst(PlaceOf(d).dest, PlaceOf(e).dest);
  }

  /** Sorted by path, every parent comes before its children. */
  lemma SortedParentsFirst(dirs: seq<OwnedDir>)
    requires ValidDirs(dirs) && Sorted(ByPath, dirs)
    ensures ParentsFirst(PlacedOf(dirs))
  {
    var ps := PlacedOf(dirs);
    forall i, j | 0 <= i < j < |ps|
      ensures !(ps[j].dest < ps[i].dest)
    {
      if ps[j].dest < ps[i].dest { AncestorIsLess(dirs[j], dirs[i]); }
    }
  }

  // The whole build

  lemma {:induction false} RunAppend(files: seq<ContextFile>, fs: Fs, a: seq<Instruction>, b: seq<Instruction>)
    ensures Run(files, fs, a + b) == var mid := Run(files, fs, a); if mid.Some? then Run(files, mid.value, b) else None
    decreases |a|
  {
    if a == [] {
      assert a + b == b;
    } else {
      assert (a + b)[1..] == a[1..] + b;
      var next := Step(files, fs, a[0]);
      if next.Some? { RunAppend(files, next.value, a[1..], b); }
    }
  }

  ghost predicate HasDirs(files: seq<ContextFile>, n: nat) {
    forall i: nat :: i < n ==> Lookup(files, OwnedSrc(i)).Some? && Lookup(files, OwnedSrc(i)).value.dir
  }

  lemma CopyStep(files: seq<ContextFile>, fs: Fs, d: OwnedDir, i: nat)
    requires ValidDir(d) && HasDirs(files, i + 1)
    ensures Step(files, fs, CopyOf(d, i)) == MakeDir(fs, PlaceOf(d).dest, PlaceOf(d).owner)
  {
    OwnedPaths.AcceptableIsGrammar(d.path);
    CleanFixedPoints(d.path);
  }

  lemma {:induction false} CopiesRun(files: seq<ContextFile>, fs: Fs, dirs: seq<OwnedDir>, k: nat)
    requires (forall i :: 0 <= i < |dirs| ==> ValidDir(dirs[i])) && HasDirs(files, |dirs|) && k <= |dirs|
    ensures Run(files, fs, CopiesOf(dirs)[k..]) == MakeAll(fs, PlacedOf(dirs)[k..])
    decreases |dirs| - k
  {
    if k < |dirs| {
      var copies, ps := CopiesOf(dirs)[k..], PlacedOf(dirs)[k..];
      assert copies[0] == CopyOf(dirs[k], k) && copies[1..] == CopiesOf(dirs)[k + 1..];
      assert ps[0] == PlaceOf(dirs[k]) && ps[1..] == PlacedOf(dirs)[k + 1..];
      CopyStep(files, fs, dirs[k], k);
      var next := Step(files, fs, copies[0]);
      if next.Some? { CopiesRun(files, next.value, dirs, k + 1); }
    }
  }

  ghost predicate DistinctFiles(files: seq<ContextFile>) {
    forall j, k :: 0 <= j < k < |files| ==> files[j].name != files[k].name
  }

  lemma {:induction false} LookupAt(files: seq<ContextFile>, k: nat)
    requires k < |files| && DistinctFiles(files)
    ensures Lookup(files, files[k].name) == Some(files[k])
  {
    if k > 0 { LookupAt(files[1..], k - 1); }
  }

  lemma ContextIsDistinct(text: string, binary: string, n: nat)
    ensures DistinctFiles(ContextOf(text, binary, n))
  {
    var files := ContextOf(text, binary, n);
    var names := ContextNames.Names(files);
    ContextNames.GeneratedContextIsClean(text, binary, n);
    ContextNames.CleanNames(names);
    assert forall k :: 0 <= k < |files| ==> names[k] == files[k].name;
  }

  lemma ContextHas(text: string, binary: string, n: nat)
    ensures HasDirs(ContextOf(text, binary, n), n)
    ensures Lookup(ContextOf(text, binary, n), BINARY_SRC) == Some(ContextFile(BINARY_SRC, false, MODE_0755, binary))
  {
    var files := ContextOf(text, binary, n);
    ContextIsDistinct(text, binary, n);
    var m := |files| - n;
    forall i: nat | i < n
      ensures Lookup(files, OwnedSrc(i)).Some? && Lookup(files, OwnedSrc(i)).value.dir
    {
      assert files[m + i] == ContextFile(OwnedSrc(i), true, MODE_0755, "");
      LookupAt(files, m + i);
    }
    assert files[1] == ContextFile(BINARY_SRC, false, MODE_0755, binary);
    LookupAt(files, 1);
  }

  lemma HeadRuns(files: seq<ContextFile>, marker: string, src: string, f: ContextFile, segs: seq<string>)
    requires Lookup(files, src) == Some(f) && !f.dir
    requires |segs| == 1 && AllPlain(segs)
    ensures Run(files, map[], HeadProgram(BASE, marker, src, OwnedPaths.PathOf(segs)))
            == Some(SCRATCH[segs := File(f.data, ROOT)])
  {
    var binary := OwnedPaths.PathOf(segs);
    CleanKeepsPlain(segs);
    var program := HeadProgram(BASE, marker, src, binary);
    assert segs !in SCRATCH && segs[..0] == [];
    assert Step(files, SCRATCH, program[2]) == Some(SCRATCH[segs := File(f.data, ROOT)]);
    assert Run(files, SCRATCH, program[2..]) == Some(SCRATCH[segs := File(f.data, ROOT)]);
    assert program[1..][1..] == program[2..];
    assert Run(files, SCRATCH, program[1..]) == Run(files, SCRATCH, program[2..]);
  }

  lemma TailRuns(files: seq<ContextFile>, fs: Fs, user: string, binary: string)
    ensures Run(files, fs, TailProgram(user, binary)) == Some(fs)
  {
    var program := TailProgram(user, binary);
    assert Run(files, fs, program[1..]) == Some(fs);
  }

  lemma SamePlaces(dirs: seq<OwnedDir>, other: seq<OwnedDir>, q: Placed)
    requires ValidDirs(dirs) && ValidDirs(other) && multiset(dirs) == multiset(other)
    ensures q in PlacedOf(dirs) ==> q in PlacedOf(other)
  {
    if q in PlacedOf(dirs) {
      var i :| 0 <= i < |dirs| && PlacedOf(dirs)[i] == q;
      assert dirs[i] in multiset(other);
      var j :| 0 <= j < |other| && other[j] == dirs[i];
      assert PlacedOf(other)[j] == q;
    }
  }

  /** The order in which directories are listed does not change what is asked. */
  lemma RealisesAnyOrder(fs: Fs, made: Fs, dirs: seq<OwnedDir>, other: seq<OwnedDir>)
    requires ValidDirs(dirs) && ValidDirs(other) && multiset(dirs) == multiset(other)
    requires Realises(fs, made, PlacedOf(dirs))
    ensures Realises(fs, made, PlacedOf(other))
  {
    forall q ensures q in PlacedOf(dirs) <==> q in PlacedOf(other) {
      SamePlaces(dirs, other, q);
      SamePlaces(other, dirs, q);
    }
  }

  lemma ThreeParts(files: seq<ContextFile>, head: seq<Instruction>, copies: seq<Instruction>, tail: seq<Instruction>, base: Fs, made: Fs)
    requires Run(files, map[], head) == Some(base) && Run(files, base, copies) == Some(made)
    requires Run(files, made, tail) == Some(made)
    ensures Run(files, map[], head + copies + tail) == Some(made)
  {
    RunAppend(files, map[], head, copies);
    RunAppend(files, map[], head + copies, tail);
  }

  lemma BinaryPath()
    ensures OwnedPaths.BINARY == OwnedPaths.PathOf(["fixture"])
  {
  }

  function Head(): seq<Instruction> { HeadProgram(BASE, PROBE_MARKER, BINARY_SRC, OwnedPaths.BINARY) }

  lemma HeadBuilds(text: string, binary: string, n: nat)
    ensures Run(ContextOf(text, binary, n), map[], Head()) == Some(Base(binary))
  {
    ContextHas(text, binary, n);
    BinaryPath();
    HeadRuns(ContextOf(text, binary, n), PROBE_MARKER, BINARY_SRC, ContextFile(BINARY_SRC, false, MODE_0755, binary), ["fixture"]);
    assert Base(binary) == SCRATCH[["fixture"] := File(binary, ROOT)];
  }

  lemma ProgramRuns(text: string, binary: string, user: string, sorted: seq<OwnedDir>)
    requires ValidDirs(sorted) && MakeAll(Base(binary), PlacedOf(sorted)).Some?
    ensures Run(ContextOf(text, binary, |sorted|), map[], Head() + CopiesOf(sorted) + TailProgram(user, OwnedPaths.BINARY))
            == MakeAll(Base(binary), PlacedOf(sorted))
  {
    var files, base := ContextOf(text, binary, |sorted|), Base(binary);
    var made := MakeAll(base, PlacedOf(sorted)).value;
    HeadBuilds(text, binary, |sorted|);
    assert Run(files, base, CopiesOf(sorted)) == Some(made) by {
      ContextHas(text, binary, |sorted|);
      CopiesRun(files, base, sorted, 0);
      assert CopiesOf(sorted)[0..] == CopiesOf(sorted) && PlacedOf(sorted)[0..] == PlacedOf(sorted);
    }
    TailRuns(files, made, user, OwnedPaths.BINARY);
    ThreeParts(files, Head(), CopiesOf(sorted), TailProgram(user, OwnedPaths.BINARY), base, made);
  }

  /** For every valid image, building the generated text over the generated
      context succeeds and gives exactly the directories that were asked for:
      every listed one with its owner, unlisted ancestors root's, /fixture the
      binary, and nothing else. */
  lemma BuildRealisesOwnership(img: Image, binary: string)
    requires ValidImage(img)
    ensures Build(Dockerfile(img), Context(img, binary)).Some?
    ensures Realises(Base(binary), Build(Dockerfile(img), Context(img, binary)).value, PlacedOf(img.dirs))
  {
    var text, sorted := Dockerfile(img), SortDirs(img.dirs);
    DockerfileReadsBack(img);
    SortDirsSorts(img.dirs);
    SameDirsValid(img.dirs, sorted);
    PlacedAreFresh(sorted, binary);
    SortedParentsFirst(sorted);
    ParentsFirstRealises(Base(binary), PlacedOf(sorted));
    var made := MakeAll(Base(binary), PlacedOf(sorted)).value;
    ProgramRuns(text, binary, UserOf(img), sorted);
    RealisesAnyOrder(Base(binary), made, sorted, img.dirs);
  }
}
