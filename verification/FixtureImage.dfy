/** What a fixture image is, and the checks made before any work starts. */
module FixtureImage {
  import opened Text
  import opened Names
  import opened OwnedPaths

  datatype OwnedDir = OwnedDir(path: string, uid: int, gid: int)

  datatype Image = Image(lesson: string, tag: string, package: string, user: string, dirs: seq<OwnedDir>)

  const DEFAULT_USER := "10001:10001"

  /** The image USER with the default applied. */
  function UserOf(img: Image): string { if img.user == "" then DEFAULT_USER else img.user }

  // Validation

  datatype ImageError =
    | BadLesson
    | BadTag
    | BadPackage
    | BadUser
    | UserOutOfRange
    | BadPath(i: nat, why: PathError)
    | DirOutOfRange(i: nat)
    | ListedTwice(i: nat)

  predicate ValidTag(lesson: string, tag: string)
  {
    var rest := CutPrefix(tag, "trinkets-" + lesson + "-");
    rest.Some? && var name := CutSuffix(rest.value, ":dev"); name.Some? && Kebab(name.value)
  }

  /** userRE: digits, a colon, digits. */
  predicate UserShape(u: string) {
    var c := Cut(u, ':');
    c.2 && Names.Digits(c.0) && Names.Digits(c.1)
  }

  predicate UserInRange(u: string) {
    var c := Cut(u, ':');
    ValidNumericId(c.0) && ValidNumericId(c.1)
  }

  predicate ValidHead(img: Image) {
    && Kebab(img.lesson)
    && ValidTag(img.lesson, img.tag)
    && img.package != "" && !HasPrefix(img.package, "-")
    && UserShape(UserOf(img)) && UserInRange(UserOf(img))
  }

  predicate ValidDir(d: OwnedDir) { Acceptable(d.path) && ValidId(d.uid) && ValidId(d.gid) }

  predicate DistinctPaths(dirs: seq<OwnedDir>) {
    forall i, j :: 0 <= i < j < |dirs| ==> dirs[i].path != dirs[j].path
  }

  predicate ValidDirs(dirs: seq<OwnedDir>) {
    (forall i :: 0 <= i < |dirs| ==> ValidDir(dirs[i])) && DistinctPaths(dirs)
  }

  predicate ValidImage(img: Image) { ValidHead(img) && ValidDirs(img.dirs) }

  function HeadProblem(img: Image): Option<ImageError>
    ensures HeadProblem(img).None? <==> ValidHead(img)
  {
    if !Kebab(img.lesson) then Some(BadLesson)
    else if !ValidTag(img.lesson, img.tag) then Some(BadTag)
    else if img.package == "" || HasPrefix(img.package, "-") then Some(BadPackage)
    else if !UserShape(UserOf(img)) then Some(BadUser)
    else if !UserInRange(UserOf(img)) then Some(UserOutOfRange)
    else None
  }

  predicate ListedBefore(dirs: seq<OwnedDir>, i: nat)
    requires i < |dirs|
  {
    exists j :: 0 <= j < i && dirs[j].path == dirs[i].path
  }

  function DirProblem(dirs: seq<OwnedDir>, i: nat): Option<ImageError>
    requires i < |dirs|
  {
    if PathProblem(dirs[i].path).Some? then Some(BadPath(i, PathProblem(dirs[i].path).value))
    else if !ValidId(dirs[i].uid) || !ValidId(dirs[i].gid) then Some(DirOutOfRange(i))
    else if ListedBefore(dirs, i) then Some(ListedTwice(i))
    else None
  }

  /** The first directory problem from index i on. */
  function DirsProblem(dirs: seq<OwnedDir>, i: nat): (r: Option<ImageError>)
    requires i <= |dirs|
    ensures r.None? <==> forall k :: i <= k < |dirs| ==> DirProblem(dirs, k).None?
    ensures r.Some? ==> exists k :: i <= k < |dirs| && r == DirProblem(dirs, k)
                                    && forall j :: i <= j < k ==> DirProblem(dirs, j).None?
    decreases |dirs| - i
  {
    if i == |dirs| then None
    else if DirProblem(dirs, i).Some? then DirProblem(dirs, i)
    else DirsProblem(dirs, i + 1)
  }

  function ImageProblem(img: Image): Option<ImageError> {
    if HeadProblem(img).Some? then HeadProblem(img) else DirsProblem(img.dirs, 0)
  }

  /** validate accepts exactly the valid images. */
  lemma ProblemFreeIsValid(img: Image)
    ensures ImageProblem(img).None? <==> ValidImage(img)
  {
    var dirs := img.dirs;
    if ValidDirs(dirs) {
      forall k | 0 <= k < |dirs| ensures DirProblem(dirs, k).None? { assert ValidDir(dirs[k]); }
    }
    if DirsProblem(dirs, 0).None? {
      forall k | 0 <= k < |dirs| ensures ValidDir(dirs[k]) && !ListedBefore(dirs, k) {
        assert DirProblem(dirs, k).None?;
      }
      assert DistinctPaths(dirs);
    }
  }

  ghost predicate SeenIs(seen: set<string>, dirs: seq<OwnedDir>, i: nat)
    requires i <= |dirs|
  {
    forall p :: p in seen <==> exists j :: 0 <= j < i && dirs[j].path == p
  }

  lemma SeenMore(seen: set<string>, dirs: seq<OwnedDir>, i: nat)
    requires i < |dirs| && SeenIs(seen, dirs, i)
    ensures dirs[i].path in seen <==> ListedBefore(dirs, i)
    ensures SeenIs(seen + {dirs[i].path}, dirs, i + 1)
  {
  }

  /** The checks of one directory, given the paths before it. */
  method ValidateDir(dirs: seq<OwnedDir>, i: nat, seen: set<string>) returns (problem: Option<ImageError>)
    requires i < |dirs| && SeenIs(seen, dirs, i)
    ensures problem == DirProblem(dirs, i)
  {
    SeenMore(seen, dirs, i);
    var d := dirs[i];
    var why := PathProblem(d.path);
    if why.Some? { return Some(BadPath(i, why.value)); }
    if !ValidId(d.uid) || !ValidId(d.gid) { return Some(DirOutOfRange(i)); }
    if d.path in seen { return Some(ListedTwice(i)); }
    return None;
  }

  /** validate: the first problem in order. */
  method Validate(img: Image) returns (problem: Option<ImageError>)
    ensures problem == ImageProblem(img)
    ensures problem.None? <==> ValidImage(img)
  {
    ProblemFreeIsValid(img);
    problem := HeadProblem(img);
    if problem.Some? { return; }
    var dirs := img.dirs;
    var seen: set<string> := {};
    for i := 0 to |dirs|
      invariant DirsProblem(dirs, 0) == DirsProblem(dirs, i)
      invariant SeenIs(seen, dirs, i)
    {
      problem := ValidateDir(dirs, i, seen);
      if problem.Some? { return; }
      SeenMore(seen, dirs, i);
      seen := seen + {dirs[i].path};
    }
    return None;
  }
}
