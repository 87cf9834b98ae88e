/** Translate: from a Spec to the engine's configuration, or every problem found. */
module Translation {
  import opened Text
  import opened Names
  import opened Paths
  import opened DockerSocket
  import opened EngineConfig
  import opened Specs
  import opened Caps
  import Utf8

  datatype Problem =
    | BadLesson
    | BadRole
    | BadSuffix
    | NoImage
    | BadUser
    | BadGroup(group: string)
    | SocketSource(mount: nat)
    | BadVolumeName(mount: nat)
    | SizeOnVolume(mount: nat)
    | SourceOnTmpfs(mount: nat)
    | NegativeSize(mount: nat)
    | BadMountType(mount: nat)
    | TargetNotAbsolute(mount: nat)
    | TargetNotClean(mount: nat)
    | TargetBytes(mount: nat)
    | TargetTwice(mount: nat)
    | HostNetwork
    | BadNetwork
    | BadPidMode
    | BadCap(cap: string)
    | BadSeccomp
    | NegativeLimit

  // The checks, in order

  function NameChecks(s: Spec, suffix: string): seq<Option<Problem>> {
    [When(!Kebab(s.lesson), BadLesson), When(!Kebab(s.role), BadRole), When(!Suffix(suffix), BadSuffix)]
  }

  function ImageChecks(s: Spec): seq<Option<Problem>> {
    [When(s.image == "", NoImage), When(s.user != "" && !ValidUser(s.user), BadUser)]
  }

  function SourceCheck(m: Mount, i: nat): Option<Problem> {
    if m.kind == VOLUME then When(!VolumeName(m.source), BadVolumeName(i))
    else if m.kind == TMPFS then When(m.source != "", SourceOnTmpfs(i))
    else Some(BadMountType(i))
  }

  function SizeCheck(m: Mount, i: nat): Option<Problem> {
    if m.kind == VOLUME then When(m.tmpfsSize != 0, SizeOnVolume(i))
    else if m.kind == TMPFS then When(m.tmpfsSize < 0, NegativeSize(i))
    else None
  }

  function TargetCheck(t: string, i: nat, used: bool): Option<Problem> {
    if t == "" || t[0] != '/' || t == "/" then Some(TargetNotAbsolute(i))
    else if Clean(t) != t then Some(TargetNotClean(i))
    else if '\0' in t || !Utf8.Valid(t) then Some(TargetBytes(i))
    else When(used, TargetTwice(i))
  }

  predicate Used(mounts: seq<Mount>, i: nat)
    requires i < |mounts|
  {
    exists j :: 0 <= j < i && mounts[j].target == mounts[i].target
  }

  function MountChecks(m: Mount, i: nat, socket: string, used: bool): seq<Option<Problem>> {
    [When(IsDockerSocket(m.source, socket), SocketSource(i)), SourceCheck(m, i), SizeCheck(m, i),
     TargetCheck(m.target, i, used)]
  }

  /** The problems of each mount. */
  function MountProblems(mounts: seq<Mount>, socket: string): (parts: seq<seq<Problem>>)
    ensures |parts| == |mounts|
  {
    seq(|mounts|, i requires 0 <= i < |mounts| => Collect(MountChecks(mounts[i], i, socket, Used(mounts, i))))
  }

  function ItemChecks(ok: string -> bool, bad: string -> Problem, items: seq<string>): (checks: seq<Option<Problem>>)
    ensures |checks| == |items|
  {
    seq(|items|, i requires 0 <= i < |items| => When(!ok(items[i]), bad(items[i])))
  }

  function NamespaceChecks(s: Spec): seq<Option<Problem>> {
    [if s.network == "host" then Some(HostNetwork) else When(s.network != "" && !NetworkName(s.network), BadNetwork),
     When(!ValidPidMode(s.pidMode), BadPidMode)]
  }

  function LastChecks(lib: Json, s: Spec): seq<Option<Problem>> {
    [When(!ValidSeccomp(lib, s.seccomp), BadSeccomp), When(!ValidLimits(s), NegativeLimit)]
  }

  const GroupProblem: string -> Problem := (g: string) => BadGroup(g)
  const CapProblem: string -> Problem := (c: string) => BadCap(c)

  function Problems(lib: Json, s: Spec, socket: string, suffix: string): seq<Problem> {
    Collect(NameChecks(s, suffix)) + Collect(ImageChecks(s))
    + Collect(ItemChecks(ValidNumericId, GroupProblem, s.groups))
    + Concat(MountProblems(s.mounts, socket))
    + Collect(NamespaceChecks(s))
    + Collect(ItemChecks(CapName, CapProblem, Items(s.capDrop) + Items(s.capAdd)))
    + Collect(LastChecks(lib, s))
  }

  // The result

  function EngineMountOf(m: Mount, lesson: string): EngineMount {
    EngineMount(m.kind, m.source, m.target, m.readOnly,
                if m.kind == VOLUME then Some(Labels(lesson)) else None,
                if m.kind == TMPFS && m.tmpfsSize > 0 then Some(m.tmpfsSize) else None)
  }

  function EngineMounts(mounts: seq<Mount>, lesson: string): (ms: seq<EngineMount>)
    ensures |ms| == |mounts|
  {
    seq(|mounts|, i requires 0 <= i < |mounts| => EngineMountOf(mounts[i], lesson))
  }

  const NO_NEW_PRIVILEGES := "no-new-privileges:true"

  function SeccompOpt(value: string): string { "seccomp" + ['='] + value }

  function PrivilegeOpts(s: Spec): seq<string> { if s.noNewPrivileges then [NO_NEW_PRIVILEGES] else [] }

  function SeccompOpts(lib: Json, s: Spec): seq<string> {
    if s.seccomp == "" then []
    else if s.seccomp == "unconfined" then [SeccompOpt("unconfined")]
    else [SeccompOpt(lib.compact(s.seccomp))]
  }

  function SecurityOpts(lib: Json, s: Spec): seq<string> { PrivilegeOpts(s) + SeccompOpts(lib, s) }

  function Assembled(s: Spec, suffix: string, mounts: seq<EngineMount>, securityOpt: seq<string>): Request {
    Request(
      ContainerName(s.lesson, s.role, suffix),
      Config(s.image, s.cmd, s.env, s.user, Labels(s.lesson)),
      HostConfig(
        [], mounts, false,
        s.network, s.pidMode, "private", "", "", "private",
        s.readOnlyRoot, Normalized(s.capAdd), Normalized(s.capDrop),
        securityOpt, s.groups,
        s.memory, if s.memory > 0 then s.memory else 0,
        s.nanoCPUs, if s.pidsLimit > 0 then Some(s.pidsLimit) else None,
        s.runtime))
  }

  function Translated(lib: Json, s: Spec, suffix: string): Request {
    Assembled(s, suffix, EngineMounts(s.mounts, s.lesson), SecurityOpts(lib, s))
  }

  // The code

  /** The loops over groups and over capabilities. */
  method CheckItems(ok: string -> bool, bad: string -> Problem, items: seq<string>) returns (errs: seq<Problem>)
    ensures errs == Collect(ItemChecks(ok, bad, items))
  {
    ghost var checks := ItemChecks(ok, bad, items);
    errs := [];
    for i := 0 to |items|
      invariant errs == Collect(checks[..i])
    {
      CollectStep(checks, i);
      if !ok(items[i]) { errs := errs + [bad(items[i])]; }
    }
    assert checks[..|items|] == checks;
  }

  /** What one pass of the mount loop reports. */
  method CheckMount(m: Mount, i: nat, socket: string, used: bool) returns (errs: seq<Problem>)
    ensures errs == Collect(MountChecks(m, i, socket, used))
  {
    ghost var checks := MountChecks(m, i, socket, used);
    errs := Add([], When(IsDockerSocket(m.source, socket), SocketSource(i)), checks, 0);
    errs := Add(errs, SourceCheck(m, i), checks, 1);
    errs := Add(errs, SizeCheck(m, i), checks, 2);
    errs := Add(errs, TargetCheck(m.target, i, used), checks, 3);
    assert checks[..4] == checks;
  }

  ghost predicate TargetsAre(targets: set<string>, mounts: seq<Mount>, n: nat)
    requires n <= |mounts|
  {
    forall t :: t in targets <==> exists j :: 0 <= j < n && mounts[j].target == t
  }

  lemma TargetsMore(targets: set<string>, mounts: seq<Mount>, n: nat)
    requires n < |mounts| && TargetsAre(targets, mounts, n)
    ensures mounts[n].target in targets <==> Used(mounts, n)
    ensures TargetsAre(targets + {mounts[n].target}, mounts, n + 1)
  {
  }

  lemma EngineMountsMore(mounts: seq<Mount>, lesson: string, i: nat)
    requires i < |mounts|
    ensures EngineMounts(mounts, lesson)[..i + 1] == EngineMounts(mounts, lesson)[..i] + [EngineMountOf(mounts[i], lesson)]
  {
  }

  /** The mount loop: it reports and builds at the same time. */
  method TranslateMounts(mounts: seq<Mount>, lesson: string, socket: string)
    returns (errs: seq<Problem>, out: seq<EngineMount>)
    ensures errs == Concat(MountProblems(mounts, socket))
    ensures out == EngineMounts(mounts, lesson)
  {
    errs, out := [], [];
    ghost var problems := MountProblems(mounts, socket);
    var targets: set<string> := {};
    for i := 0 to |mounts|
      invariant errs == Concat(problems[..i])
      invariant out == EngineMounts(mounts, lesson)[..i]
      invariant TargetsAre(targets, mounts, i)
    {
      var m := mounts[i];
      TargetsMore(targets, mounts, i);
      EngineMountsMore(mounts, lesson, i);
      ConcatMore(problems, i);
      var more := CheckMount(m, i, socket, m.target in targets);
      errs := errs + more;
      targets := targets + {m.target};
      out := out + [EngineMountOf(m, lesson)];
    }
    assert problems[..|mounts|] == problems;
  }

  method CheckNames(s: Spec, suffix: string) returns (errs: seq<Problem>)
    ensures errs == Collect(NameChecks(s, suffix))
  {
    ghost var checks := NameChecks(s, suffix);
    errs := Add([], When(!Kebab(s.lesson), BadLesson), checks, 0);
    errs := Add(errs, When(!Kebab(s.role), BadRole), checks, 1);
    errs := Add(errs, When(!Suffix(suffix), BadSuffix), checks, 2);
    assert checks[..3] == checks;
  }

  method CheckImage(s: Spec) returns (errs: seq<Problem>)
    ensures errs == Collect(ImageChecks(s))
  {
    ghost var checks := ImageChecks(s);
    errs := Add([], When(s.image == "", NoImage), checks, 0);
    errs := Add(errs, When(s.user != "" && !ValidUser(s.user), BadUser), checks, 1);
    assert checks[..2] == checks;
  }

  method CheckNamespaces(s: Spec) returns (errs: seq<Problem>)
    ensures errs == Collect(NamespaceChecks(s))
  {
    ghost var checks := NamespaceChecks(s);
    errs := [];
    CollectStep(checks, 0);
    if s.network == "host" {
      errs := errs + [HostNetwork];
    } else if s.network != "" && !NetworkName(s.network) {
      errs := errs + [BadNetwork];
    }
    CollectStep(checks, 1);
    if !ValidPidMode(s.pidMode) { errs := errs + [BadPidMode]; }
    assert checks[..2] == checks;
  }

  /** The security options, the seccomp check and the limits. */
  method CheckLast(lib: Json, s: Spec) returns (errs: seq<Problem>, opts: seq<string>)
    ensures errs == Collect(LastChecks(lib, s))
    ensures errs == [] ==> opts == SecurityOpts(lib, s)
  {
    ghost var checks := LastChecks(lib, s);
    errs, opts := [], [];
    if s.noNewPrivileges { opts := opts + [NO_NEW_PRIVILEGES]; }
    CollectStep(checks, 0);
    if s.seccomp == "" {
    } else if s.seccomp == "unconfined" {
      opts := opts + [SeccompOpt("unconfined")];
    } else if IsJsonObject(lib, s.seccomp) {
      opts := opts + [SeccompOpt(lib.compact(s.seccomp))];
    } else {
      errs := errs + [BadSeccomp];
    }
    CollectStep(checks, 1);
    if s.memory < 0 || s.nanoCPUs < 0 || s.pidsLimit < 0 { errs := errs + [NegativeLimit]; }
    assert checks[..2] == checks;
  }

  /** The request, once nothing is wrong. */
  method Assemble(s: Spec, suffix: string, mounts: seq<EngineMount>, securityOpt: seq<string>) returns (req: Request)
    ensures req == Assembled(s, suffix, mounts, securityOpt)
  {
    var capDrop := NormalizeCaps(s.capDrop);
    var capAdd := NormalizeCaps(s.capAdd);
    var host := ZERO_HOST.(
      networkMode := s.network, readonlyRootfs := s.readOnlyRoot, capDrop := capDrop, capAdd := capAdd,
      securityOpt := securityOpt, pidMode := s.pidMode, ipcMode := "private", cgroupnsMode := "private",
      groupAdd := s.groups, mounts := mounts, memory := s.memory, nanoCPUs := s.nanoCPUs, runtime := s.runtime);
    if s.memory > 0 { host := host.(memorySwap := s.memory); }
    if s.pidsLimit > 0 { host := host.(pidsLimit := Some(s.pidsLimit)); }
    req := Request(ContainerName(s.lesson, s.role, suffix),
                   Config(s.image, s.cmd, s.env, s.user, Labels(s.lesson)), host);
  }

  /** Translate: on any problem, all of them and the zero Request. */
  method Translate(lib: Json, s: Spec, socket: string, suffix: string) returns (req: Request, errs: seq<Problem>)
    ensures errs == Problems(lib, s, socket, suffix)
    ensures req == if errs == [] then Translated(lib, s, suffix) else ZERO_REQUEST
  {
    var names := CheckNames(s, suffix);
    var image := CheckImage(s);
    var groups := CheckItems(ValidNumericId, GroupProblem, s.groups);
    var mountErrs, mounts := TranslateMounts(s.mounts, s.lesson, socket);
    var namespaces := CheckNamespaces(s);
    var caps := CheckItems(CapName, CapProblem, Items(s.capDrop) + Items(s.capAdd));
    var last, securityOpt := CheckLast(lib, s);
    errs := names + image + groups + mountErrs + namespaces + caps + last;
    if |errs| > 0 { return ZERO_REQUEST, errs; }
    req := Assemble(s, suffix, mounts, securityOpt);
  }
}
