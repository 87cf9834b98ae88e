/** The configuration invariants checked before every create, as lists of
    violations, and what an empty list means. */
module Invariants {
  import opened Text
  import opened DockerSocket
  import opened EngineConfig
  import opened Specs
  import Decimal

  datatype Violation =
    | Bind(bind: string)
    | BindMount(mount: nat)
    | SocketMount(mount: nat)
    | Privileged
    | HostNamespace(name: string)
    | HarnessLabel
    | LessonLabel
    | NameOutsideLesson
    | SwapNotPinned
    | SeccompNotInline(opt: nat)
    | RootUser
    | KeepsCapabilities
    | AddsCapabilities
    | NewPrivilegesAllowed
    | WritableRoot
    | HasNetwork
    | SharedPid
    | SharedIpc
    | SharedCgroup
    | Unlimited

  // no-docker-socket

  function BindChecks(binds: seq<string>): (checks: seq<Option<Violation>>)
    ensures |checks| == |binds|
  {
    seq(|binds|, i requires 0 <= i < |binds| => Some(Bind(binds[i])))
  }

  function MountChecks(m: EngineMount, i: nat, socket: string): seq<Option<Violation>> {
    [When(m.kind == "bind", BindMount(i)), When(IsDockerSocket(m.source, socket), SocketMount(i))]
  }

  function MountViolations(mounts: seq<EngineMount>, socket: string): (parts: seq<seq<Violation>>)
    ensures |parts| == |mounts|
  {
    seq(|mounts|, i requires 0 <= i < |mounts| => Collect(MountChecks(mounts[i], i, socket)))
  }

  function NoDockerSocket(hc: HostConfig, socket: string): seq<Violation> {
    Collect(BindChecks(hc.binds)) + Concat(MountViolations(hc.mounts, socket))
  }

  lemma MountStep(m: EngineMount, i: nat, socket: string)
    ensures Collect(MountChecks(m, i, socket)) ==
              (if m.kind == "bind" then [BindMount(i)] else [])
              + (if IsDockerSocket(m.source, socket) then [SocketMount(i)] else [])
  {
    var checks := MountChecks(m, i, socket);
    assert checks == ([] + [checks[0]]) + [checks[1]];
    CollectMore([], checks[0]);
    CollectMore([checks[0]], checks[1]);
  }

  /** noDockerSocket: two loops appending to one list. */
  method CheckNoDockerSocket(hc: HostConfig, socket: string) returns (bad: seq<Violation>)
    ensures bad == NoDockerSocket(hc, socket)
  {
    ghost var checks, parts := BindChecks(hc.binds), MountViolations(hc.mounts, socket);
    bad := [];
    for i := 0 to |hc.binds|
      invariant bad == Collect(checks[..i])
    {
      CollectStep(checks, i);
      bad := bad + [Bind(hc.binds[i])];
    }
    assert checks[..|hc.binds|] == checks;
    ghost var head := bad;
    for i := 0 to |hc.mounts|
      invariant bad == head + Concat(parts[..i])
    {
      ConcatMore(parts, i);
      MountStep(hc.mounts[i], i, socket);
      if hc.mounts[i].kind == "bind" { bad := bad + [BindMount(i)]; }
      if IsDockerSocket(hc.mounts[i].source, socket) { bad := bad + [SocketMount(i)]; }
    }
    assert parts[..|hc.mounts|] == parts;
  }

  // The others

  function NamespaceChecks(hc: HostConfig): seq<Option<Violation>> {
    [When(hc.privileged, Privileged),
     When(hc.pidMode == "host", HostNamespace("PidMode")),
     When(hc.networkMode == "host", HostNamespace("NetworkMode")),
     When(hc.ipcMode == "host", HostNamespace("IpcMode")),
     When(hc.utsMode == "host", HostNamespace("UTSMode")),
     When(hc.usernsMode == "host", HostNamespace("UsernsMode")),
     When(hc.cgroupnsMode == "host", HostNamespace("CgroupnsMode"))]
  }

  function NeverPrivileged(hc: HostConfig): seq<Violation> { Collect(NamespaceChecks(hc)) }

  function LessonPrefix(lesson: string): string { "trinkets-" + lesson + "-" }

  function LabelChecks(name: string, cfg: Config): seq<Option<Violation>> {
    var lesson := Label(cfg.labels, LABEL_LESSON);
    [When(Label(cfg.labels, LABEL_HARNESS) != "1", HarnessLabel),
     When(lesson == "", LessonLabel),
     When(lesson != "" && !HasPrefix(name, LessonPrefix(lesson)), NameOutsideLesson)]
  }

  function Labelled(name: string, cfg: Config): seq<Violation> { Collect(LabelChecks(name, cfg)) }

  predicate Pinned(hc: HostConfig) { hc.memory > 0 ==> hc.memorySwap == hc.memory }

  function SwapPinned(hc: HostConfig): seq<Violation> { if Pinned(hc) then [] else [SwapNotPinned] }

  /** securityOptKV: on the first "=", or on the first ":" for the legacy spelling. */
  function OptKey(opt: string): string {
    if Cut(opt, '=').2 then Cut(opt, '=').0 else Cut(opt, ':').0
  }

  function OptValue(opt: string): string {
    if Cut(opt, '=').2 then Cut(opt, '=').1 else Cut(opt, ':').1
  }

  predicate InlineSeccomp(lib: Json, opt: string) {
    OptKey(opt) == "seccomp" ==> OptValue(opt) == "unconfined" || IsJsonObject(lib, OptValue(opt))
  }

  function SeccompChecks(lib: Json, opts: seq<string>): (checks: seq<Option<Violation>>)
    ensures |checks| == |opts|
  {
    seq(|opts|, i requires 0 <= i < |opts| => When(!InlineSeccomp(lib, opts[i]), SeccompNotInline(i)))
  }

  function SeccompInline(lib: Json, hc: HostConfig): seq<Violation> { Collect(SeccompChecks(lib, hc.securityOpt)) }

  function CheckConfig(lib: Json, req: Request, socket: string): seq<Violation> {
    NoDockerSocket(req.hostConfig, socket)
    + NeverPrivileged(req.hostConfig)
    + Labelled(req.name, req.config)
    + SwapPinned(req.hostConfig)
    + SeccompInline(lib, req.hostConfig)
  }

  // What an empty list means

  ghost predicate NoSocketReachable(hc: HostConfig, socket: string) {
    hc.binds == [] && forall i :: 0 <= i < |hc.mounts| ==>
      hc.mounts[i].kind != "bind" && !IsDockerSocket(hc.mounts[i].source, socket)
  }

  predicate NoHostNamespace(hc: HostConfig) {
    !hc.privileged && hc.pidMode != "host" && hc.networkMode != "host" && hc.ipcMode != "host"
    && hc.utsMode != "host" && hc.usernsMode != "host" && hc.cgroupnsMode != "host"
  }

  predicate BelongsToLesson(name: string, cfg: Config) {
    var lesson := Label(cfg.labels, LABEL_LESSON);
    Label(cfg.labels, LABEL_HARNESS) == "1" && lesson != "" && HasPrefix(name, LessonPrefix(lesson))
  }

  ghost predicate AllInline(lib: Json, opts: seq<string>) {
    forall i :: 0 <= i < |opts| ==> InlineSeccomp(lib, opts[i])
  }

  ghost predicate Safe(lib: Json, req: Request, socket: string) {
    && NoSocketReachable(req.hostConfig, socket)
    && NoHostNamespace(req.hostConfig)
    && BelongsToLesson(req.name, req.config)
    && Pinned(req.hostConfig)
    && AllInline(lib, req.hostConfig.securityOpt)
  }

  lemma NoDockerSocketMeans(hc: HostConfig, socket: string)
    ensures NoDockerSocket(hc, socket) == [] <==> NoSocketReachable(hc, socket)
  {
    var parts := MountViolations(hc.mounts, socket);
    CollectEmpty(BindChecks(hc.binds));
    if hc.binds != [] { assert BindChecks(hc.binds)[0].Some?; }
    ConcatEmpty(parts);
    forall i | 0 <= i < |parts|
      ensures parts[i] == [] <==> hc.mounts[i].kind != "bind" && !IsDockerSocket(hc.mounts[i].source, socket)
    {
      MountStep(hc.mounts[i], i, socket);
    }
  }

  lemma NeverPrivilegedMeans(hc: HostConfig)
    ensures NeverPrivileged(hc) == [] <==> NoHostNamespace(hc)
  {
    FewNone(NamespaceChecks(hc));
  }

  lemma LabelledMeans(name: string, cfg: Config)
    ensures Labelled(name, cfg) == [] <==> BelongsToLesson(name, cfg)
  {
    FewNone(LabelChecks(name, cfg));
  }

  lemma SeccompInlineMeans(lib: Json, hc: HostConfig)
    ensures SeccompInline(lib, hc) == [] <==> AllInline(lib, hc.securityOpt)
  {
    var opts := hc.securityOpt;
    var c := SeccompChecks(lib, opts);
    CollectEmpty(c);
    assert forall i :: 0 <= i < |opts| ==> (c[i].None? <==> InlineSeccomp(lib, opts[i]));
  }

  /** CheckConfig finds nothing exactly when the request is safe. */
  lemma CheckConfigMeans(lib: Json, req: Request, socket: string)
    ensures CheckConfig(lib, req, socket) == [] <==> Safe(lib, req, socket)
  {
    NoDockerSocketMeans(req.hostConfig, socket);
    NeverPrivilegedMeans(req.hostConfig);
    LabelledMeans(req.name, req.config);
    SeccompInlineMeans(lib, req.hostConfig);
  }

  // restricted-complete

  /** isNoNewPrivileges: the spellings the engine accepts for it. */
  predicate IsNoNewPrivileges(opt: string) {
    OptKey(opt) == "no-new-privileges" && (OptValue(opt) == "" || OptValue(opt) == "true")
  }

  function TrimZeros(s: string): string { if s != "" && s[0] == '0' then TrimZeros(s[1..]) else s }

  predicate NonRootUser(u: string) { ValidUser(u) && TrimZeros(Cut(u, ':').0) != "" }

  predicate HasOpt(opts: seq<string>) { exists k :: 0 <= k < |opts| && IsNoNewPrivileges(opts[k]) }

  predicate Limited(hc: HostConfig) {
    hc.memory > 0 && hc.nanoCPUs > 0 && hc.pidsLimit.Some? && hc.pidsLimit.value > 0
  }

  function PrivilegeChecks(cfg: Config, hc: HostConfig): seq<Option<Violation>> {
    [When(!NonRootUser(cfg.user), RootUser),
     When("ALL" !in Items(hc.capDrop), KeepsCapabilities),
     When(Items(hc.capAdd) != [], AddsCapabilities),
     When(!HasOpt(hc.securityOpt), NewPrivilegesAllowed)]
  }

  function IsolationChecks(hc: HostConfig): seq<Option<Violation>> {
    [When(!hc.readonlyRootfs, WritableRoot),
     When(hc.networkMode != "none", HasNetwork),
     When(hc.pidMode != "", SharedPid),
     When(hc.ipcMode != "private", SharedIpc),
     When(hc.cgroupnsMode != "private", SharedCgroup),
     When(!Limited(hc), Unlimited)]
  }

  function RestrictedComplete(cfg: Config, hc: HostConfig): seq<Violation> {
    Collect(PrivilegeChecks(cfg, hc)) + Collect(IsolationChecks(hc))
  }

  predicate IsRestricted(cfg: Config, hc: HostConfig) { RestrictedComplete(cfg, hc) == [] }

  method CheckPrivilege(cfg: Config, hc: HostConfig) returns (bad: seq<Violation>)
    ensures bad == Collect(PrivilegeChecks(cfg, hc))
  {
    ghost var c := PrivilegeChecks(cfg, hc);
    bad := Add([], When(!NonRootUser(cfg.user), RootUser), c, 0);
    bad := Add(bad, When("ALL" !in Items(hc.capDrop), KeepsCapabilities), c, 1);
    bad := Add(bad, When(Items(hc.capAdd) != [], AddsCapabilities), c, 2);
    bad := Add(bad, When(!HasOpt(hc.securityOpt), NewPrivilegesAllowed), c, 3);
    assert c[..4] == c;
  }

  method CheckIsolation(hc: HostConfig) returns (bad: seq<Violation>)
    ensures bad == Collect(IsolationChecks(hc))
  {
    ghost var c := IsolationChecks(hc);
    bad := Add([], When(!hc.readonlyRootfs, WritableRoot), c, 0);
    bad := Add(bad, When(hc.networkMode != "none", HasNetwork), c, 1);
    bad := Add(bad, When(hc.pidMode != "", SharedPid), c, 2);
    bad := Add(bad, When(hc.ipcMode != "private", SharedIpc), c, 3);
    bad := Add(bad, When(hc.cgroupnsMode != "private", SharedCgroup), c, 4);
    bad := Add(bad, When(hc.memory <= 0 || hc.nanoCPUs <= 0 || hc.pidsLimit.None? || hc.pidsLimit.value <= 0, Unlimited), c, 5);
    assert c[..6] == c;
  }

  /** restrictedComplete, one closure call per condition. */
  method CheckRestricted(cfg: Config, hc: HostConfig) returns (bad: seq<Violation>)
    ensures bad == RestrictedComplete(cfg, hc)
  {
    var privilege := CheckPrivilege(cfg, hc);
    var isolation := CheckIsolation(hc);
    bad := privilege + isolation;
  }

  predicate Unprivileged(cfg: Config, hc: HostConfig) {
    && NonRootUser(cfg.user)
    && "ALL" in Items(hc.capDrop) && Items(hc.capAdd) == []
    && HasOpt(hc.securityOpt)
  }

  predicate Isolated(hc: HostConfig) {
    && hc.readonlyRootfs && hc.networkMode == "none" && hc.pidMode == ""
    && hc.ipcMode == "private" && hc.cgroupnsMode == "private"
    && Limited(hc)
  }

  /** The restricted baseline, condition by condition. */
  predicate Baseline(cfg: Config, hc: HostConfig) { Unprivileged(cfg, hc) && Isolated(hc) }

  lemma PrivilegeMeans(cfg: Config, hc: HostConfig)
    ensures Collect(PrivilegeChecks(cfg, hc)) == [] <==> Unprivileged(cfg, hc)
  {
    FewNone(PrivilegeChecks(cfg, hc));
  }

  lemma IsolationMeans(hc: HostConfig)
    ensures Collect(IsolationChecks(hc)) == [] <==> Isolated(hc)
  {
    FewNone(IsolationChecks(hc));
  }

  lemma RestrictedMeans(cfg: Config, hc: HostConfig)
    ensures IsRestricted(cfg, hc) <==> Baseline(cfg, hc)
  {
    PrivilegeMeans(cfg, hc);
    IsolationMeans(hc);
  }

  lemma {:induction false} TrimZerosEnd(s: string)
    requires s != ""
    ensures TrimZeros(s) == "" <==> TrimZeros(s[..|s| - 1]) == "" && s[|s| - 1] == '0'
  {
    if |s| > 1 {
      TrimZerosEnd(s[1..]);
      assert s[1..][..|s| - 2] == s[..|s| - 1][1..];
    } else {
      assert s[1..] == "" && s[..0] == "";
    }
  }

  lemma {:induction false} TrimZerosMeans(s: string)
    requires forall k :: 0 <= k < |s| ==> Decimal.IsDigit(s[k])
    ensures TrimZeros(s) == "" <==> Decimal.Value(s) == 0
  {
    if s != "" {
      TrimZerosEnd(s);
      TrimZerosMeans(s[..|s| - 1]);
    }
  }

  /** The user check is about the number: any spelling of uid 0 is root. */
  lemma NonRootMeans(u: string)
    requires ValidUser(u)
    ensures NonRootUser(u) <==> Decimal.Value(Cut(u, ':').0) != 0
  {
    TrimZerosMeans(Cut(u, ':').0);
  }
}
