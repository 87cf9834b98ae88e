/** inspect-matches-intent: comparing what the engine recorded for a container
    with the request, and what an empty comparison proves. */
module Observation {
  import opened Text
  import opened EngineConfig
  import opened Specs
  import opened Caps
  import opened Invariants
  import opened MountKeys
  import opened SafeTranslation

  datatype Field =
    | ReadonlyRootfs | CapAdd | CapDrop | SecurityOpt | GroupAdd | NetworkMode | Runtime
    | PidMode | IpcMode | CgroupnsMode | UTSMode | UsernsMode
    | Memory | MemorySwap | NanoCPUs | PidsLimit | Binds | Mounts

  datatype Difference =
    | NothingRecorded
    | NameDiffers
    | UserDiffers
    | LabelDiffers(key: string)
    | Unprivileged(violation: Violation)
    | FieldDiffers(field: Field)

  function TrimSlash(name: string): string { if HasPrefix(name, "/") then name[1..] else name }

  function OrZero(p: Option<int>): int { if p.Some? then p.value else 0 }

  function Eq(same: bool, field: Field): Option<Difference> { When(!same, FieldDiffers(field)) }

  // The comparison

  function IdentityChecks(name: string, gc: Config, want: Request): seq<Option<Difference>> {
    [When(TrimSlash(name) != want.name, NameDiffers),
     When(want.config.user != "" && gc.user != want.config.user, UserDiffers)]
  }

  /** Every key of the wanted labels, in the order the map is walked. */
  ghost predicate Walks(order: seq<string>, labels: map<string, string>) {
    forall key :: key in order <==> key in labels
  }

  function LabelChecks(gc: Config, labels: map<string, string>, order: seq<string>): (checks: seq<Option<Difference>>)
    requires forall k :: 0 <= k < |order| ==> order[k] in labels
    ensures |checks| == |order|
  {
    seq(|order|, i requires 0 <= i < |order| =>
          When(Label(gc.labels, order[i]) != labels[order[i]], LabelDiffers(order[i])))
  }

  function PrivilegeViolations(gh: HostConfig): (found: seq<Option<Difference>>)
    ensures |found| == |NeverPrivileged(gh)|
  {
    var violations := NeverPrivileged(gh);
    seq(|violations|, i requires 0 <= i < |violations| => Some(Unprivileged(violations[i])))
  }

  function PrivilegeFields(gh: HostConfig, wh: HostConfig): seq<Option<Difference>> {
    [Eq(gh.readonlyRootfs == wh.readonlyRootfs, ReadonlyRootfs),
     Eq(Normalized(gh.capAdd) == Normalized(wh.capAdd), CapAdd),
     Eq(Normalized(gh.capDrop) == Normalized(wh.capDrop), CapDrop)]
  }

  function OptionFields(gh: HostConfig, wh: HostConfig): seq<Option<Difference>> {
    [Eq(gh.securityOpt == wh.securityOpt, SecurityOpt),
     Eq(gh.groupAdd == wh.groupAdd, GroupAdd)]
  }

  predicate NetworkMatches(gh: HostConfig, wh: HostConfig) {
    wh.networkMode != "" || (gh.networkMode != "bridge" && gh.networkMode != "default") ==>
      gh.networkMode == wh.networkMode
  }

  predicate RuntimeMatches(gh: HostConfig, wh: HostConfig) {
    wh.runtime != "" || gh.runtime == "" ==> gh.runtime == wh.runtime
  }

  function PassedFields(gh: HostConfig, wh: HostConfig): seq<Option<Difference>> {
    [Eq(NetworkMatches(gh, wh), NetworkMode),
     Eq(RuntimeMatches(gh, wh), Runtime)]
  }

  function NamespaceFields(gh: HostConfig, wh: HostConfig): seq<Option<Difference>> {
    [Eq(gh.pidMode == wh.pidMode, PidMode),
     Eq(gh.ipcMode == wh.ipcMode, IpcMode),
     Eq(gh.cgroupnsMode == wh.cgroupnsMode, CgroupnsMode),
     Eq(gh.utsMode == wh.utsMode, UTSMode),
     Eq(gh.usernsMode == wh.usernsMode, UsernsMode)]
  }

  function LimitFields(gh: HostConfig, wh: HostConfig): seq<Option<Difference>> {
    [Eq(gh.memory == wh.memory, Memory),
     Eq(gh.memorySwap == wh.memorySwap, MemorySwap),
     Eq(gh.nanoCPUs == wh.nanoCPUs, NanoCPUs),
     Eq(OrZero(gh.pidsLimit) == OrZero(wh.pidsLimit), PidsLimit)]
  }

  function MountFields(printable: nat -> bool, gh: HostConfig, wh: HostConfig): seq<Option<Difference>> {
    [Eq(gh.binds == wh.binds, Binds),
     Eq(Keys(printable, gh.mounts) == Keys(printable, wh.mounts), Mounts)]
  }

  function Differences(printable: nat -> bool, got: Inspect, want: Request, order: seq<string>): seq<Difference>
    requires forall k :: 0 <= k < |order| ==> order[k] in want.config.labels
  {
    if got.config.None? || got.hostConfig.None? then [NothingRecorded]
    else
      var gc, gh, wh := got.config.value, got.hostConfig.value, want.hostConfig;
      Collect(IdentityChecks(got.name, gc, want))
      + Collect(LabelChecks(gc, want.config.labels, order))
      + Collect(PrivilegeViolations(gh))
      + Collect(PrivilegeFields(gh, wh))
      + Collect(OptionFields(gh, wh))
      + Collect(PassedFields(gh, wh))
      + Collect(NamespaceFields(gh, wh))
      + Collect(LimitFields(gh, wh))
      + Collect(MountFields(printable, gh, wh))
  }

  // The code

  method CheckIdentity(name: string, gc: Config, want: Request) returns (bad: seq<Difference>)
    ensures bad == Collect(IdentityChecks(name, gc, want))
  {
    ghost var c := IdentityChecks(name, gc, want);
    bad := Add([], When(TrimSlash(name) != want.name, NameDiffers), c, 0);
    bad := Add(bad, When(want.config.user != "" && gc.user != want.config.user, UserDiffers), c, 1);
    assert c[..2] == c;
  }

  method CheckLabels(gc: Config, labels: map<string, string>, order: seq<string>) returns (bad: seq<Difference>)
    requires forall k :: 0 <= k < |order| ==> order[k] in labels
    ensures bad == Collect(LabelChecks(gc, labels, order))
  {
    ghost var c := LabelChecks(gc, labels, order);
    bad := [];
    for i := 0 to |order|
      invariant bad == Collect(c[..i])
    {
      bad := Add(bad, When(Label(gc.labels, order[i]) != labels[order[i]], LabelDiffers(order[i])), c, i);
    }
    assert c[..|order|] == c;
  }

  method CheckPrivileges(gh: HostConfig) returns (bad: seq<Difference>)
    ensures bad == Collect(PrivilegeViolations(gh))
  {
    var violations := NeverPrivileged(gh);
    ghost var c := PrivilegeViolations(gh);
    bad := [];
    for i := 0 to |violations|
      invariant bad == Collect(c[..i])
    {
      bad := Add(bad, When(true, Unprivileged(violations[i])), c, i);
    }
    assert c[..|violations|] == c;
  }

  method CapsDiffer(got: Option<seq<string>>, want: Option<seq<string>>) returns (differ: bool)
    ensures differ <==> Normalized(got) != Normalized(want)
  {
    var g := NormalizeCaps(got);
    var w := NormalizeCaps(want);
    return g != w;
  }

  method ComparePrivileges(gh: HostConfig, wh: HostConfig) returns (bad: seq<Difference>)
    ensures bad == Collect(PrivilegeFields(gh, wh))
  {
    ghost var c := PrivilegeFields(gh, wh);
    var add := CapsDiffer(gh.capAdd, wh.capAdd);
    var drop := CapsDiffer(gh.capDrop, wh.capDrop);
    bad := Add([], When(gh.readonlyRootfs != wh.readonlyRootfs, FieldDiffers(ReadonlyRootfs)), c, 0);
    bad := Add(bad, When(add, FieldDiffers(CapAdd)), c, 1);
    bad := Add(bad, When(drop, FieldDiffers(CapDrop)), c, 2);
    assert c[..3] == c;
  }

  method CompareOptions(gh: HostConfig, wh: HostConfig) returns (bad: seq<Difference>)
    ensures bad == Collect(OptionFields(gh, wh))
  {
    ghost var c := OptionFields(gh, wh);
    bad := Add([], When(gh.securityOpt != wh.securityOpt, FieldDiffers(SecurityOpt)), c, 0);
    bad := Add(bad, When(gh.groupAdd != wh.groupAdd, FieldDiffers(GroupAdd)), c, 1);
    assert c[..2] == c;
  }

  /** The two fields the engine fills in when the request leaves them empty. */
  method ComparePassed(gh: HostConfig, wh: HostConfig) returns (bad: seq<Difference>)
    ensures bad == Collect(PassedFields(gh, wh))
  {
    ghost var c := PassedFields(gh, wh);
    var network := false;
    if wh.networkMode != "" || (gh.networkMode != "bridge" && gh.networkMode != "default") {
      network := gh.networkMode != wh.networkMode;
    }
    bad := Add([], When(network, FieldDiffers(NetworkMode)), c, 0);
    var runtime := false;
    if wh.runtime != "" || gh.runtime == "" { runtime := gh.runtime != wh.runtime; }
    bad := Add(bad, When(runtime, FieldDiffers(Runtime)), c, 1);
    assert c[..2] == c;
  }

  method CompareNamespaces(gh: HostConfig, wh: HostConfig) returns (bad: seq<Difference>)
    ensures bad == Collect(NamespaceFields(gh, wh))
  {
    ghost var c := NamespaceFields(gh, wh);
    bad := Add([], When(gh.pidMode != wh.pidMode, FieldDiffers(PidMode)), c, 0);
    bad := Add(bad, When(gh.ipcMode != wh.ipcMode, FieldDiffers(IpcMode)), c, 1);
    bad := Add(bad, When(gh.cgroupnsMode != wh.cgroupnsMode, FieldDiffers(CgroupnsMode)), c, 2);
    bad := Add(bad, When(gh.utsMode != wh.utsMode, FieldDiffers(UTSMode)), c, 3);
    bad := Add(bad, When(gh.usernsMode != wh.usernsMode, FieldDiffers(UsernsMode)), c, 4);
    assert c[..5] == c;
  }

  method KeysDiffer(printable: nat -> bool, got: seq<EngineMount>, want: seq<EngineMount>) returns (differ: bool)
    ensures differ <==> Keys(printable, got) != Keys(printable, want)
  {
    var g := ListKeys(printable, got);
    var w := ListKeys(printable, want);
    return g != w;
  }

  method CompareLimits(gh: HostConfig, wh: HostConfig) returns (bad: seq<Difference>)
    ensures bad == Collect(LimitFields(gh, wh))
  {
    ghost var c := LimitFields(gh, wh);
    bad := Add([], When(gh.memory != wh.memory, FieldDiffers(Memory)), c, 0);
    bad := Add(bad, When(gh.memorySwap != wh.memorySwap, FieldDiffers(MemorySwap)), c, 1);
    bad := Add(bad, When(gh.nanoCPUs != wh.nanoCPUs, FieldDiffers(NanoCPUs)), c, 2);
    bad := Add(bad, When(OrZero(gh.pidsLimit) != OrZero(wh.pidsLimit), FieldDiffers(PidsLimit)), c, 3);
    assert c[..4] == c;
  }

  method CompareMounts(printable: nat -> bool, gh: HostConfig, wh: HostConfig) returns (bad: seq<Difference>)
    ensures bad == Collect(MountFields(printable, gh, wh))
  {
    ghost var c := MountFields(printable, gh, wh);
    bad := Add([], When(gh.binds != wh.binds, FieldDiffers(Binds)), c, 0);
    var mounts := KeysDiffer(printable, gh.mounts, wh.mounts);
    bad := Add(bad, When(mounts, FieldDiffers(Mounts)), c, 1);
    assert c[..2] == c;
  }

  /** CheckObserved. */
  method CheckObserved(printable: nat -> bool, got: Inspect, want: Request, order: seq<string>) returns (bad: seq<Difference>)
    requires Walks(order, want.config.labels)
    ensures bad == Differences(printable, got, want, order)
  {
    if got.config.None? || got.hostConfig.None? { return [NothingRecorded]; }
    var gc, gh, wh := got.config.value, got.hostConfig.value, want.hostConfig;
    var identity := CheckIdentity(got.name, gc, want);
    var labels := CheckLabels(gc, want.config.labels, order);
    var privileged := CheckPrivileges(gh);
    var privileges := ComparePrivileges(gh, wh);
    var options := CompareOptions(gh, wh);
    var passed := ComparePassed(gh, wh);
    var namespaces := CompareNamespaces(gh, wh);
    var limits := CompareLimits(gh, wh);
    var mounts := CompareMounts(printable, gh, wh);
    bad := identity + labels + privileged + privileges + options + passed + namespaces + limits + mounts;
  }

  // What an empty comparison means

  ghost predicate SameIdentity(name: string, gc: Config, want: Request) {
    && TrimSlash(name) == want.name
    && (want.config.user != "" ==> gc.user == want.config.user)
    && forall key :: key in want.config.labels ==> Label(gc.labels, key) == want.config.labels[key]
  }

  predicate SamePrivileges(gh: HostConfig, wh: HostConfig) {
    && gh.readonlyRootfs == wh.readonlyRootfs
    && Normalized(gh.capAdd) == Normalized(wh.capAdd) && Normalized(gh.capDrop) == Normalized(wh.capDrop)
    && gh.securityOpt == wh.securityOpt && gh.groupAdd == wh.groupAdd
  }

  predicate SameNamespaces(gh: HostConfig, wh: HostConfig) {
    && NetworkMatches(gh, wh) && RuntimeMatches(gh, wh)
    && gh.pidMode == wh.pidMode && gh.ipcMode == wh.ipcMode && gh.cgroupnsMode == wh.cgroupnsMode
    && gh.utsMode == wh.utsMode && gh.usernsMode == wh.usernsMode
  }

  ghost predicate SameMounts(gs: seq<EngineMount>, ws: seq<EngineMount>) {
    |gs| == |ws| && forall i :: 0 <= i < |gs| ==> SameMount(gs[i], ws[i])
  }

  ghost predicate SameResources(gh: HostConfig, wh: HostConfig) {
    && gh.memory == wh.memory && gh.memorySwap == wh.memorySwap && gh.nanoCPUs == wh.nanoCPUs
    && OrZero(gh.pidsLimit) == OrZero(wh.pidsLimit) && gh.binds == wh.binds
    && SameMounts(gh.mounts, wh.mounts)
  }

  /** The engine recorded what was asked. */
  ghost predicate Matches(got: Inspect, want: Request) {
    && got.config.Some? && got.hostConfig.Some?
    && SameIdentity(got.name, got.config.value, want)
    && NoHostNamespace(got.hostConfig.value)
    && SamePrivileges(got.hostConfig.value, want.hostConfig)
    && SameNamespaces(got.hostConfig.value, want.hostConfig)
    && SameResources(got.hostConfig.value, want.hostConfig)
  }

  lemma LabelsMean(gc: Config, labels: map<string, string>, order: seq<string>)
    requires Walks(order, labels)
    ensures Collect(LabelChecks(gc, labels, order)) == [] <==>
              forall key :: key in labels ==> Label(gc.labels, key) == labels[key]
  {
    var c := LabelChecks(gc, labels, order);
    CollectEmpty(c);
    assert forall k :: 0 <= k < |order| ==> (c[k].None? <==> Label(gc.labels, order[k]) == labels[order[k]]);
    assert forall k :: 0 <= k < |order| ==> order[k] in labels;
    if forall k :: 0 <= k < |c| ==> c[k].None? {
      forall key | key in labels ensures Label(gc.labels, key) == labels[key] {
        var k :| 0 <= k < |order| && order[k] == key;
      }
    }
  }

  lemma PrivilegesMean(gh: HostConfig)
    ensures Collect(PrivilegeViolations(gh)) == [] <==> NoHostNamespace(gh)
  {
    NeverPrivilegedMeans(gh);
    CollectEmpty(PrivilegeViolations(gh));
    if NeverPrivileged(gh) != [] { assert PrivilegeViolations(gh)[0].Some?; }
  }

  lemma PrivilegeFieldsMean(gh: HostConfig, wh: HostConfig)
    ensures Collect(PrivilegeFields(gh, wh)) + Collect(OptionFields(gh, wh)) == [] <==> SamePrivileges(gh, wh)
  {
    FewNone(PrivilegeFields(gh, wh));
    FewNone(OptionFields(gh, wh));
  }

  lemma NamespaceFieldsMean(gh: HostConfig, wh: HostConfig)
    ensures Collect(PassedFields(gh, wh)) + Collect(NamespaceFields(gh, wh)) == [] <==> SameNamespaces(gh, wh)
  {
    FewNone(PassedFields(gh, wh));
    FewNone(NamespaceFields(gh, wh));
  }

  lemma ResourceFieldsMean(printable: nat -> bool, gh: HostConfig, wh: HostConfig)
    ensures Collect(LimitFields(gh, wh)) + Collect(MountFields(printable, gh, wh)) == [] <==> SameResources(gh, wh)
  {
    FewNone(LimitFields(gh, wh));
    FewNone(MountFields(printable, gh, wh));
    KeysDecideMounts(printable, gh.mounts, wh.mounts);
  }

  /** The comparison is empty exactly when the engine recorded what was asked,
      in whatever order the labels are walked. */
  lemma EmptyMeansMatches(printable: nat -> bool, got: Inspect, want: Request, order: seq<string>)
    requires Walks(order, want.config.labels)
    ensures Differences(printable, got, want, order) == [] <==> Matches(got, want)
  {
    if got.config.Some? && got.hostConfig.Some? {
      var gc, gh, wh := got.config.value, got.hostConfig.value, want.hostConfig;
      FewNone(IdentityChecks(got.name, gc, want));
      LabelsMean(gc, want.config.labels, order);
      PrivilegesMean(gh);
      PrivilegeFieldsMean(gh, wh);
      NamespaceFieldsMean(gh, wh);
      ResourceFieldsMean(printable, gh, wh);
    }
  }

  // Transfer

  /** What the engine recorded, read as a request. */
  function Recorded(got: Inspect): Request
    requires got.config.Some? && got.hostConfig.Some?
  {
    Request(TrimSlash(got.name), got.config.value, got.hostConfig.value)
  }

  lemma MatchingIsSafe(lib: Json, got: Inspect, want: Request, socket: string)
    requires CheckConfig(lib, want, socket) == [] && Matches(got, want)
    ensures CheckConfig(lib, Recorded(got), socket) == []
  {
    CheckConfigMeans(lib, want, socket);
    var r := Recorded(got);
    assert NoSocketReachable(r.hostConfig, socket) by {
      assert forall i :: 0 <= i < |r.hostConfig.mounts| ==> SameMount(r.hostConfig.mounts[i], want.hostConfig.mounts[i]);
    }
    assert BelongsToLesson(r.name, r.config);
    CheckConfigMeans(lib, r, socket);
  }

  /** If the request was safe and the comparison is empty, the recorded
      configuration is safe too. */
  lemma SafeTransfers(lib: Json, printable: nat -> bool, got: Inspect, want: Request, order: seq<string>, socket: string)
    requires Walks(order, want.config.labels)
    requires CheckConfig(lib, want, socket) == [] && Differences(printable, got, want, order) == []
    ensures got.config.Some? && got.hostConfig.Some?
    ensures CheckConfig(lib, Recorded(got), socket) == []
  {
    EmptyMeansMatches(printable, got, want, order);
    MatchingIsSafe(lib, got, want, socket);
  }

  lemma AllStays(caps: Option<seq<string>>)
    requires "ALL" in Items(caps)
    ensures "ALL" in Items(Normalized(caps))
  {
    NormalizedHasAll(caps);
    var k :| 0 <= k < |Items(caps)| && Items(caps)[k] == "ALL";
    assert Upper(ALL) == ALL;
    assert Upper(Items(caps)[k]) == ALL;
  }

  /** If the request was restricted and the record matches it, the record is
      restricted once its capability lists are normalized; as it stands it is
      restricted exactly when it names ALL in that very spelling. */
  lemma RestrictedTransfers(printable: nat -> bool, got: Inspect, want: Request, order: seq<string>)
    requires Walks(order, want.config.labels)
    requires IsRestricted(want.config, want.hostConfig) && Differences(printable, got, want, order) == []
    ensures got.config.Some? && got.hostConfig.Some?
    ensures var gh := got.hostConfig.value;
            && IsRestricted(got.config.value, gh.(capDrop := Normalized(gh.capDrop), capAdd := Normalized(gh.capAdd)))
            && (IsRestricted(got.config.value, gh) <==> "ALL" in Items(gh.capDrop))
  {
    EmptyMeansMatches(printable, got, want, order);
    RestrictedMeans(want.config, want.hostConfig);
    var gc, gh, wh := got.config.value, got.hostConfig.value, want.hostConfig;
    var normal := gh.(capDrop := Normalized(gh.capDrop), capAdd := Normalized(gh.capAdd));
    assert "ALL" in Items(normal.capDrop) by { AllStays(wh.capDrop); }
    NormalizedEmpty(gh.capAdd);
    NormalizedEmpty(wh.capAdd);
    RestrictedMeans(gc, normal);
    RestrictedMeans(gc, gh);
  }
}
