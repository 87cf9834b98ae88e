/** Tightening never loosens: the restricted preset, changed by any sequence of
    tightening steps, still translates, stays restricted and passes every check. */
module Tightening {
  import opened Text
  import opened Names
  import opened EngineConfig
  import opened Specs
  import opened Caps
  import opened Translation
  import opened Invariants
  import opened SafeTranslation
  import TranslationFacts
  import Decimal
  import Utf8

  // The preset

  function Power10(n: nat): nat { if n == 0 then 1 else 10 * Power10(n - 1) }

  lemma {:induction false} ValueBelow(s: string)
    requires forall k :: 0 <= k < |s| ==> Decimal.IsDigit(s[k])
    ensures Decimal.Value(s) < Power10(|s|)
  {
    if s != "" { ValueBelow(s[..|s| - 1]); }
  }

  lemma FiveDigits(id: string)
    requires |id| == 5 && forall k :: 0 <= k < 5 ==> Decimal.IsDigit(id[k])
    ensures ValidNumericId(id)
  {
    ValueBelow(id);
    assert Power10(5) == 10 * Power10(4) && Power10(4) == 10 * Power10(3) && Power10(3) == 10 * Power10(2)
           && Power10(2) == 10 * Power10(1);
  }

  lemma PresetUser(id: string, u: string)
    requires |id| == 5 && id[0] != '0' && forall k :: 0 <= k < 5 ==> Decimal.IsDigit(id[k])
    requires u == id + [':'] + id
    ensures ValidUser(u) && NonRootUser(u)
  {
    CutAt(id, id, ':');
    FiveDigits(id);
  }

  lemma PresetUserIsValid()
    ensures ValidUser(RESTRICTED_USER) && NonRootUser(RESTRICTED_USER) && RESTRICTED_USER != ""
  {
    PresetUser("10001", RESTRICTED_USER);
  }

  lemma OneSegmentTarget(seg: string)
    requires seg != "" && forall k :: 0 <= k < |seg| ==> 'a' <= seg[k] <= 'z'
    ensures ValidTarget("/" + seg)
  {
    var t := "/" + seg;
    SplitWhole(seg, '/');
    assert t[1..] == seg;
    Utf8.AsciiIsValid(t);
  }

  lemma PresetMountIsValid(socket: string)
    ensures ValidMounts([Mount(TMPFS, "", "/tmp", false, RESTRICTED_TMP_SIZE)], socket)
  {
    OneSegmentTarget("tmp");
    assert "/" + "tmp" == "/tmp";
  }

  lemma PresetWords()
    ensures ValidNetwork("none") && CapName("ALL") && ValidPidMode("")
  {
    assert |"none"| == 4 && |"host"| == 4;
  }

  lemma PresetDropsAll(s: Spec)
    requires s.capDrop == Some(["ALL"])
    ensures DropsAll(s.capDrop)
  {
    assert Items(s.capDrop)[0] == "ALL" && Upper("ALL") == ALL;
  }

  /** The fields the preset fixes, each acceptable and tight. */
  ghost predicate PresetFields(lib: Json, s: Spec, socket: string) {
    && s.user != "" && ValidUser(s.user) && s.groups == [] && ValidMounts(s.mounts, socket)
    && ValidNetwork(s.network) && ValidPidMode(s.pidMode) && ValidSeccomp(lib, s.seccomp)
    && AllValid(CapName, Items(s.capDrop)) && AllValid(CapName, Items(s.capAdd))
    && RestrictedSpec(s)
  }

  lemma PresetFieldsDecide(lib: Json, s: Spec, socket: string, suffix: string)
    requires PresetFields(lib, s, socket)
    ensures ValidSpec(lib, s, socket, suffix) <==> Kebab(s.lesson) && Kebab(s.role) && s.image != "" && Suffix(suffix)
  {
  }

  lemma PresetUserField(lesson: string, role: string, image: string, cmd: seq<string>)
    ensures var s := Restricted(lesson, role, image, cmd); ValidUser(s.user) && NonRootUser(s.user) && s.user != ""
  {
    PresetUserIsValid();
  }

  lemma PresetCapsFields(lesson: string, role: string, image: string, cmd: seq<string>)
    ensures var s := Restricted(lesson, role, image, cmd);
            AllValid(CapName, Items(s.capDrop)) && AllValid(CapName, Items(s.capAdd)) && Items(s.capAdd) == []
  {
    PresetWords();
  }

  lemma PresetIsTight(lesson: string, role: string, image: string, cmd: seq<string>)
    ensures RestrictedSpec(Restricted(lesson, role, image, cmd))
  {
    PresetUserField(lesson, role, image, cmd);
    PresetDropsAll(Restricted(lesson, role, image, cmd));
    PresetCapsFields(lesson, role, image, cmd);
  }

  lemma PresetMountsField(lesson: string, role: string, image: string, cmd: seq<string>, socket: string)
    ensures ValidMounts(Restricted(lesson, role, image, cmd).mounts, socket)
  {
    PresetMountIsValid(socket);
  }

  lemma PresetModeFields(lib: Json, lesson: string, role: string, image: string, cmd: seq<string>)
    ensures var s := Restricted(lesson, role, image, cmd);
            ValidNetwork(s.network) && ValidPidMode(s.pidMode) && ValidSeccomp(lib, s.seccomp)
  {
    PresetWords();
  }

  lemma PresetHasFields(lib: Json, lesson: string, role: string, image: string, cmd: seq<string>, socket: string)
    ensures PresetFields(lib, Restricted(lesson, role, image, cmd), socket)
  {
    PresetUserField(lesson, role, image, cmd);
    PresetCapsFields(lesson, role, image, cmd);
    PresetMountsField(lesson, role, image, cmd, socket);
    PresetModeFields(lib, lesson, role, image, cmd);
    PresetIsTight(lesson, role, image, cmd);
  }

  lemma TranslatedSafely(lib: Json, s: Spec, socket: string, suffix: string)
    requires Lawful(lib) && ValidSpec(lib, s, socket, suffix) && RestrictedSpec(s)
    ensures var req := Translated(lib, s, suffix);
            CheckConfig(lib, req, socket) == [] && IsRestricted(req.config, req.hostConfig)
  {
    TranslationIsSafe(lib, s, socket, suffix);
    RestrictedExactlyWhen(lib, s, socket, suffix);
  }

  /** The preset translates exactly when the names are valid, whatever the
      daemon's socket is, and then it is restricted. */
  lemma PresetIsRestricted(lib: Json, lesson: string, role: string, image: string, cmd: seq<string>, socket: string, suffix: string)
    ensures ValidSpec(lib, Restricted(lesson, role, image, cmd), socket, suffix) <==>
              Kebab(lesson) && Kebab(role) && image != "" && Suffix(suffix)
    ensures RestrictedSpec(Restricted(lesson, role, image, cmd))
    ensures Lawful(lib) && Kebab(lesson) && Kebab(role) && image != "" && Suffix(suffix) ==>
              var req := Translated(lib, Restricted(lesson, role, image, cmd), suffix);
              CheckConfig(lib, req, socket) == [] && IsRestricted(req.config, req.hostConfig)
  {
    PresetHasFields(lib, lesson, role, image, cmd, socket);
    PresetFieldsDecide(lib, Restricted(lesson, role, image, cmd), socket, suffix);
    if Lawful(lib) && Kebab(lesson) && Kebab(role) && image != "" && Suffix(suffix) {
      TranslatedSafely(lib, Restricted(lesson, role, image, cmd), socket, suffix);
    }
  }

  // Steps

  datatype Step =
    | Drop(cap: string)
    | RemoveMount(i: nat)
    | MakeReadOnly(i: nat)
    | LowerMemory(bytes: int)
    | LowerCPUs(nano: int)
    | LowerPids(limit: int)

  predicate Legal(step: Step, s: Spec) {
    match step
    case Drop(cap) => CapName(cap)
    case RemoveMount(i) => i < |s.mounts|
    case MakeReadOnly(i) => i < |s.mounts|
    case LowerMemory(bytes) => 0 < bytes <= s.memory
    case LowerCPUs(nano) => 0 < nano <= s.nanoCPUs
    case LowerPids(limit) => 0 < limit <= s.pidsLimit
  }

  function Apply(step: Step, s: Spec): Spec
    requires Legal(step, s)
  {
    match step
    case Drop(cap) => s.(capDrop := Some(Items(s.capDrop) + [cap]))
    case RemoveMount(i) => s.(mounts := s.mounts[..i] + s.mounts[i + 1..])
    case MakeReadOnly(i) => s.(mounts := s.mounts[i := s.mounts[i].(readOnly := true)])
    case LowerMemory(bytes) => s.(memory := bytes)
    case LowerCPUs(nano) => s.(nanoCPUs := nano)
    case LowerPids(limit) => s.(pidsLimit := limit)
  }

  ghost predicate AllLegal(steps: seq<Step>, s: Spec)
    decreases |steps|
  {
    steps == [] || (Legal(steps[0], s) && AllLegal(steps[1..], Apply(steps[0], s)))
  }

  function Tightened(steps: seq<Step>, s: Spec): Spec
    requires AllLegal(steps, s)
    decreases |steps|
  {
    if steps == [] then s else Tightened(steps[1..], Apply(steps[0], s))
  }

  lemma MountsStayValid(mounts: seq<Mount>, i: nat, socket: string)
    requires i < |mounts| && ValidMounts(mounts, socket)
    ensures ValidMounts(mounts[..i] + mounts[i + 1..], socket)
    ensures ValidMounts(mounts[i := mounts[i].(readOnly := true)], socket)
  {
    var fewer := mounts[..i] + mounts[i + 1..];
    forall k | 0 <= k < |fewer| ensures fewer[k] == mounts[if k < i then k else k + 1] { }
    var same := mounts[i := mounts[i].(readOnly := true)];
    forall k | 0 <= k < |same| ensures same[k].(readOnly := mounts[k].readOnly) == mounts[k] { }
  }

  lemma DropStaysValid(caps: Option<seq<string>>, cap: string)
    requires CapName(cap) && AllValid(CapName, Items(caps)) && DropsAll(caps)
    ensures AllValid(CapName, Items(caps) + [cap]) && DropsAll(Some(Items(caps) + [cap]))
  {
    var more := Items(caps) + [cap];
    var k :| 0 <= k < |Items(caps)| && Upper(Items(caps)[k]) == ALL;
    assert Items(Some(more)) == more && Upper(more[k]) == ALL;
  }

  lemma StepKeeps(lib: Json, step: Step, s: Spec, socket: string, suffix: string)
    requires ValidSpec(lib, s, socket, suffix) && RestrictedSpec(s) && Legal(step, s)
    ensures ValidSpec(lib, Apply(step, s), socket, suffix) && RestrictedSpec(Apply(step, s))
  {
    match step
    case Drop(cap) => DropStaysValid(s.capDrop, cap);
    case RemoveMount(i) => MountsStayValid(s.mounts, i, socket);
    case MakeReadOnly(i) => MountsStayValid(s.mounts, i, socket);
    case _ =>
  }

  // How the engine's configuration changes

  /** m is one of the wider mounts, perhaps made read-only. */
  ghost predicate Narrower(m: EngineMount, wider: seq<EngineMount>) {
    exists k :: 0 <= k < |wider| && (m == wider[k] || m == wider[k].(readOnly := true))
  }

  /** t permits nothing that s forbids. */
  ghost predicate NoLooser(t: HostConfig, s: HostConfig) {
    && (forall c :: c in Items(s.capDrop) ==> c in Items(t.capDrop))
    && (forall c :: c in Items(t.capAdd) ==> c in Items(s.capAdd))
    && (forall i :: 0 <= i < |t.mounts| ==> Narrower(t.mounts[i], s.mounts))
    && t.memory <= s.memory && t.memorySwap <= s.memorySwap && t.nanoCPUs <= s.nanoCPUs
    && t.pidsLimit.Some? && s.pidsLimit.Some? && t.pidsLimit.value <= s.pidsLimit.value
    && t.(capDrop := s.capDrop, capAdd := s.capAdd, mounts := s.mounts, memory := s.memory,
          memorySwap := s.memorySwap, nanoCPUs := s.nanoCPUs, pidsLimit := s.pidsLimit) == s
  }

  lemma NarrowerTransitive(m: EngineMount, b: seq<EngineMount>, c: seq<EngineMount>)
    requires Narrower(m, b) && forall i :: 0 <= i < |b| ==> Narrower(b[i], c)
    ensures Narrower(m, c)
  {
    var i :| 0 <= i < |b| && (m == b[i] || m == b[i].(readOnly := true));
    assert Narrower(b[i], c);
    var k :| 0 <= k < |c| && (b[i] == c[k] || b[i] == c[k].(readOnly := true));
    assert m == c[k] || m == c[k].(readOnly := true);
  }

  lemma NoLooserTransitive(a: HostConfig, b: HostConfig, c: HostConfig)
    requires NoLooser(a, b) && NoLooser(b, c)
    ensures NoLooser(a, c)
  {
    forall i | 0 <= i < |a.mounts| ensures Narrower(a.mounts[i], c.mounts) {
      NarrowerTransitive(a.mounts[i], b.mounts, c.mounts);
    }
  }

  lemma SameMountsNarrower(mounts: seq<EngineMount>)
    ensures forall i :: 0 <= i < |mounts| ==> Narrower(mounts[i], mounts)
  {
  }

  lemma FewerMountsNarrower(mounts: seq<Mount>, i: nat, lesson: string)
    requires i < |mounts|
    ensures var wide, fewer := EngineMounts(mounts, lesson), EngineMounts(mounts[..i] + mounts[i + 1..], lesson);
            forall k :: 0 <= k < |fewer| ==> Narrower(fewer[k], wide)
  {
    var wide, fewer := EngineMounts(mounts, lesson), EngineMounts(mounts[..i] + mounts[i + 1..], lesson);
    forall k | 0 <= k < |fewer|
      ensures Narrower(fewer[k], wide)
    {
      assert fewer[k] == wide[if k < i then k else k + 1];
    }
  }

  lemma ReadOnlyNarrower(mounts: seq<Mount>, i: nat, lesson: string)
    requires i < |mounts|
    ensures var wide := EngineMounts(mounts, lesson);
            var closed := EngineMounts(mounts[i := mounts[i].(readOnly := true)], lesson);
            forall k :: 0 <= k < |closed| ==> Narrower(closed[k], wide)
  {
    var wide := EngineMounts(mounts, lesson);
    var closed := EngineMounts(mounts[i := mounts[i].(readOnly := true)], lesson);
    forall k | 0 <= k < |closed|
      ensures Narrower(closed[k], wide)
    {
      assert closed[k] == wide[k] || closed[k] == wide[k].(readOnly := true);
    }
  }

  lemma DropKeepsDropped(caps: Option<seq<string>>, cap: string)
    ensures forall c :: c in Items(Normalized(caps)) ==> c in Items(Normalized(Some(Items(caps) + [cap])))
  {
    var items := Items(caps);
    CanonicalIs(items);
    CanonicalIs(items + [cap]);
    assert Spellings(items + [cap]) == Spellings(items) + [Spelling(cap)];
  }

  /** The container's host configuration, which does not depend on its name. */
  function HostOf(lib: Json, s: Spec): HostConfig { Translated(lib, s, "").hostConfig }

  lemma DropNoLooser(lib: Json, s: Spec, cap: string)
    requires RestrictedSpec(s) && CapName(cap)
    ensures NoLooser(HostOf(lib, Apply(Drop(cap), s)), HostOf(lib, s))
  {
    DropKeepsDropped(s.capDrop, cap);
    SameMountsNarrower(HostOf(lib, s).mounts);
  }

  lemma MountsNoLooser(lib: Json, s: Spec, mounts: seq<Mount>)
    requires RestrictedSpec(s)
    requires forall k :: 0 <= k < |mounts| ==> Narrower(EngineMounts(mounts, s.lesson)[k], EngineMounts(s.mounts, s.lesson))
    ensures NoLooser(HostOf(lib, s.(mounts := mounts)), HostOf(lib, s))
  {
  }

  lemma LimitsNoLooser(lib: Json, s: Spec, t: Spec)
    requires RestrictedSpec(s) && RestrictedSpec(t)
    requires t == s.(memory := t.memory, nanoCPUs := t.nanoCPUs, pidsLimit := t.pidsLimit)
    requires t.memory <= s.memory && t.nanoCPUs <= s.nanoCPUs && t.pidsLimit <= s.pidsLimit
    ensures NoLooser(HostOf(lib, t), HostOf(lib, s))
  {
    SameMountsNarrower(HostOf(lib, s).mounts);
  }

  lemma StepNoLooser(lib: Json, step: Step, s: Spec)
    requires RestrictedSpec(s) && Legal(step, s) && RestrictedSpec(Apply(step, s))
    ensures NoLooser(HostOf(lib, Apply(step, s)), HostOf(lib, s))
  {
    match step
    case Drop(cap) => DropNoLooser(lib, s, cap);
    case RemoveMount(i) =>
      FewerMountsNarrower(s.mounts, i, s.lesson);
      MountsNoLooser(lib, s, s.mounts[..i] + s.mounts[i + 1..]);
    case MakeReadOnly(i) =>
      ReadOnlyNarrower(s.mounts, i, s.lesson);
      MountsNoLooser(lib, s, s.mounts[i := s.mounts[i].(readOnly := true)]);
    case _ => LimitsNoLooser(lib, s, Apply(step, s));
  }

  /** Any legal sequence of steps from a valid restricted spec gives a spec that
      still translates, to a restricted request that passes every check and
      permits nothing the first one forbade. */
  lemma {:induction false} TighteningNeverLoosens(lib: Json, steps: seq<Step>, s: Spec, socket: string, suffix: string)
    requires Lawful(lib) && ValidSpec(lib, s, socket, suffix) && RestrictedSpec(s) && AllLegal(steps, s)
    ensures var t := Tightened(steps, s); var req := Translated(lib, t, suffix);
            && ValidSpec(lib, t, socket, suffix)
            && CheckConfig(lib, req, socket) == []
            && IsRestricted(req.config, req.hostConfig)
            && NoLooser(HostOf(lib, t), HostOf(lib, s)) && req.hostConfig == HostOf(lib, t)
    decreases |steps|
  {
    if steps == [] {
      TranslationIsSafe(lib, s, socket, suffix);
      RestrictedExactlyWhen(lib, s, socket, suffix);
      SameMountsNarrower(EngineMounts(s.mounts, s.lesson));
    } else {
      var next := Apply(steps[0], s);
      StepKeeps(lib, steps[0], s, socket, suffix);
      StepNoLooser(lib, steps[0], s);
      TighteningNeverLoosens(lib, steps[1..], next, socket, suffix);
      NoLooserTransitive(HostOf(lib, Tightened(steps, s)), HostOf(lib, next), HostOf(lib, s));
    }
  }

  /** From the preset with valid names, in particular. */
  lemma PresetTightened(lib: Json, lesson: string, role: string, image: string, cmd: seq<string>,
                        steps: seq<Step>, socket: string, suffix: string)
    requires Lawful(lib) && Kebab(lesson) && Kebab(role) && image != "" && Suffix(suffix)
    requires AllLegal(steps, Restricted(lesson, role, image, cmd))
    ensures var t := Tightened(steps, Restricted(lesson, role, image, cmd)); var req := Translated(lib, t, suffix);
            && Problems(lib, t, socket, suffix) == []
            && CheckConfig(lib, req, socket) == []
            && IsRestricted(req.config, req.hostConfig)
  {
    var s := Restricted(lesson, role, image, cmd);
    PresetIsRestricted(lib, lesson, role, image, cmd, socket, suffix);
    TighteningNeverLoosens(lib, steps, s, socket, suffix);
    TranslationFacts.ProblemFreeIsValid(lib, Tightened(steps, s), socket, suffix);
  }
}
