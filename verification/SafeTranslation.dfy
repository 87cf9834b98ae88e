/** Translation implies the invariants: whatever a valid spec says, the request
    passes every configuration check, and it is restricted exactly when the
    spec is. */
module SafeTranslation {
  import opened Text
  import opened Names
  import opened DockerSocket
  import opened EngineConfig
  import opened Specs
  import opened Caps
  import opened Translation
  import TranslationFacts
  import opened Invariants

  // Security options

  lemma ColonOpt(key: string, value: string)
    requires '=' !in key && '=' !in value && ':' !in key
    ensures OptKey(key + [':'] + value) == key && OptValue(key + [':'] + value) == value
  {
    CutAt(key, value, ':');
  }

  lemma EqualsOpt(key: string, value: string)
    requires '=' !in key
    ensures OptKey(key + ['='] + value) == key && OptValue(key + ['='] + value) == value
  {
    CutAt(key, value, '=');
  }

  lemma NoNewPrivilegesOpt()
    ensures IsNoNewPrivileges(NO_NEW_PRIVILEGES) && OptKey(NO_NEW_PRIVILEGES) != "seccomp"
  {
    ColonOpt("no-new-privileges", "true");
    assert NO_NEW_PRIVILEGES == "no-new-privileges" + [':'] + "true";
    assert |"no-new-privileges"| == 17 && |"seccomp"| == 7;
  }

  lemma SeccompOptKey(value: string)
    ensures OptKey(SeccompOpt(value)) == "seccomp" && OptValue(SeccompOpt(value)) == value
    ensures !IsNoNewPrivileges(SeccompOpt(value))
  {
    EqualsOpt("seccomp", value);
    assert |"no-new-privileges"| == 17 && |"seccomp"| == 7;
  }

  lemma OptsTogether(lib: Json, a: seq<string>, b: seq<string>)
    requires AllInline(lib, a) && AllInline(lib, b)
    ensures AllInline(lib, a + b)
    ensures HasOpt(a + b) <==> HasOpt(a) || HasOpt(b)
  {
    var opts := a + b;
    if k :| 0 <= k < |a| && IsNoNewPrivileges(a[k]) { assert opts[k] == a[k]; }
    if k :| 0 <= k < |b| && IsNoNewPrivileges(b[k]) { assert opts[|a| + k] == b[k]; }
  }

  lemma PrivilegeOptsAre(lib: Json, s: Spec)
    ensures AllInline(lib, PrivilegeOpts(s)) && (HasOpt(PrivilegeOpts(s)) <==> s.noNewPrivileges)
  {
    NoNewPrivilegesOpt();
    assert s.noNewPrivileges ==> PrivilegeOpts(s)[0] == NO_NEW_PRIVILEGES;
  }

  lemma SeccompOptsAre(lib: Json, s: Spec)
    requires Lawful(lib) && ValidSeccomp(lib, s.seccomp)
    ensures AllInline(lib, SeccompOpts(lib, s)) && !HasOpt(SeccompOpts(lib, s))
  {
    SeccompOptKey("unconfined");
    SeccompOptKey(lib.compact(s.seccomp));
  }

  lemma SecurityOptsInline(lib: Json, s: Spec)
    requires Lawful(lib) && ValidSeccomp(lib, s.seccomp)
    ensures AllInline(lib, SecurityOpts(lib, s))
    ensures HasOpt(SecurityOpts(lib, s)) <==> s.noNewPrivileges
  {
    PrivilegeOptsAre(lib, s);
    SeccompOptsAre(lib, s);
    OptsTogether(lib, PrivilegeOpts(s), SeccompOpts(lib, s));
  }

  // The parts of Safe

  lemma MountsSafe(mounts: seq<Mount>, lesson: string, socket: string)
    requires ValidMounts(mounts, socket)
    ensures forall i :: 0 <= i < |mounts| ==>
              EngineMounts(mounts, lesson)[i].kind != "bind" && !IsDockerSocket(EngineMounts(mounts, lesson)[i].source, socket)
  {
    assert |VOLUME| == 6 && |TMPFS| == 5 && |"bind"| == 4;
  }

  lemma PidModeSafe(mode: string)
    requires ValidPidMode(mode)
    ensures mode != "host"
  {
    assert |CONTAINER| == 10 && |"host"| == 4;
  }

  lemma NameBelongs(lesson: string, role: string, suffix: string)
    ensures HasPrefix(ContainerName(lesson, role, suffix), LessonPrefix(lesson))
  {
  }

  /** A valid spec translates to a request that no configuration check objects to. */
  lemma TranslationIsSafe(lib: Json, s: Spec, socket: string, suffix: string)
    requires Lawful(lib) && ValidSpec(lib, s, socket, suffix)
    ensures CheckConfig(lib, Translated(lib, s, suffix), socket) == []
  {
    var req := Translated(lib, s, suffix);
    assert NoSocketReachable(req.hostConfig, socket) by { MountsSafe(s.mounts, s.lesson, socket); }
    assert NoHostNamespace(req.hostConfig) by {
      PidModeSafe(s.pidMode);
      assert |"private"| == 7 && |"host"| == 4;
    }
    assert BelongsToLesson(req.name, req.config) by {
      LabelsHold(s.lesson);
      KebabChars(s.lesson);
      NameBelongs(s.lesson, s.role, suffix);
    }
    assert AllInline(lib, req.hostConfig.securityOpt) by { SecurityOptsInline(lib, s); }
    CheckConfigMeans(lib, req, socket);
  }

  /** Translate returning a request and CheckConfig finding nothing go together. */
  method TranslateAndCheck(lib: Json, s: Spec, socket: string, suffix: string) returns (req: Request, errs: seq<Problem>)
    requires Lawful(lib)
    ensures errs == [] <==> ValidSpec(lib, s, socket, suffix)
    ensures errs == [] ==> req == Translated(lib, s, suffix) && CheckConfig(lib, req, socket) == []
    ensures errs != [] ==> req == ZERO_REQUEST
  {
    TranslationFacts.ProblemFreeIsValid(lib, s, socket, suffix);
    req, errs := Translate(lib, s, socket, suffix);
    if errs == [] { TranslationIsSafe(lib, s, socket, suffix); }
  }

  // Restricted

  predicate DropsAll(caps: Option<seq<string>>) {
    exists k :: 0 <= k < |Items(caps)| && Upper(Items(caps)[k]) == ALL
  }

  lemma AllSpelling(c: string)
    ensures Spelling(c) == ALL <==> Upper(c) == ALL
  {
    assert |PREFIX| == 4 && |ALL| == 3;
  }

  lemma NormalizedHasAll(caps: Option<seq<string>>)
    ensures ALL in Items(Normalized(caps)) <==> DropsAll(caps)
  {
    if caps.Some? {
      var items := caps.value;
      CanonicalIs(items);
      forall k | 0 <= k < |items| ensures Spellings(items)[k] == ALL <==> Upper(items[k]) == ALL { AllSpelling(items[k]); }
      assert Items(Normalized(caps)) == Canonical(items) && Items(caps) == items;
      if ALL in Spellings(items) {
        var k :| 0 <= k < |items| && Spellings(items)[k] == ALL;
        assert Upper(Items(caps)[k]) == ALL;
      }
    }
  }

  lemma NormalizedEmpty(caps: Option<seq<string>>)
    ensures Items(Normalized(caps)) == [] <==> Items(caps) == []
  {
    if caps.Some? {
      var items := caps.value;
      CanonicalIs(items);
      if items != [] { assert Spellings(items)[0] in Canonical(items); }
    }
  }

  /** The restricted baseline, on the spec's own fields. */
  predicate RestrictedSpec(s: Spec) {
    && NonRootUser(s.user)
    && DropsAll(s.capDrop) && Items(s.capAdd) == []
    && s.noNewPrivileges && s.readOnlyRoot
    && s.network == "none" && s.pidMode == ""
    && s.memory > 0 && s.nanoCPUs > 0 && s.pidsLimit > 0
  }

  /** A valid spec translates to a restricted container exactly when the spec
      asks for one. */
  lemma RestrictedExactlyWhen(lib: Json, s: Spec, socket: string, suffix: string)
    requires Lawful(lib) && ValidSpec(lib, s, socket, suffix)
    ensures var req := Translated(lib, s, suffix);
            IsRestricted(req.config, req.hostConfig) <==> RestrictedSpec(s)
  {
    var req := Translated(lib, s, suffix);
    NormalizedHasAll(s.capDrop);
    NormalizedEmpty(s.capAdd);
    assert HasOpt(req.hostConfig.securityOpt) <==> s.noNewPrivileges by { SecurityOptsInline(lib, s); }
    RestrictedMeans(req.config, req.hostConfig);
  }
}
