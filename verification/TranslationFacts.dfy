/** What Translate accepts, and what each of its errors means. */
module TranslationFacts {
  import opened Text
  import opened Names
  import opened Paths
  import opened DockerSocket
  import opened Specs
  import opened Translation

  // Acceptance

  lemma TargetAccepted(t: string, i: nat, used: bool)
    ensures TargetCheck(t, i, used).None? <==> ValidTarget(t) && !used
  {
    if Rooted(t) && t != "/" { CleanFixedPoints(t); }
  }

  lemma MountAccepted(m: Mount, i: nat, socket: string, used: bool)
    ensures Collect(MountChecks(m, i, socket, used)) == [] <==>
              ValidSource(m, socket) && ValidTarget(m.target) && !used
  {
    var checks := MountChecks(m, i, socket, used);
    CollectEmpty(checks);
    TargetAccepted(m.target, i, used);
    assert (forall k :: 0 <= k < 4 ==> checks[k].None?) <==>
           checks[0].None? && checks[1].None? && checks[2].None? && checks[3].None?;
  }

  lemma UsedMeansTwice(mounts: seq<Mount>)
    ensures (forall i :: 0 <= i < |mounts| ==> !Used(mounts, i)) <==>
              forall i, j :: 0 <= i < j < |mounts| ==> mounts[i].target != mounts[j].target
  {
    if forall i :: 0 <= i < |mounts| ==> !Used(mounts, i) {
      forall i, j | 0 <= i < j < |mounts| ensures mounts[i].target != mounts[j].target { assert !Used(mounts, j); }
    }
  }

  lemma MountsAccepted(mounts: seq<Mount>, socket: string)
    ensures Concat(MountProblems(mounts, socket)) == [] <==> ValidMounts(mounts, socket)
  {
    var parts := MountProblems(mounts, socket);
    ConcatEmpty(parts);
    forall i | 0 <= i < |mounts|
      ensures parts[i] == [] <==>
                ValidSource(mounts[i], socket) && ValidTarget(mounts[i].target) && !Used(mounts, i)
    {
      MountAccepted(mounts[i], i, socket, Used(mounts, i));
    }
    UsedMeansTwice(mounts);
  }

  lemma ItemsAccepted(ok: string -> bool, bad: string -> Problem, items: seq<string>)
    ensures Collect(ItemChecks(ok, bad, items)) == [] <==> AllValid(ok, items)
  {
    var checks := ItemChecks(ok, bad, items);
    CollectEmpty(checks);
    assert forall k :: 0 <= k < |items| ==> (checks[k].None? <==> ok(items[k]));
  }

  lemma AllValidBoth(ok: string -> bool, a: seq<string>, b: seq<string>)
    ensures AllValid(ok, a + b) <==> AllValid(ok, a) && AllValid(ok, b)
  {
    var both := a + b;
    assert forall k :: 0 <= k < |a| ==> both[k] == a[k];
    assert forall k :: 0 <= k < |b| ==> both[|a| + k] == b[k];
  }

  /** Translate succeeds exactly on the valid specs. */
  lemma ProblemFreeIsValid(lib: Json, s: Spec, socket: string, suffix: string)
    ensures Problems(lib, s, socket, suffix) == [] <==> ValidSpec(lib, s, socket, suffix)
  {
    FewNone(NameChecks(s, suffix));
    FewNone(ImageChecks(s));
    ItemsAccepted(ValidNumericId, GroupProblem, s.groups);
    MountsAccepted(s.mounts, socket);
    FewNone(NamespaceChecks(s));
    ItemsAccepted(CapName, CapProblem, Items(s.capDrop) + Items(s.capAdd));
    AllValidBoth(CapName, Items(s.capDrop), Items(s.capAdd));
    FewNone(LastChecks(lib, s));
  }

  // Which error appears when

  /** Which part of the translation reports a problem. */
  datatype Area = Naming | Groups | Mounts | Namespaces | Capabilities | Last

  function AreaOf(p: Problem): Area {
    match p
    case BadLesson | BadRole | BadSuffix | NoImage | BadUser => Naming
    case BadGroup(_) => Groups
    case HostNetwork | BadNetwork | BadPidMode => Namespaces
    case BadCap(_) => Capabilities
    case BadSeccomp | NegativeLimit => Last
    case _ => Mounts
  }

  ghost predicate AllFrom(checks: seq<Option<Problem>>, area: Area) {
    forall k :: 0 <= k < |checks| && checks[k].Some? ==> AreaOf(checks[k].value) == area
  }

  lemma FromArea(checks: seq<Option<Problem>>, area: Area, p: Problem)
    requires AllFrom(checks, area)
    ensures p in Collect(checks) ==> AreaOf(p) == area
  {
    InCollect(checks, p);
  }

  lemma NamingArea(s: Spec, suffix: string, p: Problem)
    ensures p in Collect(NameChecks(s, suffix)) + Collect(ImageChecks(s)) ==> AreaOf(p) == Naming
  {
    FromArea(NameChecks(s, suffix), Naming, p);
    FromArea(ImageChecks(s), Naming, p);
  }

  lemma ItemArea(ok: string -> bool, bad: string -> Problem, items: seq<string>, area: Area, p: Problem)
    requires forall x :: AreaOf(bad(x)) == area
    ensures p in Collect(ItemChecks(ok, bad, items)) ==> AreaOf(p) == area
  {
    FromArea(ItemChecks(ok, bad, items), area, p);
  }

  lemma NamespaceArea(s: Spec, p: Problem)
    ensures p in Collect(NamespaceChecks(s)) ==> AreaOf(p) == Namespaces
  {
    FromArea(NamespaceChecks(s), Namespaces, p);
  }

  lemma LastArea(lib: Json, s: Spec, p: Problem)
    ensures p in Collect(LastChecks(lib, s)) ==> AreaOf(p) == Last
  {
    FromArea(LastChecks(lib, s), Last, p);
  }

  ghost predicate AboutMount(checks: seq<Option<Problem>>, i: nat) {
    forall k :: 0 <= k < |checks| && checks[k].Some? ==>
      AreaOf(checks[k].value) == Mounts && checks[k].value.mount == i
  }

  lemma AboutItsMount(checks: seq<Option<Problem>>, i: nat, p: Problem)
    requires AboutMount(checks, i)
    ensures p in Collect(checks) ==> AreaOf(p) == Mounts && p.mount == i
  {
    InCollect(checks, p);
  }

  lemma MountChecksArea(m: Mount, i: nat, socket: string, used: bool)
    ensures AboutMount(MountChecks(m, i, socket, used), i)
  {
  }

  lemma MountArea(m: Mount, i: nat, socket: string, used: bool, p: Problem)
    ensures p in Collect(MountChecks(m, i, socket, used)) ==> AreaOf(p) == Mounts && p.mount == i
  {
    MountChecksArea(m, i, socket, used);
    AboutItsMount(MountChecks(m, i, socket, used), i, p);
  }

  lemma MountsArea(mounts: seq<Mount>, socket: string, p: Problem)
    ensures p in Concat(MountProblems(mounts, socket)) ==> AreaOf(p) == Mounts
  {
    var parts := MountProblems(mounts, socket);
    InConcat(parts, p);
    if p in Concat(parts) {
      var k :| 0 <= k < |parts| && p in parts[k];
      MountArea(mounts[k], k, socket, Used(mounts, k), p);
    }
  }

  lemma InSeven(a: seq<Problem>, b: seq<Problem>, c: seq<Problem>, d: seq<Problem>, e: seq<Problem>, f: seq<Problem>,
                g: seq<Problem>, p: Problem)
    ensures p in a + b + c + d + e + f + g <==> p in a + b || p in c || p in d || p in e || p in f || p in g
  {
  }

  /** A problem is found where its area is checked and nowhere else. */
  lemma FoundInItsArea(lib: Json, s: Spec, socket: string, suffix: string, p: Problem)
    requires AreaOf(p) == Mounts || AreaOf(p) == Last
    ensures p in Problems(lib, s, socket, suffix) <==>
              p in if AreaOf(p) == Mounts then Concat(MountProblems(s.mounts, socket)) else Collect(LastChecks(lib, s))
  {
    var caps := Items(s.capDrop) + Items(s.capAdd);
    NamingArea(s, suffix, p);
    ItemArea(ValidNumericId, GroupProblem, s.groups, Groups, p);
    MountsArea(s.mounts, socket, p);
    NamespaceArea(s, p);
    ItemArea(CapName, CapProblem, caps, Capabilities, p);
    LastArea(lib, s, p);
    InSeven(Collect(NameChecks(s, suffix)), Collect(ImageChecks(s)), Collect(ItemChecks(ValidNumericId, GroupProblem, s.groups)),
            Concat(MountProblems(s.mounts, socket)), Collect(NamespaceChecks(s)), Collect(ItemChecks(CapName, CapProblem, caps)),
            Collect(LastChecks(lib, s)), p);
  }

  lemma SocketInChecks(m: Mount, i: nat, socket: string, used: bool)
    ensures SocketSource(i) in Collect(MountChecks(m, i, socket, used)) <==> IsDockerSocket(m.source, socket)
  {
    var checks := MountChecks(m, i, socket, used);
    InCollect(checks, SocketSource(i));
    assert checks[0] == Some(SocketSource(i)) <==> IsDockerSocket(m.source, socket);
  }

  /** The socket error for a mount appears exactly when that mount's source,
      under any spelling, resolves to a socket path. */
  lemma SocketErrorExactlyWhen(lib: Json, s: Spec, socket: string, suffix: string, i: nat)
    ensures SocketSource(i) in Problems(lib, s, socket, suffix) <==>
              i < |s.mounts| && var source := s.mounts[i].source;
                source != "" && (SamePlace(source, FIXED_A) || SamePlace(source, FIXED_B)
                                 || (socket != "" && SamePlace(source, socket)))
  {
    var parts, p := MountProblems(s.mounts, socket), SocketSource(i);
    FoundInItsArea(lib, s, socket, suffix, p);
    InConcat(parts, p);
    forall k | 0 <= k < |parts|
      ensures p in parts[k] ==> k == i
    {
      MountArea(s.mounts[k], k, socket, Used(s.mounts, k), p);
    }
    if i < |s.mounts| {
      SocketInChecks(s.mounts[i], i, socket, Used(s.mounts, i));
      assert parts[i] == Collect(MountChecks(s.mounts[i], i, socket, Used(s.mounts, i)));
      SocketByAnySpelling(s.mounts[i].source, socket);
    }
  }

  /** The seccomp error appears exactly when the profile is bad. */
  lemma SeccompErrorExactlyWhen(lib: Json, s: Spec, socket: string, suffix: string)
    ensures BadSeccomp in Problems(lib, s, socket, suffix) <==>
              !(s.seccomp == "" || s.seccomp == "unconfined" || IsJsonObject(lib, s.seccomp))
  {
    var checks := LastChecks(lib, s);
    FoundInItsArea(lib, s, socket, suffix, BadSeccomp);
    InCollect(checks, BadSeccomp);
    assert checks[0] == Some(BadSeccomp) <==> !ValidSeccomp(lib, s.seccomp);
  }
}
