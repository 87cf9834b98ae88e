/** The specs of a socket topology translate, and to restricted containers. */
module TopologySpecs {
  import opened Text
  import opened Names
  import opened Paths
  import opened DockerSocket
  import opened Specs
  import opened Invariants
  import opened SafeTranslation
  import opened Tightening
  import opened Topology
  import opened PeerCred
  import Decimal

  lemma ItoaIsId(n: int)
    ensures ValidNumericId(Decimal.Itoa(n)) <==> ValidId(n)
    ensures ValidId(n) ==> Decimal.Value(Decimal.Itoa(n)) == n
    ensures ':' !in Decimal.Itoa(n)
  {
    var t := Decimal.Itoa(n);
    if n >= 0 { Decimal.ValueOfDigits(n); } else { assert t[0] == '-'; }
  }

  /** A numeric owner is a valid user exactly when both ids are in range, and a
      root user exactly when the uid is 0. */
  lemma OwnerIsUser(uid: int, gid: int)
    ensures ValidUser(Owner(uid, gid)) <==> ValidId(uid) && ValidId(gid)
    ensures ValidId(uid) && ValidId(gid) ==> (NonRootUser(Owner(uid, gid)) <==> uid != 0)
    ensures Owner(uid, gid) != ""
  {
    var u, g := Decimal.Itoa(uid), Decimal.Itoa(gid);
    ItoaIsId(uid);
    ItoaIsId(gid);
    CutAt(u, g, ':');
    if ValidId(uid) && ValidId(gid) { NonRootMeans(Owner(uid, gid)); }
  }

  lemma DifferentRoots(p: string, q: string)
    requires Rooted(p) != Rooted(q)
    ensures !SamePlace(p, q)
  {
  }

  lemma FixedAreRooted()
    ensures Rooted(FIXED_A) && Rooted(FIXED_B)
  {
  }

  /** A volume name is the daemon's socket only if the daemon listens on a
      relative path that resolves to it. */
  lemma VolumeAsSocket(name: string, socket: string)
    requires VolumeName(name)
    ensures IsDockerSocket(name, socket) <==> socket != "" && SamePlace(name, socket)
    ensures socket == "" || Rooted(socket) ==> !IsDockerSocket(name, socket)
  {
    SocketByAnySpelling(name, socket);
    FixedAreRooted();
    assert !Rooted(name) by { assert name[0] != '/'; }
    DifferentRoots(name, FIXED_A);
    DifferentRoots(name, FIXED_B);
    if Rooted(socket) { DifferentRoots(name, socket); }
  }

  lemma SockMountDecides(name: string, readOnly: bool, socket: string)
    requires VolumeName(name)
    ensures ValidSource(SockMount(name, readOnly), socket) <==> !IsDockerSocket(name, socket)
    ensures ValidTarget(SockMount(name, readOnly).target)
    ensures SOCKET_DIR != "/tmp"
  {
    OneSegmentTarget("sock");
    assert "/" + "sock" == SOCKET_DIR;
    assert |VOLUME| == 6 && |TMPFS| == 5;
    assert |SOCKET_DIR| == 5 && |"/tmp"| == 4;
  }

  lemma TwoMountsDecide(a: Mount, b: Mount, socket: string)
    requires ValidMounts([a], socket) && ValidTarget(b.target) && a.target != b.target
    ensures ValidMounts([a] + [b], socket) <==> ValidSource(b, socket)
  {
    var ms := [a] + [b];
    assert ms[0] == [a][0] && ms[1] == b;
  }

  lemma SockMountsDecide(tmp: Mount, name: string, readOnly: bool, socket: string)
    requires VolumeName(name)
    requires ValidMounts([tmp], socket) && tmp.target == "/tmp"
    ensures ValidMounts([tmp] + [SockMount(name, readOnly)], socket) <==> !IsDockerSocket(name, socket)
  {
    SockMountDecides(name, readOnly, socket);
    TwoMountsDecide(tmp, SockMount(name, readOnly), socket);
  }

  lemma OneValid(ok: string -> bool, item: string)
    ensures AllValid(ok, [item]) <==> ok(item)
    ensures AllValid(ok, [])
  {
    assert [item][0] == item;
  }

  /** A preset with another numeric user, one more volume and numeric groups:
      valid exactly when the names and ids are and the volume's name is not the
      daemon's socket. */
  lemma TopologySpecDecides(lib: Json, s: Spec, preset: Spec, uid: int, gid: int, name: string, readOnly: bool,
                            socket: string, suffix: string)
    requires VolumeName(name)
    requires PresetFields(lib, preset, socket) && |preset.mounts| == 1 && preset.mounts[0].target == "/tmp"
    requires s == preset.(user := Owner(uid, gid), groups := s.groups, capAdd := s.capAdd,
                          mounts := preset.mounts + [SockMount(name, readOnly)])
    ensures ValidSpec(lib, s, socket, suffix) <==>
              Kebab(s.lesson) && Kebab(s.role) && s.image != "" && Suffix(suffix)
              && ValidId(uid) && ValidId(gid) && AllValid(ValidNumericId, s.groups)
              && AllValid(CapName, Items(s.capAdd)) && !IsDockerSocket(name, socket)
    ensures ValidId(uid) && ValidId(gid) ==> (RestrictedSpec(s) <==> uid != 0 && Items(s.capAdd) == [])
  {
    OwnerIsUser(uid, gid);
    assert preset.mounts == [preset.mounts[0]];
    SockMountsDecide(preset.mounts[0], name, readOnly, socket);
  }

  lemma PresetTmp(lesson: string, role: string, image: string, cmd: seq<string>)
    ensures |Restricted(lesson, role, image, cmd).mounts| == 1
    ensures Restricted(lesson, role, image, cmd).mounts[0].target == "/tmp"
  {
  }

  lemma OneWordIsKebab(w: string)
    requires w != "" && AllLowerOrDigit(w)
    ensures Kebab(w)
  {
    assert forall k :: 0 <= k < |w| ==> LowerOrDigit(w[k]) && w[k] != '-';
    SplitWhole(w, '-');
  }

  lemma BrokerIsKebab()
    ensures Kebab("broker")
  {
    OneWordIsKebab("broker");
  }

  lemma InitIsKebab()
    ensures Kebab("sockinit")
  {
    OneWordIsKebab("sockinit");
  }

  lemma GroupIsId(gid: int)
    ensures AllValid(ValidNumericId, [Decimal.Itoa(gid)]) <==> ValidId(gid)
  {
    ItoaIsId(gid);
    OneValid(ValidNumericId, Decimal.Itoa(gid));
  }

  lemma InitCapsValid()
    ensures AllValid(CapName, ["CHOWN", "FOWNER"])
  {
    assert |"CHOWN"| == 5 && |"FOWNER"| == 6;
  }

  /** The init container: its owner argument plays no part; it is never restricted. */
  lemma InitDecides(lib: Json, lesson: string, image: string, uid: int, gid: int, name: string, socket: string, suffix: string)
    requires VolumeName(name)
    ensures var s := InitSpec(lesson, image, uid, gid, name);
            && (ValidSpec(lib, s, socket, suffix) <==>
                  Kebab(lesson) && image != "" && Suffix(suffix) && ValidId(gid) && !IsDockerSocket(name, socket))
            && (ValidId(gid) ==> !RestrictedSpec(s))
  {
    var cmd := ["initdir", SOCKET_DIR, Owner(uid, gid), "2750"];
    PresetHasFields(lib, lesson, "sockinit", image, cmd, socket);
    PresetTmp(lesson, "sockinit", image, cmd);
    InitIsKebab();
    InitCapsValid();
    TopologySpecDecides(lib, InitSpec(lesson, image, uid, gid, name), Restricted(lesson, "sockinit", image, cmd),
                        0, gid, name, false, socket, suffix);
  }

  /** BrokerSpec. */
  lemma BrokerDecides(lib: Json, lesson: string, image: string, uid: int, gid: int, name: string, cmd: seq<string>,
                      socket: string, suffix: string)
    requires VolumeName(name)
    ensures var s := BrokerSpec(lesson, image, uid, gid, SockMount(name, false), cmd);
            && (ValidSpec(lib, s, socket, suffix) <==>
                  Kebab(lesson) && image != "" && Suffix(suffix) && ValidId(uid) && ValidId(gid) && !IsDockerSocket(name, socket))
            && (ValidId(uid) && ValidId(gid) ==> (RestrictedSpec(s) <==> uid != 0))
  {
    PresetHasFields(lib, lesson, "broker", image, cmd, socket);
    PresetTmp(lesson, "broker", image, cmd);
    BrokerIsKebab();
    TopologySpecDecides(lib, BrokerSpec(lesson, image, uid, gid, SockMount(name, false), cmd),
                        Restricted(lesson, "broker", image, cmd), uid, gid, name, false, socket, suffix);
  }

  /** WorkerSpec: read-only socket mount, one supplementary group. */
  lemma WorkerDecides(lib: Json, lesson: string, role: string, image: string, uid: int, gid: int, socketGid: int, name: string,
                      cmd: seq<string>, socket: string, suffix: string)
    requires VolumeName(name)
    ensures var s := WorkerSpec(lesson, role, image, uid, gid, socketGid, SockMount(name, true), cmd);
            && (ValidSpec(lib, s, socket, suffix) <==>
                  Kebab(lesson) && Kebab(role) && image != "" && Suffix(suffix)
                  && ValidId(uid) && ValidId(gid) && ValidId(socketGid) && !IsDockerSocket(name, socket))
            && (ValidId(uid) && ValidId(gid) ==> (RestrictedSpec(s) <==> uid != 0))
  {
    PresetHasFields(lib, lesson, role, image, cmd, socket);
    PresetTmp(lesson, role, image, cmd);
    TopologySpecDecides(lib, WorkerSpec(lesson, role, image, uid, gid, socketGid, SockMount(name, true), cmd),
                        Restricted(lesson, role, image, cmd), uid, gid, name, true, socket, suffix);
    GroupIsId(socketGid);
  }

  /** A worker without the socket group. */
  lemma OutsiderDecides(lib: Json, lesson: string, role: string, image: string, uid: int, gid: int, socketGid: int, name: string,
                        cmd: seq<string>, socket: string, suffix: string)
    requires VolumeName(name)
    ensures var s := WorkerSpec(lesson, role, image, uid, gid, socketGid, SockMount(name, true), cmd).(groups := []);
            && (ValidSpec(lib, s, socket, suffix) <==>
                  Kebab(lesson) && Kebab(role) && image != "" && Suffix(suffix)
                  && ValidId(uid) && ValidId(gid) && !IsDockerSocket(name, socket))
            && (ValidId(uid) && ValidId(gid) ==> (RestrictedSpec(s) <==> uid != 0))
  {
    PresetHasFields(lib, lesson, role, image, cmd, socket);
    PresetTmp(lesson, role, image, cmd);
    TopologySpecDecides(lib, WorkerSpec(lesson, role, image, uid, gid, socketGid, SockMount(name, true), cmd).(groups := []),
                        Restricted(lesson, role, image, cmd), uid, gid, name, true, socket, suffix);
  }

  // The whole cast

  ghost predicate NameChars(s: string) { forall k :: 0 <= k < |s| ==> NameChar(s[k]) }

  lemma NameCharsTogether(a: string, b: string)
    requires NameChars(a) && NameChars(b)
    ensures NameChars(a + b)
  {
  }

  lemma SockPrefixChars(lesson: string)
    requires Kebab(lesson)
    ensures NameChars(SockPrefix(lesson)) && |SockPrefix(lesson)| >= 2 && LetterOrDigit(SockPrefix(lesson)[0])
  {
    KebabChars(lesson);
    NameCharsTogether("trinkets-", lesson);
    NameCharsTogether("trinkets-" + lesson, "-sock-");
  }

  /** The names CreateVolume draws are volume names. */
  lemma SockNameIsVolumeName(name: string, lesson: string)
    requires Kebab(lesson) && IsSockName(name, lesson)
    ensures VolumeName(name)
  {
    var prefix := SockPrefix(lesson);
    SockPrefixChars(lesson);
    NameCharsTogether(prefix, name[|prefix|..]);
    assert name == prefix + name[|prefix|..];
  }

  lemma RolesAreKebab()
    ensures Kebab("worker1") && Kebab("worker2") && Kebab("outsider")
  {
    OneWordIsKebab("worker1");
    OneWordIsKebab("worker2");
    OneWordIsKebab("outsider");
  }

  /** What is planned for one container translates exactly when the image is
      named, the suffix is one and the volume is not the daemon's socket. */
  ghost predicate Planned(lib: Json, s: Spec, image: string, name: string, socket: string, suffix: string) {
    ValidSpec(lib, s, socket, suffix) <==> image != "" && Suffix(suffix) && !IsDockerSocket(name, socket)
  }

  lemma InsiderPlanned(lib: Json, lesson: string, image: string, role: string, uid: int, inGroup: bool, socketGid: int, name: string,
                       socket: string, suffix: string)
    requires Kebab(lesson) && Kebab(role) && VolumeName(name) && 0 < uid <= MAX_ID && ValidId(socketGid)
    ensures var w := WorkerOf(lesson, image, role, uid, inGroup, socketGid, name);
            Planned(lib, w.spec, image, name, socket, suffix) && RestrictedSpec(w.spec)
  {
    var cmd := ["dial", "unix", PEER_SOCKET, "peer\n"];
    if inGroup { WorkerDecides(lib, lesson, role, image, uid, uid, socketGid, name, cmd, socket, suffix); }
    else { OutsiderDecides(lib, lesson, role, image, uid, uid, socketGid, name, cmd, socket, suffix); }
  }

  lemma IdsInRange(ids: Identities)
    requires ValidIdentities(ids)
    ensures 0 < ids.brokerUid <= MAX_ID && 0 < ids.socketGid <= MAX_ID
    ensures 0 < ids.worker1 <= MAX_ID && 0 < ids.worker2 <= MAX_ID && 0 < ids.outsider <= MAX_ID
  {
    var l := Ids(ids);
    assert l[0] == ids.brokerUid && l[1] == ids.socketGid && l[2] == ids.worker1 && l[3] == ids.worker2 && l[4] == ids.outsider;
  }

  ghost predicate AsPlanned(lib: Json, s: Spec, image: string, name: string, socket: string, suffix: string) {
    Planned(lib, s, image, name, socket, suffix) && RestrictedSpec(s)
  }

  lemma InitTranslates(lib: Json, lesson: string, image: string, ids: Identities, name: string, socket: string, suffix: string)
    requires Kebab(lesson) && VolumeName(name) && ValidId(ids.socketGid)
    ensures var s := CastOf(lesson, image, ids, name).init;
            Planned(lib, s, image, name, socket, suffix) && !RestrictedSpec(s)
  {
    InitDecides(lib, lesson, image, ids.brokerUid, ids.socketGid, name, socket, suffix);
  }

  lemma BrokerTranslates(lib: Json, lesson: string, image: string, ids: Identities, name: string, socket: string, suffix: string)
    requires Kebab(lesson) && VolumeName(name) && 0 < ids.brokerUid <= MAX_ID && ValidId(ids.socketGid)
    ensures AsPlanned(lib, CastOf(lesson, image, ids, name).broker, image, name, socket, suffix)
  {
    BrokerDecides(lib, lesson, image, ids.brokerUid, ids.socketGid, name, ["peer-echo", PEER_SOCKET], socket, suffix);
  }

  lemma WorkersTranslate(lib: Json, lesson: string, image: string, ids: Identities, name: string, socket: string, suffix: string, k: nat)
    requires Kebab(lesson) && VolumeName(name) && ValidIdentities(ids) && k < 3
    ensures AsPlanned(lib, CastOf(lesson, image, ids, name).workers[k].spec, image, name, socket, suffix)
  {
    RolesAreKebab();
    IdsInRange(ids);
    if k == 0 {
      InsiderPlanned(lib, lesson, image, "worker1", ids.worker1, true, ids.socketGid, name, socket, suffix);
    } else if k == 1 {
      InsiderPlanned(lib, lesson, image, "worker2", ids.worker2, true, ids.socketGid, name, socket, suffix);
    } else {
      InsiderPlanned(lib, lesson, image, "outsider", ids.outsider, false, ids.socketGid, name, socket, suffix);
    }
  }

  /** All five planned containers translate exactly then; all but the init
      container are restricted. Unless the daemon listens on a relative path, the
      volume is never its socket, and only the image and the suffix matter. */
  lemma CastTranslates(lib: Json, lesson: string, image: string, ids: Identities, name: string, socket: string, suffix: string)
    requires Kebab(lesson) && IsSockName(name, lesson) && ValidIdentities(ids)
    ensures var cast := CastOf(lesson, image, ids, name);
            && Planned(lib, cast.init, image, name, socket, suffix) && !RestrictedSpec(cast.init)
            && AsPlanned(lib, cast.broker, image, name, socket, suffix)
            && |cast.workers| == 3
            && forall k :: 0 <= k < 3 ==> AsPlanned(lib, cast.workers[k].spec, image, name, socket, suffix)
    ensures IsDockerSocket(name, socket) <==> socket != "" && SamePlace(name, socket)
    ensures socket == "" || Rooted(socket) ==> !IsDockerSocket(name, socket)
  {
    SockNameIsVolumeName(name, lesson);
    VolumeAsSocket(name, socket);
    IdsInRange(ids);
    InitTranslates(lib, lesson, image, ids, name, socket, suffix);
    BrokerTranslates(lib, lesson, image, ids, name, socket, suffix);
    forall k | 0 <= k < 3
      ensures AsPlanned(lib, CastOf(lesson, image, ids, name).workers[k].spec, image, name, socket, suffix)
    {
      WorkersTranslate(lib, lesson, image, ids, name, socket, suffix, k);
    }
  }
}
