/** A fixture container as a lesson describes it, and what makes one valid. */
module Specs {
  import opened Text
  import opened Names
  import opened Paths
  import opened DockerSocket
  import Utf8

  const VOLUME := "volume"
  const TMPFS := "tmpfs"

  datatype Mount = Mount(kind: string, source: string, target: string, readOnly: bool, tmpfsSize: int)

  datatype Spec = Spec(
    lesson: string, role: string, image: string,
    cmd: seq<string>, env: seq<string>,
    user: string, groups: seq<string>,
    mounts: seq<Mount>,
    network: string,
    readOnlyRoot: bool,
    capDrop: Option<seq<string>>, capAdd: Option<seq<string>>,
    noNewPrivileges: bool,
    seccomp: string,
    pidMode: string,
    memory: int, nanoCPUs: int, pidsLimit: int,
    runtime: string)

  /** The JSON decoder and compactor, as far as the translation uses them. */
  datatype Json = Json(isObject: string -> bool, compact: string -> string)

  /** isJSONObject. */
  predicate IsJsonObject(lib: Json, s: string) { Utf8.Valid(s) && lib.isObject(s) }

  /** What json.Compact promises: a valid object stays one. */
  ghost predicate Lawful(lib: Json) {
    forall s :: IsJsonObject(lib, s) ==> IsJsonObject(lib, lib.compact(s))
  }

  function Items(caps: Option<seq<string>>): seq<string> { if caps.Some? then caps.value else [] }

  // Names

  predicate NameChar(c: char) { LetterOrDigit(c) || c == '_' || c == '.' || c == '-' }

  /** ^[a-zA-Z0-9][a-zA-Z0-9_.-]*$ */
  predicate NetworkName(s: string) {
    s != "" && LetterOrDigit(s[0]) && forall k :: 0 <= k < |s| ==> NameChar(s[k])
  }

  /** ^[a-zA-Z0-9][a-zA-Z0-9_.-]+$ */
  predicate VolumeName(s: string) { |s| >= 2 && NetworkName(s) }

  /** ^[a-z0-9]{1,32}$ */
  predicate Suffix(s: string) { 1 <= |s| <= 32 && AllLowerOrDigit(s) }

  /** ^[A-Za-z0-9_]+$ */
  predicate CapName(s: string) { s != "" && forall k :: 0 <= k < |s| ==> LetterOrDigit(s[k]) || s[k] == '_' }

  predicate ValidUser(u: string) {
    var c := Cut(u, ':');
    ValidNumericId(c.0) && (c.2 ==> ValidNumericId(c.1))
  }

  const CONTAINER := "container:"

  predicate ValidPidMode(mode: string) {
    mode == "" || (HasPrefix(mode, CONTAINER) && NetworkName(mode[|CONTAINER|..]))
  }

  predicate ValidNetwork(n: string) { n != "host" && (n == "" || NetworkName(n)) }

  predicate ValidSeccomp(lib: Json, s: string) { s == "" || s == "unconfined" || IsJsonObject(lib, s) }

  // Validity

  predicate ValidSource(m: Mount, socket: string) {
    && !IsDockerSocket(m.source, socket)
    && (m.kind == VOLUME || m.kind == TMPFS)
    && (m.kind == VOLUME ==> VolumeName(m.source) && m.tmpfsSize == 0)
    && (m.kind == TMPFS ==> m.source == "" && m.tmpfsSize >= 0)
  }

  /** "/" followed by "/"-joined plain segments, in NUL-free valid UTF-8. */
  predicate ValidTarget(t: string) {
    && Rooted(t) && t != "/" && AllPlain(Split(t[1..], '/'))
    && '\0' !in t && Utf8.Valid(t)
  }

  predicate ValidMounts(mounts: seq<Mount>, socket: string) {
    && (forall i :: 0 <= i < |mounts| ==> ValidSource(mounts[i], socket) && ValidTarget(mounts[i].target))
    && forall i, j :: 0 <= i < j < |mounts| ==> mounts[i].target != mounts[j].target
  }

  predicate ValidNaming(s: Spec, suffix: string) {
    && Kebab(s.lesson) && Kebab(s.role) && Suffix(suffix) && s.image != ""
    && (s.user != "" ==> ValidUser(s.user))
  }

  predicate AllValid(ok: string -> bool, items: seq<string>) {
    forall k :: 0 <= k < |items| ==> ok(items[k])
  }

  predicate ValidLimits(s: Spec) { s.memory >= 0 && s.nanoCPUs >= 0 && s.pidsLimit >= 0 }

  /** Everything a translatable spec must satisfy, field by field. */
  predicate ValidSpec(lib: Json, s: Spec, socket: string, suffix: string) {
    && ValidNaming(s, suffix)
    && AllValid(ValidNumericId, s.groups)
    && ValidMounts(s.mounts, socket)
    && ValidNetwork(s.network) && ValidPidMode(s.pidMode)
    && AllValid(CapName, Items(s.capDrop)) && AllValid(CapName, Items(s.capAdd))
    && ValidSeccomp(lib, s.seccomp)
    && ValidLimits(s)
  }

  // The preset

  const RESTRICTED_USER := "10001:10001"
  const RESTRICTED_MEMORY := 67_108_864
  const RESTRICTED_NANO_CPUS := 500_000_000
  const RESTRICTED_PIDS := 64
  const RESTRICTED_TMP_SIZE := 16_777_216
  const RESTRICTED_RUNTIME := "runc"

  function Restricted(lesson: string, role: string, image: string, cmd: seq<string>): Spec {
    Spec(lesson, role, image, cmd, [],
         RESTRICTED_USER, [],
         [Mount(TMPFS, "", "/tmp", false, RESTRICTED_TMP_SIZE)],
         "none", true,
         Some(["ALL"]), None,
         true, "", "",
         RESTRICTED_MEMORY, RESTRICTED_NANO_CPUS, RESTRICTED_PIDS,
         RESTRICTED_RUNTIME)
  }
}
