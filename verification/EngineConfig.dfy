/** The engine's configuration structures, as far as the harness sets or reads them. */
module EngineConfig {
  import opened Text

  /** A mount as the engine takes it. tmpfsSize is None without TmpfsOptions. */
  datatype EngineMount = EngineMount(
    kind: string, source: string, target: string, readOnly: bool,
    volumeLabels: Option<map<string, string>>, tmpfsSize: Option<int>)

  datatype Config = Config(
    image: string, cmd: seq<string>, env: seq<string>, user: string, labels: map<string, string>)

  /** Capability lists keep nil (None) apart from empty, as the observer's deep
      comparison does; a PID limit is a pointer. */
  datatype HostConfig = HostConfig(
    binds: seq<string>,
    mounts: seq<EngineMount>,
    privileged: bool,
    networkMode: string,
    pidMode: string,
    ipcMode: string,
    utsMode: string,
    usernsMode: string,
    cgroupnsMode: string,
    readonlyRootfs: bool,
    capAdd: Option<seq<string>>,
    capDrop: Option<seq<string>>,
    securityOpt: seq<string>,
    groupAdd: seq<string>,
    memory: int,
    memorySwap: int,
    nanoCPUs: int,
    pidsLimit: Option<int>,
    runtime: string)

  datatype Request = Request(name: string, config: Config, hostConfig: HostConfig)

  /** What an inspect returns; either part may be absent. */
  datatype Inspect = Inspect(name: string, config: Option<Config>, hostConfig: Option<HostConfig>)

  const ZERO_CONFIG := Config("", [], [], "", map[])
  const ZERO_HOST := HostConfig([], [], false, "", "", "", "", "", "", false, None, None, [], [], 0, 0, 0, None, "")
  const ZERO_REQUEST := Request("", ZERO_CONFIG, ZERO_HOST)

  const LABEL_HARNESS := "trinkets.harness"
  const LABEL_LESSON := "trinkets.lesson"

  /** The labels of a harness object that belongs to a lesson. */
  function Labels(lesson: string): (labels: map<string, string>) {
    map[LABEL_HARNESS := "1", LABEL_LESSON := lesson]
  }

  /** Indexing a Go map of strings: "" for a missing key. */
  function Label(labels: map<string, string>, key: string): string {
    if key in labels then labels[key] else ""
  }

  lemma LabelsHold(lesson: string)
    ensures Label(Labels(lesson), LABEL_HARNESS) == "1" && Label(Labels(lesson), LABEL_LESSON) == lesson
    ensures forall key :: key in Labels(lesson) <==> key == LABEL_HARNESS || key == LABEL_LESSON
  {
    assert |LABEL_HARNESS| == 16 && |LABEL_LESSON| == 15;
  }

  function ContainerName(lesson: string, role: string, suffix: string): string {
    "trinkets-" + lesson + "-" + role + "-" + suffix
  }
}
