/** Create, Start, Run and Remove, every exit path with its cleanup. */
module Lifecycle {
  import opened Text
  import opened EngineConfig
  import opened Specs
  import opened Translation
  import opened Engine
  import Invariants
  import Observation

  /** What the harness knows when it talks to an engine: the libraries it uses
      and the daemon's socket. */
  datatype Setup = Setup(json: Json, printable: nat -> bool, socket: string)

  datatype Why = Refused | CreateFailed | NotAsAsked | StartFailed | RunFailed

  /** A handle, or an error that names what its failed cleanup left behind. */
  datatype Outcome = Handle(id: Object, req: Request) | Error(why: Why, left: set<Object>)

  function Kept(r: Outcome): set<Object> { if r.Handle? then {r.id} else r.left }

  /** The volumes and network a spec's container holds. */
  function HeldBy(setup: Setup, spec: Spec, suffix: string): set<Object> {
    Held(Translated(setup.json, spec, suffix))
  }

  // Putting steps together

  lemma ThenQuiet(s: State, t: State, u: State, m: set<Object>, d: set<Object>)
    requires Wf(s) && Wf(t) && Wf(u) && Moved(s, t, m, d) && Quiet(t, u)
    ensures Moved(s, u, m, d)
  {
    MovedTransitive(s, t, u, m, d, {}, {});
    assert m + {} == m && d + {} == d;
  }

  lemma ThenRemoved(s: State, t: State, u: State, m: set<Object>, d: set<Object>, id: Object)
    requires Wf(s) && Wf(t) && Wf(u) && Moved(s, t, m, d) && Moved(t, u, {}, {id})
    ensures Moved(s, u, m, d + {id})
    ensures !id.Anonymous? && id !in u.objects ==> Moved(s, u, m - {id}, d + {id})
  {
    MovedTransitive(s, t, u, m, d, {}, {id});
    assert m + {} == m;
    if !id.Anonymous? && id !in u.objects {
      AbsentIsGone(u, id);
      GoneNotMade(s, u, m, d + {id}, id);
    }
  }

  lemma NeverInUse(s: State, id: Object)
    requires Wf(s) && id.Container?
    ensures !InUse(s, id)
  {
    forall c | c in s.objects
      ensures id !in s.objects[c].uses
    {
      assert HoldsRightly(c, s.objects[c]);
    }
  }

  /** Container.Remove: removing what is already gone is not an error. */
  method Remove(e: Docker, id: Object) returns (err: bool)
    requires Wf(e.s) && id.Container?
    modifies e`s
    ensures Wf(e.s) && Moved(old(e.s), e.s, {}, {id}) && e.s.next == old(e.s).next && e.s.lost == old(e.s).lost
    ensures e.s.sent == old(e.s).sent
    ensures forall x :: x in e.s.objects ==> x in old(e.s).objects && e.s.objects[x] == old(e.s).objects[x]
    ensures !err ==> id !in e.s.objects
    ensures e.reliable ==> !err
    ensures e.alone ==> e.s.theirs <= old(e.s).theirs
  {
    err := e.Remove(id);
    ghost var mid := e.s;
    if err {
      NeverInUse(mid, id);
      var none := e.ListsNone(id);
      ThenQuiet(old(e.s), mid, e.s, {}, {id});
      err := !none;
    }
  }

  /** The engine labelled the container and recorded what was asked. */
  ghost predicate RecordMatches(info: Info, req: Request) {
    info.labels == req.config.labels && info.record.Some? && Observation.Matches(info.record.value, req)
  }

  /** Whether the engine's record differs from the request: an inspect that
      fails, or an answer CheckObserved objects to. The label map may be walked
      in either order. */
  method RecordDiffers(e: Docker, setup: Setup, id: Object, req: Request) returns (differs: bool)
    requires Wf(e.s) && req.config.labels == Labels(Label(req.config.labels, LABEL_LESSON))
    requires id in e.s.objects ==> e.s.objects[id].labels == req.config.labels
    modifies e`s
    ensures Wf(e.s) && Quiet(old(e.s), e.s) && (e.alone ==> e.s == old(e.s))
    ensures !differs ==> id in e.s.objects && RecordMatches(e.s.objects[id], req)
  {
    var record := e.InspectContainer(id);
    if record.None? { return true; }
    var harnessFirst: bool := *;
    var order := if harnessFirst then [LABEL_HARNESS, LABEL_LESSON] else [LABEL_LESSON, LABEL_HARNESS];
    LabelsHold(Label(req.config.labels, LABEL_LESSON));
    var bad := Observation.CheckObserved(setup.printable, record.value, req, order);
    Observation.EmptyMeansMatches(setup.printable, record.value, req, order);
    differs := |bad| > 0;
  }

  /** Everything new since s is kept, was made by a call whose reply was lost,
      or is a volume or network the container held; only id was deleted. */
  ghost predicate Accounted(s: State, t: State, kept: set<Object>, held: set<Object>, id: Object) {
    && Wf(s) && Wf(t) && id.Container? && Fresh(s, id)
    && Moved(s, t, kept + (t.lost - s.lost) + held, {id})
  }

  /** A handle that is given up: what is left of it if its removal fails. */
  method Discard(e: Docker, id: Object, ghost s: State, ghost held: set<Object>) returns (left: set<Object>)
    requires Accounted(s, e.s, {id}, held, id) && e.s.lost == s.lost && id !in held
    modifies e`s
    ensures Accounted(s, e.s, left, held, id) && e.s.lost == s.lost
    ensures left <= {id} && (left == {} ==> id !in e.s.objects) && e.s.sent == old(e.s).sent
    ensures e.reliable ==> left == {}
    ensures e.alone ==> e.s.theirs <= old(e.s).theirs
  {
    ghost var m := {id} + (e.s.lost - s.lost) + held;
    var failed := Remove(e, id);
    left := if failed then {id} else {};
    ThenRemoved(s, old(e.s), e.s, m, {id}, id);
    MovedWider(s, e.s, if failed then m else m - {id}, {id} + {id}, left + (e.s.lost - s.lost) + held, {id});
  }

  /** The inspect that follows a create: a container whose record differs from
      the request is removed again. */
  method Settle(e: Docker, setup: Setup, id: Object, req: Request, ghost s: State) returns (r: Outcome)
    requires Accounted(s, e.s, {id}, Held(req), id) && e.s.lost == s.lost
    requires req.config.labels == Labels(Label(req.config.labels, LABEL_LESSON))
    requires id in e.s.objects && e.s.objects[id].labels == req.config.labels
    modifies e`s
    ensures Accounted(s, e.s, Kept(r), Held(req), id) && e.s.lost == s.lost
    ensures r.Handle? ==> r == Handle(id, req) && id in e.s.objects && RecordMatches(e.s.objects[id], req)
    ensures e.s.sent == old(e.s).sent
    ensures r.Error? ==> r.why == NotAsAsked && r.left <= {id} && (r.left == {} ==> id !in e.s.objects)
    ensures e.reliable && r.Error? ==> r.left == {}
    ensures e.alone ==> e.s.theirs <= old(e.s).theirs
  {
    var differs := RecordDiffers(e, setup, id, req);
    ThenQuiet(s, old(e.s), e.s, {id} + (e.s.lost - s.lost) + Held(req), {id});
    if !differs { return Handle(id, req); }
    var left := Discard(e, id, s, Held(req));
    return Error(NotAsAsked, left);
  }

  /** CheckConfig finds nothing in the request. */
  ghost predicate Vetted(setup: Setup, req: Request) {
    forall v :: v !in Invariants.CheckConfig(setup.json, req, setup.socket)
  }

  lemma VettedMeans(setup: Setup, req: Request)
    ensures Vetted(setup, req) <==> Invariants.CheckConfig(setup.json, req, setup.socket) == []
  {
    NothingIn(Invariants.CheckConfig(setup.json, req, setup.socket));
  }

  /** Translate or CheckConfig objects. */
  ghost predicate Refuses(setup: Setup, spec: Spec, suffix: string) {
    || (exists p :: p in Problems(setup.json, spec, setup.socket, suffix))
    || !Vetted(setup, Translated(setup.json, spec, suffix))
  }

  /** Create, from the engine call on. */
  method Send(e: Docker, setup: Setup, req: Request) returns (r: Outcome, ghost id: Object)
    requires Wf(e.s) && req.config.labels == Labels(Label(req.config.labels, LABEL_LESSON))
    modifies e`s
    ensures Accounted(old(e.s), e.s, Kept(r), Held(req), id)
    ensures r.Handle? ==> r == Handle(id, req) && e.s.lost == old(e.s).lost
    ensures r.Handle? ==> id in e.s.objects && RecordMatches(e.s.objects[id], req) && e.s.sent == old(e.s).sent + [req]
    ensures r.Error? ==> (r.why == CreateFailed || r.why == NotAsAsked) && r.left <= {id}
    ensures r.Error? && r.left == {} && e.s.lost == old(e.s).lost ==> id !in e.s.objects
    ensures e.reliable ==> e.s.lost == old(e.s).lost && (r.Error? ==> r.left == {})
    ensures e.alone ==> e.s.theirs <= old(e.s).theirs
  {
    ghost var s := e.s;
    var made, err;
    ghost var acted;
    made, err, acted := e.CreateContainer(req);
    id := made;
    if err {
      assert Accounted(s, e.s, {}, Held(req), id) by {
        MovedWider(s, e.s, if acted then {id} + Held(req) else {}, {}, {} + (e.s.lost - s.lost) + Held(req), {id});
      }
      return Error(CreateFailed, {}), id;
    }
    assert Accounted(s, e.s, {id}, Held(req), id) by {
      MovedWider(s, e.s, {id} + Held(req), {}, {id} + (e.s.lost - s.lost) + Held(req), {id});
    }
    r := Settle(e, setup, made, req, s);
  }

  /** What happens before the engine is asked anything. */
  method Checked(setup: Setup, spec: Spec, suffix: string) returns (req: Request, refused: bool)
    ensures refused <==> Refuses(setup, spec, suffix)
    ensures !refused ==> req == Translated(setup.json, spec, suffix)
    ensures !refused ==> Vetted(setup, req)
  {
    var errs;
    req, errs := Translate(setup.json, spec, setup.socket, suffix);
    NothingIn(errs);
    if |errs| > 0 { return req, true; }
    VettedMeans(setup, req);
    var bad := Invariants.CheckConfig(setup.json, req, setup.socket);
    refused := |bad| > 0;
  }

  /** Create. Nothing is created when the spec is refused. id is the identity the
      engine used, if it got that far. */
  method Create(e: Docker, setup: Setup, spec: Spec, suffix: string) returns (r: Outcome, ghost id: Object)
    requires Wf(e.s)
    modifies e`s
    ensures r.Error? && r.why == Refused <==> Refuses(setup, spec, suffix)
    ensures r.Error? && r.why == Refused ==> e.s == old(e.s) && r.left == {}
    ensures Accounted(old(e.s), e.s, Kept(r), HeldBy(setup, spec, suffix), id)
    ensures r.Handle? ==> r == Handle(id, Translated(setup.json, spec, suffix)) && e.s.lost == old(e.s).lost
    ensures r.Handle? ==> id in e.s.objects && RecordMatches(e.s.objects[id], r.req) && e.s.sent == old(e.s).sent + [r.req]
    ensures r.Handle? ==> Vetted(setup, r.req)
    ensures r.Error? ==> r.why != StartFailed && r.left <= {id}
    ensures r.Error? && r.left == {} && e.s.lost == old(e.s).lost ==> id !in e.s.objects
    ensures e.reliable ==> e.s.lost == old(e.s).lost && (r.Error? ==> r.left == {})
    ensures e.alone ==> e.s.theirs <= old(e.s).theirs
  {
    id := Container(e.s.next);
    var req, refused := Checked(setup, spec, suffix);
    if refused { return Error(Refused, {}), id; }
    LabelsHold(spec.lesson);
    r, id := Send(e, setup, req);
  }

  method StartCreated(e: Docker, id: Object, req: Request, ghost s: State) returns (r: Outcome)
    requires Accounted(s, e.s, {id}, Held(req), id) && e.s.lost == s.lost
    modifies e`s
    ensures Accounted(s, e.s, Kept(r), Held(req), id) && e.s.lost == s.lost
    ensures r.Handle? ==> r == Handle(id, req) && Quiet(old(e.s), e.s) && (e.alone ==> e.s == old(e.s))
    ensures e.s.sent == old(e.s).sent
    ensures r.Error? ==> r.why == StartFailed && r.left <= {id} && (r.left == {} ==> id !in e.s.objects)
    ensures e.reliable && r.Error? ==> r.left == {}
    ensures e.alone ==> e.s.theirs <= old(e.s).theirs
  {
    var failed := e.Ask();
    ThenQuiet(s, old(e.s), e.s, {id} + (e.s.lost - s.lost) + Held(req), {id});
    if !failed { return Handle(id, req); }
    var left := Discard(e, id, s, Held(req));
    return Error(StartFailed, left);
  }

  /** Start: a container that does not start is removed again. */
  method Start(e: Docker, setup: Setup, spec: Spec, suffix: string) returns (r: Outcome, ghost id: Object)
    requires Wf(e.s)
    modifies e`s
    ensures Accounted(old(e.s), e.s, Kept(r), HeldBy(setup, spec, suffix), id)
    ensures r.Error? && r.why == Refused <==> Refuses(setup, spec, suffix)
    ensures r.Error? && r.why == Refused ==> e.s == old(e.s) && r.left == {}
    ensures r.Handle? ==> r == Handle(id, Translated(setup.json, spec, suffix)) && e.s.lost == old(e.s).lost
    ensures r.Handle? ==> e.s.sent == old(e.s).sent + [r.req] && !Fresh(e.s, id)
    ensures r.Handle? ==> Vetted(setup, r.req)
    ensures r.Handle? && id in e.s.objects ==> RecordMatches(e.s.objects[id], r.req)
    ensures r.Handle? && e.alone ==> id in e.s.objects
    ensures r.Error? ==> r.left <= {id}
    ensures r.Error? && r.left == {} && e.s.lost == old(e.s).lost ==> id !in e.s.objects
    ensures e.reliable ==> e.s.lost == old(e.s).lost && (r.Error? ==> r.left == {})
    ensures e.alone ==> e.s.theirs <= old(e.s).theirs
  {
    r, id := Create(e, setup, spec, suffix);
    if r.Handle? { r := StartCreated(e, r.id, r.req, old(e.s)); }
  }

  /** What a one-shot container came to. left: what its error says is left. */
  datatype Ran = Ran(err: bool, stdout: string, left: set<Object>)

  /** ContainerStart, ContainerWait, ContainerLogs and ContainerInspect, stopping
      at the first that fails. */
  method WaitAndRead(e: Docker, ghost s: State, ghost m: set<Object>, ghost d: set<Object>) returns (failed: bool)
    requires Wf(s) && Wf(e.s) && Moved(s, e.s, m, d)
    modifies e`s
    ensures Wf(e.s) && Moved(s, e.s, m, d) && e.s.lost == old(e.s).lost && e.s.sent == old(e.s).sent
    ensures e.alone ==> e.s == old(e.s)
  {
    var steps := 0;
    failed := false;
    while steps < 4 && !failed
      invariant 0 <= steps <= 4
      invariant Wf(e.s) && Moved(s, e.s, m, d) && e.s.lost == old(e.s).lost && e.s.sent == old(e.s).sent
      invariant e.alone ==> e.s == old(e.s)
    {
      ghost var before := e.s;
      failed := e.Ask();
      ThenQuiet(s, before, e.s, m, d);
      steps := steps + 1;
    }
  }

  method RunCreated(e: Docker, id: Object, req: Request, ghost s: State) returns (r: Ran)
    requires Accounted(s, e.s, {id}, Held(req), id) && e.s.lost == s.lost
    modifies e`s
    ensures Accounted(s, e.s, r.left, Held(req), id) && e.s.lost == s.lost
    ensures r.left <= {id} && (r.left != {} ==> r.err) && (r.left == {} ==> id !in e.s.objects)
    ensures e.s.sent == old(e.s).sent
    ensures e.reliable ==> r.left == {}
    ensures e.alone ==> e.s.theirs <= old(e.s).theirs
  {
    var failed := WaitAndRead(e, s, {id} + (e.s.lost - s.lost) + Held(req), {id});
    var stdout: string := *;
    var left := Discard(e, id, s, Held(req));
    return Ran(failed || left != {}, stdout, left);
  }

  /** Run: start, wait, read the logs, inspect; whatever happens, the container
      is removed on the way out. */
  method Run(e: Docker, setup: Setup, spec: Spec, suffix: string) returns (r: Ran, ghost id: Object)
    requires Wf(e.s)
    modifies e`s
    ensures Accounted(old(e.s), e.s, r.left, HeldBy(setup, spec, suffix), id)
    ensures Refuses(setup, spec, suffix) ==> r.err && r.left == {} && e.s == old(e.s)
    ensures r.left <= {id} && (r.left != {} ==> r.err)
    ensures !r.err ==> e.s.lost == old(e.s).lost && id !in e.s.objects
    ensures !r.err ==> e.s.sent == old(e.s).sent + [Translated(setup.json, spec, suffix)]
    ensures r.left == {} && e.s.lost == old(e.s).lost ==> id !in e.s.objects
    ensures e.reliable ==> e.s.lost == old(e.s).lost && r.left == {}
    ensures e.alone ==> e.s.theirs <= old(e.s).theirs
  {
    var c;
    c, id := Create(e, setup, spec, suffix);
    if c.Error? { return Ran(true, "", c.left), id; }
    r := RunCreated(e, c.id, c.req, old(e.s));
  }
}
