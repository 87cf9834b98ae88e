/** socketVolume and verifyPeerIdentity: what they create, and the order in
    which they clean it up. */
module Topology {
  import opened Text
  import opened Names
  import opened EngineConfig
  import opened Specs
  import opened Translation
  import opened Engine
  import opened Lifecycle
  import opened PeerCred
  import Decimal
  import Polling

  const SOCKET_DIR := "/sock"
  const PEER_SOCKET := "/sock/peer.sock"

  function Owner(uid: int, gid: int): string { Decimal.Itoa(uid) + [':'] + Decimal.Itoa(gid) }

  function SockMount(name: string, readOnly: bool): Mount { Mount(VOLUME, name, SOCKET_DIR, readOnly, 0) }

  function BrokerSpec(lesson: string, image: string, uid: int, gid: int, sock: Mount, cmd: seq<string>): Spec {
    var s := Restricted(lesson, "broker", image, cmd);
    s.(user := Owner(uid, gid), mounts := s.mounts + [sock])
  }

  function WorkerSpec(lesson: string, role: string, image: string, uid: int, gid: int, socketGid: int, sock: Mount, cmd: seq<string>): Spec {
    var s := Restricted(lesson, role, image, cmd);
    s.(user := Owner(uid, gid), groups := [Decimal.Itoa(socketGid)], mounts := s.mounts + [sock])
  }

  /** The container that prepares the volume: root, with two capabilities. */
  function InitSpec(lesson: string, image: string, uid: int, gid: int, name: string): Spec {
    var s := Restricted(lesson, "sockinit", image, ["initdir", SOCKET_DIR, Owner(uid, gid), "2750"]);
    s.(user := Owner(0, gid), capAdd := Some(["CHOWN", "FOWNER"]), mounts := s.mounts + [SockMount(name, false)])
  }

  // Accounting

  /** The engine acted on these create requests since s, and no others. */
  ghost predicate Sent(s: State, t: State, requests: seq<Request>) { t.sent == s.sent + requests }

  lemma SentTogether(s: State, t: State, u: State, a: seq<Request>, b: seq<Request>)
    requires Sent(s, t, a) && Sent(t, u, b)
    ensures Sent(s, u, a + b)
  {
    assert (s.sent + a) + b == s.sent + (a + b);
  }

  /** Since s, only what is in left, what was made by calls whose reply was lost
      and the volume v are new; only containers made since s were deleted. */
  ghost predicate Progress(s: State, t: State, left: set<Object>, v: Object, d: set<Object>) {
    && Wf(s) && Wf(t) && v.Volume?
    && Moved(s, t, left + (t.lost - s.lost) + {v}, d)
    && forall x :: x in d ==> x.Container? && Fresh(s, x)
  }

  /** What a spec's container holds: its volumes and its network. */
  lemma HeldByMounts(setup: Setup, spec: Spec, suffix: string, v: Object)
    requires v.Volume?
    requires forall m :: m in spec.mounts && m.kind == VOLUME ==> Volume(m.source) == v
    ensures HeldBy(setup, spec, suffix) <= {v, Network(spec.network)}
  {
    var req := Translated(setup.json, spec, suffix);
    forall m | m in req.hostConfig.mounts && m.kind == VOLUME
      ensures Volume(m.source) == v
    {
      var k :| 0 <= k < |spec.mounts| && req.hostConfig.mounts[k] == m;
      assert spec.mounts[k] in spec.mounts;
    }
  }

  /** Networks are never made, so they need no accounting. */
  lemma NetworksNotMade(s: State, t: State, m: set<Object>, d: set<Object>, network: Object)
    requires Moved(s, t, m, d) && network.Network?
    ensures Moved(s, t, m - {network}, d)
  {
    forall o | o in t.objects
      ensures o in s.objects || Root(o) in m - {network} || Root(o) in t.theirs
    {
    }
  }

  /** One more container, run or started. */
  lemma ProgressMore(s: State, t: State, u: State, left: set<Object>, kept: set<Object>, v: Object, held: set<Object>,
                     network: string, d: set<Object>, id: Object)
    requires Progress(s, t, left, v, d) && Accounted(t, u, kept, held, id) && held <= {v, Network(network)}
    ensures Progress(s, u, left + kept, v, d + {id})
  {
    var m, m' := left + (t.lost - s.lost) + {v}, kept + (u.lost - t.lost) + held;
    MovedTransitive(s, t, u, m, d, m', {id});
    NetworksNotMade(s, u, m + m', d + {id}, Network(network));
    MovedWider(s, u, m + m' - {Network(network)}, d + {id}, (left + kept) + (u.lost - s.lost) + {v}, d + {id});
  }

  /** A container kept so far is removed. */
  lemma ProgressRemoved(s: State, t: State, u: State, left: set<Object>, v: Object, d: set<Object>, id: Object, failed: bool)
    requires Progress(s, t, left + {id}, v, d) && id.Container? && Fresh(s, id)
    requires Wf(u) && Moved(t, u, {}, {id}) && u.lost == t.lost && (!failed ==> id !in u.objects)
    ensures Progress(s, u, left + if failed then {id} else {}, v, d + {id})
  {
    var m := left + {id} + (t.lost - s.lost) + {v};
    ThenRemoved(s, t, u, m, d, id);
    MovedWider(s, u, if failed then m else m - {id}, d + {id},
               (left + if failed then {id} else {}) + (u.lost - s.lost) + {v}, d + {id});
  }

  lemma ProgressQuiet(s: State, t: State, u: State, left: set<Object>, v: Object, d: set<Object>)
    requires Progress(s, t, left, v, d) && Wf(u) && Quiet(t, u)
    ensures Progress(s, u, left, v, d)
  {
    ThenQuiet(s, t, u, left + (t.lost - s.lost) + {v}, d);
  }

  /** Nobody but a container that is left uses the volume. */
  lemma UnusedAfter(s: State, t: State, v: Object, d: set<Object>)
    requires Progress(s, t, {}, v, d) && t.lost == s.lost && !InUse(s, v)
    ensures !InUse(t, v)
  {
    forall c | c in t.objects
      ensures v !in t.objects[c].uses
    {
      assert HoldsRightly(c, t.objects[c]);
    }
  }

  /** Alone, what is there and not deleted by us stays. */
  lemma StaysThere(s: State, t: State, m: set<Object>, d: set<Object>, v: Object)
    requires Wf(s) && Wf(t) && Moved(s, t, m, d) && v.Volume? && v in s.objects && v !in d && t.theirs <= s.theirs
    ensures v in t.objects
  {
    assert Known(s, v);
  }

  /** A name nobody has used: what a fresh random suffix gives. */
  ghost predicate Unused(s: State, v: Object) { v.Volume? && v !in s.objects && v !in s.lost && !InUse(s, v) }

  /** Since s, only what is in left and what was made by calls whose reply was
      lost is new; only v and containers made since s were deleted. */
  ghost predicate Cleaned(s: State, t: State, left: set<Object>, v: Object, d: set<Object>) {
    && Wf(s) && Wf(t) && v.Volume?
    && Moved(s, t, left + (t.lost - s.lost), d + {v})
    && forall x :: x in d ==> x.Container? && Fresh(s, x)
  }

  lemma VolumeRemoved(s: State, t: State, u: State, left: set<Object>, v: Object, d: set<Object>, failed: bool)
    requires Progress(s, t, left, v, d) && Wf(u) && Moved(t, u, {}, {v}) && u.lost == t.lost
    requires !failed ==> v !in u.objects
    ensures Cleaned(s, u, left + if failed then {v} else {}, v, d)
  {
    var m := left + (t.lost - s.lost) + {v};
    ThenRemoved(s, t, u, m, d, v);
    MovedWider(s, u, if failed then m else m - {v}, d + {v},
               (left + if failed then {v} else {}) + (u.lost - s.lost), d + {v});
  }

  /** removeVolume, after everything that may hold the volume is gone. */
  method RemoveVolume(e: Docker, v: Object, ghost s: State, ghost left: set<Object>, ghost d: set<Object>) returns (failed: bool)
    requires Progress(s, e.s, left, v, d) && Unused(s, v)
    modifies e`s
    ensures Cleaned(s, e.s, left + if failed then {v} else {}, v, d) && e.s.lost == old(e.s).lost
    ensures e.alone ==> e.s.theirs <= old(e.s).theirs
    ensures e.s.sent == old(e.s).sent
    ensures e.reliable && e.alone && left == {} && e.s.lost == s.lost && v in old(e.s).objects ==> !failed
  {
    failed := e.Remove(v);
    VolumeRemoved(s, old(e.s), e.s, left, v, d, failed);
    if left == {} && e.s.lost == s.lost { UnusedAfter(s, old(e.s), v, d); }
  }

  const NO_MOUNT := Mount("", "", "", false, 0)

  /** The two mounts of a prepared volume, or an error and what it says is left. */
  datatype Sock = Sock(err: bool, broker: Mount, worker: Mount, left: set<Object>)

  function SockPrefix(lesson: string): string { "trinkets-" + lesson + "-sock-" }

  /** A name CreateVolume may draw for the volume. */
  predicate IsSockName(name: string, lesson: string) {
    HasPrefix(name, SockPrefix(lesson)) && Suffix(name[|SockPrefix(lesson)|..])
  }

  /** A spec with the preset's tmpfs and this view of the volume. */
  predicate OnSock(spec: Spec, name: string, readOnly: bool) {
    spec.mounts == [Mount(TMPFS, "", "/tmp", false, RESTRICTED_TMP_SIZE), SockMount(name, readOnly)]
  }

  /** No reply was lost, nobody deleted anything, and the volume stayed. */
  ghost predicate Steady(e: Docker, t: State, u: State, v: Object) {
    && (e.reliable ==> u.lost == t.lost)
    && (e.alone ==> u.theirs <= t.theirs && (v in t.objects ==> v in u.objects))
  }

  lemma VolumeStays(s: State, t: State, kept: set<Object>, held: set<Object>, id: Object, v: Object)
    requires Accounted(s, t, kept, held, id) && v.Volume? && v in s.objects && t.theirs <= s.theirs
    ensures v in t.objects
  {
    StaysThere(s, t, kept + (t.lost - s.lost) + held, {id}, v);
  }

  lemma SockHolds(setup: Setup, spec: Spec, suffix: string, name: string, readOnly: bool)
    requires OnSock(spec, name, readOnly)
    ensures HeldBy(setup, spec, suffix) <= {Volume(name), Network(spec.network)}
  {
    HeldByMounts(setup, spec, suffix, Volume(name));
  }

  /** A container that mounts the volume, added to the account. */
  lemma SockProgress(s: State, t: State, u: State, left: set<Object>, kept: set<Object>, setup: Setup, spec: Spec,
                     suffix: string, name: string, readOnly: bool, d: set<Object>, id: Object)
    requires Progress(s, t, left, Volume(name), d) && OnSock(spec, name, readOnly)
    requires Accounted(t, u, kept, HeldBy(setup, spec, suffix), id)
    ensures Progress(s, u, left + kept, Volume(name), d + {id}) && Fresh(s, id)
    ensures u.theirs <= t.theirs && Volume(name) in t.objects ==> Volume(name) in u.objects
  {
    SockHolds(setup, spec, suffix, name, readOnly);
    ProgressMore(s, t, u, left, kept, Volume(name), HeldBy(setup, spec, suffix), spec.network, d, id);
    assert id in d + {id};
    if u.theirs <= t.theirs && Volume(name) in t.objects {
      VolumeStays(t, u, kept, HeldBy(setup, spec, suffix), id, Volume(name));
    }
  }

  /** Runs a container that mounts the volume and adds it to the account. */
  method RunWith(e: Docker, setup: Setup, spec: Spec, name: string, readOnly: bool, suffix: string,
                 ghost s: State, ghost left: set<Object>, ghost d: set<Object>)
    returns (r: Ran, ghost d': set<Object>)
    requires Progress(s, e.s, left, Volume(name), d)
    requires OnSock(spec, name, readOnly)
    modifies e`s
    ensures Progress(s, e.s, left + r.left, Volume(name), d')
    ensures Steady(e, old(e.s), e.s, Volume(name)) && (e.reliable || !r.err ==> r.left == {})
    ensures !r.err ==> e.s.lost == old(e.s).lost && Sent(old(e.s), e.s, [Translated(setup.json, spec, suffix)])
  {
    ghost var id;
    r, id := Run(e, setup, spec, suffix);
    d' := d + {id};
    SockProgress(s, old(e.s), e.s, left, r.left, setup, spec, suffix, name, readOnly, d, id);
  }

  /** The init container of a volume just created. */
  method Prepare(e: Docker, setup: Setup, spec: Spec, name: string, suffix: string, ghost s: State)
    returns (r: Sock, ghost d: set<Object>)
    requires Progress(s, e.s, {}, Volume(name), {}) && Unused(s, Volume(name)) && Volume(name) in e.s.objects
    requires OnSock(spec, name, false)
    modifies e`s
    ensures r.err ==> r == Sock(true, NO_MOUNT, NO_MOUNT, r.left) && Cleaned(s, e.s, r.left, Volume(name), d)
    ensures !r.err ==>
              && r == Sock(false, SockMount(name, false), SockMount(name, true), {})
              && Progress(s, e.s, {}, Volume(name), d) && e.s.lost == old(e.s).lost
              && Sent(old(e.s), e.s, [Translated(setup.json, spec, suffix)])
              && (e.alone ==> Volume(name) in e.s.objects)
    ensures e.reliable && e.alone && old(e.s).lost == s.lost ==> r.left == {} && e.s.lost == s.lost
    ensures e.alone ==> e.s.theirs <= old(e.s).theirs
  {
    var ran;
    ran, d := RunWith(e, setup, spec, name, false, suffix, s, {}, {});
    assert {} + ran.left == ran.left;
    var exit: int := *;
    if ran.err || exit != 0 {
      var failed := RemoveVolume(e, Volume(name), s, ran.left, d);
      return Sock(true, NO_MOUNT, NO_MOUNT, ran.left + if failed then {Volume(name)} else {}), d;
    }
    r := Sock(false, SockMount(name, false), SockMount(name, true), {});
  }

  method PreparedVolume(e: Docker, setup: Setup, lesson: string, uid: int, gid: int, init: Spec, name: string, suffix: string)
    returns (r: Sock, ghost d: set<Object>)
    requires Wf(e.s) && Unused(e.s, Volume(name)) && OnSock(init, name, false)
    modifies e`s
    ensures r.err ==> r == Sock(true, NO_MOUNT, NO_MOUNT, r.left) && Cleaned(old(e.s), e.s, r.left, Volume(name), d)
    ensures !r.err ==>
              && r == Sock(false, SockMount(name, false), SockMount(name, true), {})
              && Progress(old(e.s), e.s, {}, Volume(name), d) && e.s.lost == old(e.s).lost
              && Sent(old(e.s), e.s, [Translated(setup.json, init, suffix)])
              && (e.alone ==> Volume(name) in e.s.objects)
    ensures !r.err ==> ValidId(uid) && ValidId(gid) && Kebab(lesson)
    ensures e.reliable && e.alone ==> r.left == {} && e.s.lost == old(e.s).lost
    ensures e.alone ==> e.s.theirs <= old(e.s).theirs
  {
    d := {};
    r := Sock(true, NO_MOUNT, NO_MOUNT, {});
    if !ValidId(uid) || !ValidId(gid) || !Kebab(lesson) { return; }
    var err;
    ghost var acted;
    err, acted := e.CreateVolume(name, Labels(lesson));
    ghost var s, v, made := old(e.s), Volume(name), if acted then {Volume(name)} else {};
    if err {
      MovedWider(s, e.s, made, {}, {} + (e.s.lost - s.lost), {} + {v});
      return;
    }
    MovedWider(s, e.s, made, {}, {} + (e.s.lost - s.lost) + {v}, {});
    r, d := Prepare(e, setup, init, name, suffix, s);
  }

  /** socketVolume: a labelled volume prepared by a one-shot container; on any
      error the volume is removed again. name is the volume's random name and
      suffix the random part of the container's. */
  method SocketVolume(e: Docker, setup: Setup, lesson: string, image: string, uid: int, gid: int, name: string, suffix: string)
    returns (r: Sock, ghost d: set<Object>)
    requires Wf(e.s) && IsSockName(name, lesson) && Unused(e.s, Volume(name))
    modifies e`s
    ensures r.err ==> r == Sock(true, NO_MOUNT, NO_MOUNT, r.left) && Cleaned(old(e.s), e.s, r.left, Volume(name), d)
    ensures !r.err ==>
              && r == Sock(false, SockMount(name, false), SockMount(name, true), {})
              && Progress(old(e.s), e.s, {}, Volume(name), d) && e.s.lost == old(e.s).lost
              && Sent(old(e.s), e.s, [Translated(setup.json, InitSpec(lesson, image, uid, gid, name), suffix)])
              && (e.alone ==> Volume(name) in e.s.objects)
    ensures !r.err ==> ValidId(uid) && ValidId(gid) && Kebab(lesson)
    ensures e.reliable && e.alone ==> r.left == {} && e.s.lost == old(e.s).lost
    ensures e.alone ==> e.s.theirs <= old(e.s).theirs
  {
    r, d := PreparedVolume(e, setup, lesson, uid, gid, InitSpec(lesson, image, uid, gid, name), name, suffix);
  }

  // verifyPeerIdentity

  /** The dials made, and what the error, if any, says is left. */
  datatype Verified = Verified(err: bool, dials: seq<PeerDial>, left: set<Object>)

  /** One dialler: what is noted of it and the container it runs as. */
  datatype Worker = Worker(role: string, uid: int, inGroup: bool, spec: Spec)

  /** The containers of a verification. */
  datatype Cast = Cast(init: Spec, broker: Spec, workers: seq<Worker>)

  function WorkerOf(lesson: string, image: string, role: string, uid: int, inGroup: bool, socketGid: int, name: string): Worker {
    var s := WorkerSpec(lesson, role, image, uid, uid, socketGid, SockMount(name, true), ["dial", "unix", PEER_SOCKET, "peer\n"]);
    Worker(role, uid, inGroup, if inGroup then s else s.(groups := []))
  }

  /** The init container, the broker, two workers in the group and the outsider. */
  function CastOf(lesson: string, image: string, ids: Identities, name: string): Cast {
    Cast(InitSpec(lesson, image, ids.brokerUid, ids.socketGid, name),
         BrokerSpec(lesson, image, ids.brokerUid, ids.socketGid, SockMount(name, false), ["peer-echo", PEER_SOCKET]),
         [WorkerOf(lesson, image, "worker1", ids.worker1, true, ids.socketGid, name),
          WorkerOf(lesson, image, "worker2", ids.worker2, true, ids.socketGid, name),
          WorkerOf(lesson, image, "outsider", ids.outsider, false, ids.socketGid, name)])
  }

  ghost predicate WorkersOnSock(workers: seq<Worker>, name: string) {
    forall k :: 0 <= k < |workers| ==> OnSock(workers[k].spec, name, true)
  }

  ghost predicate CastOnSock(cast: Cast, name: string) {
    OnSock(cast.init, name, false) && OnSock(cast.broker, name, false) && WorkersOnSock(cast.workers, name)
  }

  lemma CastMounts(lesson: string, image: string, ids: Identities, name: string)
    ensures CastOnSock(CastOf(lesson, image, ids, name), name)
  {
  }

  /** The create requests of the dials. */
  function DialRequests(json: Json, workers: seq<Worker>, suffix: nat -> string): (rs: seq<Request>)
    ensures |rs| == |workers|
  {
    seq(|workers|, k requires 0 <= k < |workers| => Translated(json, workers[k].spec, suffix(2 + k)))
  }

  function RequestsOnVolume(json: Json, cast: Cast, suffix: nat -> string): seq<Request> {
    [Translated(json, cast.broker, suffix(1))] + DialRequests(json, cast.workers, suffix)
  }

  /** All of them, in order. */
  function Requests(json: Json, cast: Cast, suffix: nat -> string): seq<Request> {
    [Translated(json, cast.init, suffix(0))] + RequestsOnVolume(json, cast, suffix)
  }

  ghost predicate DialsAre(dials: seq<PeerDial>, workers: seq<Worker>, n: nat) {
    n <= |workers| && |dials| == n && forall k :: 0 <= k < n ==>
      dials[k].role == workers[k].role && dials[k].uid == workers[k].uid && dials[k].inGroup == workers[k].inGroup
  }

  /** The dial loop: it stops at the first dial that fails. */
  method DialAll(e: Docker, setup: Setup, workers: seq<Worker>, name: string,
                 suffix: nat -> string, ghost s: State, ghost b: Object, ghost d: set<Object>)
    returns (r: Verified, ghost d': set<Object>)
    requires Progress(s, e.s, {b}, Volume(name), d) && WorkersOnSock(workers, name)
    modifies e`s
    ensures Progress(s, e.s, {b} + r.left, Volume(name), d')
    ensures Steady(e, old(e.s), e.s, Volume(name)) && (e.reliable || !r.err ==> r.left == {})
    ensures !r.err ==> DialsAre(r.dials, workers, |workers|)
    ensures !r.err ==> Sent(old(e.s), e.s, DialRequests(setup.json, workers, suffix))
  {
    ghost var requests := DialRequests(setup.json, workers, suffix);
    r, d' := Verified(false, [], {}), d;
    assert {b} + {} == {b};
    for i := 0 to |workers|
      invariant Progress(s, e.s, {b} + r.left, Volume(name), d') && Steady(e, old(e.s), e.s, Volume(name))
      invariant !r.err && r.left == {} && DialsAre(r.dials, workers, i)
      invariant Sent(old(e.s), e.s, requests[..i])
    {
      var w := workers[i];
      ghost var before := e.s;
      var ran;
      ran, d' := RunWith(e, setup, w.spec, name, true, suffix(2 + i), s, {b} + r.left, d');
      assert {b} + r.left + ran.left == {b} + ran.left;
      if ran.err { return Verified(true, r.dials, ran.left), d'; }
      r := Verified(false, r.dials + [PeerDial(w.role, w.uid, w.uid, w.inGroup, ran.stdout)], {});
      SentTogether(old(e.s), before, e.s, requests[..i], [requests[i]]);
      assert requests[..i + 1] == requests[..i] + [requests[i]];
    }
    assert requests[..|workers|] == requests;
  }

  /** Everything done while the broker runs: wait for it to listen, dial, check. */
  method WithBroker(e: Docker, setup: Setup, scan: string -> Option<Cred>, workers: seq<Worker>,
                    name: string, suffix: nat -> string, ghost s: State, ghost b: Object, ghost d: set<Object>)
    returns (r: Verified, ghost d': set<Object>)
    requires Progress(s, e.s, {b}, Volume(name), d) && WorkersOnSock(workers, name)
    modifies e`s
    ensures Progress(s, e.s, {b} + r.left, Volume(name), d')
    ensures Steady(e, old(e.s), e.s, Volume(name)) && (e.reliable || !r.err ==> r.left == {})
    ensures !r.err ==> DialsAre(r.dials, workers, |workers|) && Violations(scan, r.dials) == []
    ensures !r.err ==> Sent(old(e.s), e.s, DialRequests(setup.json, workers, suffix))
  {
    d' := d;
    var lost := e.Ask();
    ProgressQuiet(s, old(e.s), e.s, {b}, Volume(name), d);
    if e.alone { assert e.s == old(e.s); }
    var polls: seq<Option<string>> := *;
    var listen := Polling.WaitLine(polls, "listen");
    assert {b} + {} == {b};
    if lost || !listen.LineRead? || !listen.line.ok { return Verified(true, [], {}), d'; }
    r, d' := DialAll(e, setup, workers, name, suffix, s, b, d);
    if r.err { return; }
    var bad := CheckPeerIdentity(scan, r.dials);
    r := r.(err := |bad| > 0);
  }

  method StartBroker(e: Docker, setup: Setup, spec: Spec, name: string, suffix: string, ghost s: State, ghost d: set<Object>)
    returns (b: Outcome, ghost d': set<Object>)
    requires Progress(s, e.s, {}, Volume(name), d)
    requires OnSock(spec, name, false)
    modifies e`s
    ensures Progress(s, e.s, Kept(b), Volume(name), d')
    ensures Steady(e, old(e.s), e.s, Volume(name)) && (e.reliable && b.Error? ==> b.left == {})
    ensures b.Handle? ==> b.id.Container? && Fresh(s, b.id) && Sent(old(e.s), e.s, [Translated(setup.json, spec, suffix)])
  {
    ghost var id;
    b, id := Start(e, setup, spec, suffix);
    d' := d + {id};
    SockProgress(s, old(e.s), e.s, {}, Kept(b), setup, spec, suffix, name, false, d, id);
    assert {} + Kept(b) == Kept(b);
  }

  /** The deferred removal of the broker, joined to the result. */
  method RemoveBroker(e: Docker, b: Object, r: Verified, ghost v: Object, ghost s: State, ghost d: set<Object>)
    returns (r': Verified, ghost d': set<Object>)
    requires Progress(s, e.s, {b} + r.left, v, d) && b.Container? && Fresh(s, b)
    requires e.reliable || !r.err ==> r.left == {}
    modifies e`s
    ensures Progress(s, e.s, r'.left, v, d') && r'.dials == r.dials && (r.err ==> r'.err)
    ensures Steady(e, old(e.s), e.s, v) && (e.reliable || !r'.err ==> r'.left == {})
    ensures e.s.sent == old(e.s).sent
  {
    var failed := Remove(e, b);
    d' := d + {b};
    assert {b} + r.left == r.left + {b};
    ProgressRemoved(s, old(e.s), e.s, r.left, v, d, b, failed);
    r' := Verified(r.err || failed, r.dials, r.left + if failed then {b} else {});
    if e.alone && v in old(e.s).objects { StaysThere(old(e.s), e.s, {}, {b}, v); }
  }

  /** The broker around it: its removal is deferred, so it comes last here. */
  method WithVolume(e: Docker, setup: Setup, scan: string -> Option<Cred>, cast: Cast,
                    name: string, suffix: nat -> string, ghost s: State, ghost d: set<Object>)
    returns (r: Verified, ghost d': set<Object>)
    requires Progress(s, e.s, {}, Volume(name), d) && CastOnSock(cast, name)
    modifies e`s
    ensures Progress(s, e.s, r.left, Volume(name), d')
    ensures Steady(e, old(e.s), e.s, Volume(name)) && (e.reliable || !r.err ==> r.left == {})
    ensures !r.err ==> DialsAre(r.dials, cast.workers, |cast.workers|) && Violations(scan, r.dials) == []
    ensures !r.err ==> Sent(old(e.s), e.s, RequestsOnVolume(setup.json, cast, suffix))
  {
    var b;
    b, d' := StartBroker(e, setup, cast.broker, name, suffix(1), s, d);
    if b.Error? { return Verified(true, [], b.left), d'; }
    ghost var started, v := e.s, Volume(name);
    r, d' := WithBroker(e, setup, scan, cast.workers, name, suffix, s, b.id, d');
    if !r.err {
      SentTogether(old(e.s), started, e.s, [Translated(setup.json, cast.broker, suffix(1))], DialRequests(setup.json, cast.workers, suffix));
    }
    r, d' := RemoveBroker(e, b.id, r, v, s, d');
  }

  /** Everything after the volume is prepared; its removal is deferred, so it
      comes last. */
  method VerifyWith(e: Docker, setup: Setup, scan: string -> Option<Cred>, cast: Cast,
                    name: string, suffix: nat -> string, ghost s: State, ghost d: set<Object>)
    returns (r: Verified, ghost d': set<Object>)
    requires Progress(s, e.s, {}, Volume(name), d) && Unused(s, Volume(name)) && CastOnSock(cast, name)
    modifies e`s
    ensures Cleaned(s, e.s, r.left, Volume(name), d') && (r.left != {} ==> r.err)
    ensures !r.err ==> DialsAre(r.dials, cast.workers, |cast.workers|) && Violations(scan, r.dials) == []
    ensures !r.err ==> Sent(old(e.s), e.s, RequestsOnVolume(setup.json, cast, suffix))
    ensures e.reliable && e.alone && Volume(name) in old(e.s).objects && old(e.s).lost == s.lost ==>
              r.left == {} && e.s.lost == s.lost
    ensures e.alone ==> e.s.theirs <= old(e.s).theirs
  {
    r, d' := WithVolume(e, setup, scan, cast, name, suffix, s, d);
    var failed := RemoveVolume(e, Volume(name), s, r.left, d');
    r := Verified(r.err || failed, r.dials, r.left + if failed then {Volume(name)} else {});
  }

  /** The verification with its containers given. */
  method VerifyCast(e: Docker, setup: Setup, scan: string -> Option<Cred>, lesson: string, uid: int, gid: int, cast: Cast,
                    name: string, suffix: nat -> string)
    returns (r: Verified, ghost d: set<Object>)
    requires Wf(e.s) && Unused(e.s, Volume(name)) && CastOnSock(cast, name)
    modifies e`s
    ensures Cleaned(old(e.s), e.s, r.left, Volume(name), d) && (r.left != {} ==> r.err)
    ensures !r.err ==> DialsAre(r.dials, cast.workers, |cast.workers|) && Violations(scan, r.dials) == []
    ensures !r.err ==> Sent(old(e.s), e.s, Requests(setup.json, cast, suffix))
    ensures e.reliable && e.alone ==> r.left == {} && e.s.lost == old(e.s).lost && e.s.theirs <= old(e.s).theirs
  {
    var sock;
    sock, d := PreparedVolume(e, setup, lesson, uid, gid, cast.init, name, suffix(0));
    if sock.err { return Verified(true, [], sock.left), d; }
    ghost var prepared := e.s;
    r, d := VerifyWith(e, setup, scan, cast, sock.broker.source, suffix, old(e.s), d);
    if !r.err {
      SentTogether(old(e.s), prepared, e.s, [Translated(setup.json, cast.init, suffix(0))], RequestsOnVolume(setup.json, cast, suffix));
    }
  }

  /** verifyPeerIdentity: volume, broker, workers; on every path the containers
      are removed before the volume they hold, so on an engine that refuses to
      remove a volume in use nothing remains unless a removal error says so or a
      create reply was lost. Success means exactly the planned containers were
      created, in order, and the check found nothing wrong with the three dials. */
  method VerifyPeerIdentity(e: Docker, setup: Setup, scan: string -> Option<Cred>, lesson: string, image: string,
                            ids: Identities, name: string, suffix: nat -> string)
    returns (r: Verified, ghost d: set<Object>)
    requires Wf(e.s) && IsSockName(name, lesson) && Unused(e.s, Volume(name))
    modifies e`s
    ensures Cleaned(old(e.s), e.s, r.left, Volume(name), d)
    ensures r.left != {} ==> r.err
    ensures !ValidIdentities(ids) ==> r.err && e.s == old(e.s)
    ensures !r.err ==> DialsAre(r.dials, CastOf(lesson, image, ids, name).workers, 3) && Violations(scan, r.dials) == []
    ensures !r.err ==> Sent(old(e.s), e.s, Requests(setup.json, CastOf(lesson, image, ids, name), suffix))
    ensures e.reliable && e.alone ==> r.left == {} && e.s.lost == old(e.s).lost && e.s.theirs <= old(e.s).theirs
  {
    var ok := Validate(ids);
    d := {};
    if !ok { return Verified(true, [], {}), d; }
    CastMounts(lesson, image, ids, name);
    r, d := VerifyCast(e, setup, scan, lesson, ids.brokerUid, ids.socketGid, CastOf(lesson, image, ids, name), name, suffix);
  }

  /** Read off: when no removal failed and no reply was lost, everything there
      afterwards was there before, other actors' orphans apart. */
  lemma NothingRemains(s: State, t: State, v: Object, d: set<Object>, o: Object)
    requires Cleaned(s, t, {}, v, d) && t.lost == s.lost && o in t.objects
    ensures o in s.objects || Root(o) in t.theirs
    ensures t.theirs <= s.theirs ==> o in s.objects
  {
    assert {} + (t.lost - s.lost) == {};
    assert o in s.objects || o.Volume? || Fresh(s, o);
  }
}
