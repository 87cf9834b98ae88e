/** The Docker engine as the harness meets it: containers, volumes and networks
    with labels, calls that may fail with or without having acted, and other
    actors who may delete things at any moment. */
module Engine {
  import opened EngineConfig
  import opened Specs
  import opened Text

  /** An object's identity. An anonymous volume belongs to one container. */
  datatype Object =
    | Container(id: int)
    | Anonymous(owner: int, k: nat)
    | Volume(name: string)
    | Network(name: string)

  /** uses: the volumes and networks a container holds. record: what an inspect
      of a container answers. */
  datatype Info = Info(labels: map<string, string>, uses: set<Object>, record: Option<Inspect>)

  /** lost: what was created by calls whose reply never arrived. ours and
      theirs: what harness calls and other actors have deleted since it was last
      there. sent: the create requests the engine acted on, in order. */
  datatype State = State(
    objects: map<Object, Info>, next: int, sent: seq<Request>,
    lost: set<Object>, ours: set<Object>, theirs: set<Object>)

  predicate InUse(s: State, o: Object) { exists c :: c in s.objects && o in s.objects[c].uses }

  /** Whose object this is: an anonymous volume is its container's. */
  function Root(o: Object): Object { if o.Anonymous? then Container(o.owner) else o }

  /** An identity not handed out yet. */
  predicate Fresh(s: State, o: Object) { Root(o).Container? && Root(o).id >= s.next }

  /** Only containers hold anything: volumes and networks. */
  ghost predicate HoldsRightly(o: Object, info: Info) {
    forall u :: u in info.uses ==> o.Container? && (u.Volume? || u.Network?)
  }

  /** Ids are handed out once, only containers hold anything, what is there is
      not deleted, and an anonymous volume outlives its container only if others
      deleted that. */
  ghost predicate Wf(s: State) {
    && (forall o :: o in s.objects || o in s.ours || o in s.theirs || o in s.lost ==> !Fresh(s, o))
    && (forall o :: o in s.objects ==> o !in s.ours && o !in s.theirs)
    && (forall o :: o in s.objects ==> HoldsRightly(o, s.objects[o]))
    && forall o :: o in s.objects && o.Anonymous? ==> Root(o) in s.objects || Root(o) in s.theirs
  }

  // What can have happened between two moments

  ghost predicate Known(s: State, o: Object) { o in s.objects || o in s.ours || o in s.theirs }

  /** Everything new since s belongs to one of roots, or was orphaned by others. */
  ghost predicate MadeOnly(s: State, t: State, roots: set<Object>) {
    forall o :: o in t.objects ==> o in s.objects || Root(o) in roots || Root(o) in t.theirs
  }

  /** Everything deleted by harness calls since s belonged to one of roots. */
  ghost predicate DeletedOnly(s: State, t: State, roots: set<Object>) {
    forall o :: o in t.ours ==> o in s.ours || Root(o) in roots
  }

  /** From s to t, harness calls made only what belongs to made and deleted only
      what belonged to deleted; nothing else was changed by anyone. */
  ghost predicate Moved(s: State, t: State, made: set<Object>, deleted: set<Object>) {
    && s.next <= t.next && s.lost <= t.lost
    && (forall o :: Known(s, o) ==> Known(t, o))
    && (forall o :: o in s.theirs && o.Container? ==> o in t.theirs)
    && (forall o :: o in s.objects && o in t.objects && !o.Volume? ==> t.objects[o] == s.objects[o])
    && (forall o :: o in t.objects ==> o in s.objects || o.Volume? || Fresh(s, o))
    && MadeOnly(s, t, made) && DeletedOnly(s, t, deleted)
  }

  /** What was deleted does not come back, volumes apart. */
  lemma BackAgain(t: State, u: State, o: Object, m: set<Object>, d: set<Object>)
    requires Wf(t) && Wf(u) && Moved(t, u, m, d) && Known(t, o) && o in u.objects && !o.Volume?
    ensures o in t.objects
  {
  }

  lemma MovedTransitive(s: State, t: State, u: State, m: set<Object>, d: set<Object>, m': set<Object>, d': set<Object>)
    requires Wf(s) && Wf(t) && Wf(u) && Moved(s, t, m, d) && Moved(t, u, m', d')
    ensures Moved(s, u, m + m', d + d')
  {
    forall o | o in s.objects && o in u.objects && !o.Volume?
      ensures u.objects[o] == s.objects[o]
    {
      assert Known(t, o);
      BackAgain(t, u, o, m', d');
    }
    forall o | o in u.objects
      ensures o in s.objects || Root(o) in m + m' || Root(o) in u.theirs
    {
      assert o in t.objects || Root(o) in m' || Root(o) in u.theirs;
    }
  }

  lemma MovedWider(s: State, t: State, m: set<Object>, d: set<Object>, m': set<Object>, d': set<Object>)
    requires Moved(s, t, m, d) && m <= m' && d <= d'
    ensures Moved(s, t, m', d')
  {
  }

  /** Nothing of root is left but what others orphaned. */
  ghost predicate Gone(t: State, root: Object) {
    forall o :: o in t.objects && Root(o) == root ==> o != root && root in t.theirs
  }

  lemma AbsentIsGone(t: State, root: Object)
    requires Wf(t) && root !in t.objects && !root.Anonymous?
    ensures Gone(t, root)
  {
  }

  /** What is gone need not be counted among what was made. */
  lemma GoneNotMade(s: State, t: State, m: set<Object>, d: set<Object>, root: Object)
    requires Moved(s, t, m, d) && Gone(t, root)
    ensures Moved(s, t, m - {root}, d)
  {
    forall o | o in t.objects
      ensures o in s.objects || Root(o) in m - {root} || Root(o) in t.theirs
    {
    }
  }

  /** Only other actors did anything. */
  ghost predicate Quiet(s: State, t: State) {
    && Moved(s, t, {}, {}) && t.next == s.next && t.lost == s.lost && t.sent == s.sent
    && forall o :: o in t.objects ==> o in s.objects && t.objects[o] == s.objects[o]
  }

  /** Nothing was made, and what harness calls deleted went whole: each object
      with what belongs to it, but for what others had deleted already. */
  ghost predicate Cascade(s: State, t: State) {
    && t.objects.Keys <= s.objects.Keys && s.ours <= t.ours && s.theirs <= t.theirs
    && (forall o :: o in s.objects ==> Known(t, o))
    && (forall o :: o in t.theirs ==> o in s.theirs || o in s.objects)
    && (forall o :: o in t.ours && o !in s.ours ==>
          o in s.objects && o !in t.theirs && Root(o) in t.ours && Root(o) !in s.ours)
    && forall o :: o in s.objects && Root(o) in t.ours && Root(o) !in s.ours ==> o in t.ours || o in t.theirs
  }

  lemma CascadeTransitive(s: State, t: State, u: State)
    requires Wf(s) && Wf(t) && Cascade(s, t) && Cascade(t, u)
    ensures Cascade(s, u)
  {
    forall o | o in s.objects && Root(o) in u.ours && Root(o) !in s.ours
      ensures o in u.ours || o in u.theirs
    {
      assert Known(t, o);
    }
    forall o | o in s.objects ensures Known(u, o) { assert Known(t, o); }
  }

  // Effects

  /** What happens to an engine call: it acts and answers, acts and its answer
      is lost, or fails without acting. */
  datatype Fault = Done | Lost | Failed

  function Without(s: State, root: Object): State {
    var gone := set o | o in s.objects && Root(o) == root;
    s.(objects := s.objects - gone, ours := s.ours + gone)
  }

  lemma WithoutMoves(s: State, root: Object)
    requires Wf(s) && !root.Anonymous?
    ensures var t := Without(s, root);
            Wf(t) && Moved(s, t, {}, {root}) && Gone(t, root)
            && forall o :: o in t.objects ==> o in s.objects && t.objects[o] == s.objects[o]
  {
  }

  lemma WithoutCascades(s: State, root: Object)
    requires Wf(s) && root in s.objects && !root.Anonymous?
    ensures Cascade(s, Without(s, root))
  {
  }

  /** Adds objects; a volume that was deleted before is there again. */
  function With(s: State, added: map<Object, Info>, next: int): State {
    s.(objects := s.objects + added, ours := s.ours - added.Keys, theirs := s.theirs - added.Keys, next := next)
  }

  /** New objects of these roots, with their ids handed out by next. */
  ghost predicate Addable(s: State, added: map<Object, Info>, next: int, roots: set<Object>) {
    && s.next <= next
    && (forall o :: o in added ==> o !in s.objects && (o.Volume? || Fresh(s, o)) && Root(o) in roots)
    && (forall o :: o in added ==> HoldsRightly(o, added[o]))
    && (forall o :: o in added && Root(o).Container? ==> Root(o).id < next)
    && forall o :: o in added && o.Anonymous? ==> Root(o) in added
  }

  lemma WithMoves(s: State, added: map<Object, Info>, next: int, roots: set<Object>)
    requires Wf(s) && Addable(s, added, next, roots)
    ensures Wf(With(s, added, next)) && Moved(s, With(s, added, next), roots, {})
  {
  }

  /** The named volumes and the network a container holds. */
  function Held(req: Request): set<Object> {
    (set m | m in req.hostConfig.mounts && m.kind == VOLUME :: Volume(m.source)) + {Network(req.hostConfig.networkMode)}
  }

  /** What a container creation adds: the container, the anonymous volumes its
      image declares, and each named volume that is not there yet, with the
      lesson's labels. */
  function Additions(s: State, req: Request, anonymous: nat, record: Inspect): map<Object, Info> {
    var volumes := set o | o in Held(req) && o.Volume? && o !in s.objects;
    var hidden := set k: nat | k < anonymous :: Anonymous(s.next, k);
    var lesson := Label(req.config.labels, LABEL_LESSON);
    (map o | o in volumes + hidden :: Info(if o.Volume? then Labels(lesson) else map[], {}, None))
    + map[Container(s.next) := Info(req.config.labels, Held(req), Some(record))]
  }

  /** The engine decides what it records for the container. */
  function Created(s: State, req: Request, anonymous: nat, record: Inspect): State {
    With(s, Additions(s, req, anonymous, record), s.next + 1).(sent := s.sent + [req])
  }

  lemma AddedIs(s: State, req: Request, anonymous: nat, record: Inspect, o: Object)
    requires o in Additions(s, req, anonymous, record)
    ensures var info := Additions(s, req, anonymous, record)[o];
            || (o == Container(s.next) && info == Info(req.config.labels, Held(req), Some(record)))
            || (info.uses == {} && o.Volume? && o in Held(req) && o !in s.objects)
            || (info.uses == {} && o.Anonymous? && o.owner == s.next)
  {
  }

  lemma AdditionsAddable(s: State, req: Request, anonymous: nat, record: Inspect)
    requires Wf(s)
    ensures Addable(s, Additions(s, req, anonymous, record), s.next + 1, {Container(s.next)} + Held(req))
  {
    var added := Additions(s, req, anonymous, record);
    assert Container(s.next) in added;
    forall o | o in added
      ensures o !in s.objects && (o.Volume? || Fresh(s, o)) && Root(o) in {Container(s.next)} + Held(req)
      ensures HoldsRightly(o, added[o]) && (Root(o).Container? ==> Root(o).id < s.next + 1)
      ensures o.Anonymous? ==> Root(o) == Container(s.next)
    {
      AddedIs(s, req, anonymous, record, o);
    }
  }

  lemma CreatedMoves(s: State, req: Request, anonymous: nat, record: Inspect)
    requires Wf(s)
    ensures var t := Created(s, req, anonymous, record); var id := Container(s.next);
            && Wf(t) && Moved(s, t, {id} + Held(req), {}) && t.sent == s.sent + [req]
            && id in t.objects && t.objects[id] == Info(req.config.labels, Held(req), Some(record))
  {
    AdditionsAddable(s, req, anonymous, record);
    WithMoves(s, Additions(s, req, anonymous, record), s.next + 1, {Container(s.next)} + Held(req));
  }

  // Lists

  datatype Kind = Containers | Volumes | Networks

  predicate IsKind(o: Object, kind: Kind) {
    match kind
    case Containers => o.Container?
    case Volumes => o.Volume?
    case Networks => o.Network?
  }

  /** ownedBy: both harness labels, with this exact lesson. */
  predicate OwnedBy(labels: map<string, string>, lesson: string) {
    Label(labels, LABEL_HARNESS) == "1" && Label(labels, LABEL_LESSON) == lesson
  }

  datatype Item = Item(thing: Object, labels: map<string, string>)

  /** The engine's own filter: it must not miss what matches, and may, in an old
      engine or by a bug, return more. */
  ghost predicate Answers(items: seq<Item>, s: State, kind: Kind, lesson: string) {
    && (forall k :: 0 <= k < |items| ==>
          IsKind(items[k].thing, kind) && items[k].thing in s.objects && s.objects[items[k].thing].labels == items[k].labels)
    && forall o :: o in s.objects && IsKind(o, kind) && OwnedBy(s.objects[o].labels, lesson) ==>
         Item(o, s.objects[o].labels) in items
  }

  class Docker {
    var s: State

    /** Removals and lists never fail by themselves, and no reply is lost. */
    const reliable: bool

    /** Nobody else deletes anything. */
    const alone: bool

    constructor (s: State, reliable: bool, alone: bool)
      requires Wf(s)
      ensures this.s == s && this.reliable == reliable && this.alone == alone
    {
      this.s, this.reliable, this.alone := s, reliable, alone;
    }

    /** Other actors delete what they like. */
    method Others()
      requires Wf(s)
      modifies this`s
      ensures Wf(s) && Quiet(old(s), s) && s.ours == old(s).ours && (alone ==> s == old(s)) && Cascade(old(s), s)
    {
      var victims: set<Object> := *;
      if !alone {
        var gone := set o | o in victims && o in s.objects;
        s := s.(objects := s.objects - gone, theirs := s.theirs + gone);
      }
    }

    method AnyFault() returns (f: Fault)
      ensures reliable ==> f != Lost
    {
      f := *;
      if reliable && f == Lost { f := Failed; }
    }

    /** A call that changes nothing: start, wait, logs. */
    method Ask() returns (err: bool)
      requires Wf(s)
      modifies this`s
      ensures Wf(s) && Quiet(old(s), s) && (alone ==> s == old(s))
    {
      Others();
      err := *;
    }

    /** ContainerInspect: what the engine recorded, or an error. */
    method InspectContainer(id: Object) returns (record: Option<Inspect>)
      requires Wf(s)
      modifies this`s
      ensures Wf(s) && Quiet(old(s), s) && (alone ==> s == old(s))
      ensures record.Some? ==> id in s.objects && s.objects[id].record == record
    {
      var failed := Ask();
      record := if !failed && id in s.objects then s.objects[id].record else None;
    }

    /** ContainerCreate. acted: the engine made it, whatever it answered. */
    method CreateContainer(req: Request) returns (id: Object, err: bool, ghost acted: bool)
      requires Wf(s)
      modifies this`s
      ensures Wf(s) && id.Container? && Fresh(old(s), id)
      ensures Moved(old(s), s, if acted then {id} + Held(req) else {}, {})
      ensures s.lost == if acted && err then old(s).lost + {id} else old(s).lost
      ensures acted ==> id in s.objects && s.objects[id].labels == req.config.labels && s.objects[id].uses == Held(req)
      ensures s.sent == if acted then old(s).sent + [req] else old(s).sent
      ensures !err ==> acted
      ensures reliable && err ==> !acted
      ensures alone ==> s.theirs <= old(s).theirs
    {
      Others();
      ghost var mid := s;
      var f := AnyFault();
      var anonymous: nat := *;
      var record: Inspect := *;
      id, err, acted := Container(s.next), f != Done, f != Failed;
      if f != Failed {
        s := Created(s, req, anonymous, record);
        if f == Lost { s := s.(lost := s.lost + {id}); }
        CreatedMoves(mid, req, anonymous, record);
        assert Moved(mid, s, {id} + Held(req), {});
        MovedTransitive(old(s), mid, s, {}, {}, {id} + Held(req), {});
        assert {} + ({id} + Held(req)) == {id} + Held(req);
      }
    }

    /** VolumeCreate: an existing volume is left as it is. */
    method CreateVolume(name: string, labels: map<string, string>) returns (err: bool, ghost acted: bool)
      requires Wf(s)
      modifies this`s
      ensures Wf(s)
      ensures Moved(old(s), s, if acted then {Volume(name)} else {}, {})
      ensures s.lost == if acted && err then old(s).lost + {Volume(name)} else old(s).lost
      ensures !err ==> Volume(name) in s.objects
      ensures s.sent == old(s).sent
      ensures reliable && err ==> !acted
      ensures alone ==> s.theirs <= old(s).theirs
    {
      Others();
      ghost var mid := s;
      var f := AnyFault();
      err, acted := f != Done, f != Failed && Volume(name) !in s.objects;
      if f != Failed && Volume(name) !in s.objects {
        var added := map[Volume(name) := Info(labels, {}, None)];
        s := With(s, added, s.next);
        if f == Lost { s := s.(lost := s.lost + {Volume(name)}); }
        WithMoves(mid, added, mid.next, {Volume(name)});
        assert Moved(mid, s, {Volume(name)}, {});
        MovedTransitive(old(s), mid, s, {}, {}, {Volume(name)}, {});
        assert {} + {Volume(name)} == {Volume(name)};
      }
    }

    /** ContainerRemove, VolumeRemove and NetworkRemove, by force where the call
        has one: an object in use is refused. */
    method Remove(o: Object) returns (err: bool)
      requires Wf(s) && !o.Anonymous?
      modifies this`s
      ensures Wf(s) && Moved(old(s), s, {}, {o}) && s.next == old(s).next && s.lost == old(s).lost && s.sent == old(s).sent
      ensures forall x :: x in s.objects ==> x in old(s).objects && s.objects[x] == old(s).objects[x]
      ensures !err ==> o !in s.objects
      ensures reliable && err ==> o !in s.objects || InUse(s, o)
      ensures reliable && alone && o in old(s).objects && !InUse(old(s), o) ==> !err
      ensures alone ==> s.theirs <= old(s).theirs
      ensures Cascade(old(s), s)
    {
      Others();
      ghost var mid := s;
      var f := AnyFault();
      if o !in s.objects {
        err := *;
      } else if InUse(s, o) || (f == Failed && !reliable) {
        err := true;
      } else {
        s := Without(s, o);
        err := f == Lost;
        WithoutMoves(mid, o);
        MovedTransitive(old(s), mid, s, {}, {}, {}, {o});
        assert {} + {o} == {o};
        WithoutCascades(mid, o);
        CascadeTransitive(old(s), mid, s);
      }
    }

    /** Whether the engine lists no container with this id; a failed list says
        nothing. */
    method ListsNone(o: Object) returns (none: bool)
      requires Wf(s)
      modifies this`s
      ensures Wf(s) && Quiet(old(s), s) && (alone ==> s == old(s))
      ensures none ==> o !in s.objects
      ensures reliable && o !in s.objects ==> none
    {
      Others();
      var f := AnyFault();
      none := (reliable || f == Done) && o !in s.objects;
    }

    /** ContainerList, VolumeList and NetworkList with the lesson's filter. */
    method List(kind: Kind, lesson: string) returns (items: seq<Item>, err: bool)
      requires Wf(s)
      modifies this`s
      ensures Wf(s) && Quiet(old(s), s) && s.ours == old(s).ours && (alone ==> s == old(s)) && Cascade(old(s), s)
      ensures !err ==> Answers(items, s, kind, lesson)
      ensures reliable ==> !err
    {
      Others();
      var f := AnyFault();
      items, err := [], f != Done && !reliable;
      if err { return; }
      var extra: set<Object> := *;
      var left := set o | o in s.objects && IsKind(o, kind) && (OwnedBy(s.objects[o].labels, lesson) || o in extra);
      while left != {}
        invariant forall o :: o in left ==> o in s.objects && IsKind(o, kind)
        invariant forall k :: 0 <= k < |items| ==>
                    IsKind(items[k].thing, kind) && items[k].thing in s.objects && s.objects[items[k].thing].labels == items[k].labels
        invariant forall o :: o in s.objects && IsKind(o, kind) && OwnedBy(s.objects[o].labels, lesson) ==>
                    o in left || Item(o, s.objects[o].labels) in items
        decreases left
      {
        var o :| o in left;
        items := items + [Item(o, s.objects[o].labels)];
        left := left - {o};
      }
    }
  }
}
