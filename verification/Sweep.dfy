/** ListLesson and Sweep: the net for what crashed runs left behind. */
module Sweep {
  import opened Names
  import opened Engine
  import opened Text
  import EngineConfig

  datatype Leftovers = Leftovers(containers: seq<Object>, volumes: seq<Object>, networks: seq<Object>)

  const NOTHING := Leftovers([], [], [])

  predicate Listed(left: Leftovers, o: Object) { o in left.containers || o in left.volumes || o in left.networks }

  predicate Owned(s: State, o: Object, lesson: string) { o in s.objects && OwnedBy(s.objects[o].labels, lesson) }

  /** Nothing appeared and nothing that stayed changed. */
  ghost predicate Shrunk(s: State, t: State) {
    forall o :: o in t.objects ==> o in s.objects && t.objects[o] == s.objects[o]
  }

  /** Every name was owned at s, and nothing owned at t is missing from names. */
  ghost predicate Exact(names: seq<Object>, s: State, t: State, kind: Kind, lesson: string) {
    && (forall o :: o in names ==> IsKind(o, kind) && Owned(s, o, lesson))
    && forall o :: IsKind(o, kind) && Owned(t, o, lesson) ==> o in names
  }

  lemma ExactLater(names: seq<Object>, s: State, t: State, s': State, t': State, kind: Kind, lesson: string)
    requires Exact(names, s, t, kind, lesson) && Shrunk(s', s) && Shrunk(t, t')
    ensures Exact(names, s', t', kind, lesson)
  {
  }

  /** One list call and the client-side check of what it returns. */
  method ListKind(e: Docker, kind: Kind, lesson: string) returns (names: seq<Object>, err: bool)
    requires Wf(e.s)
    modifies e`s
    ensures Wf(e.s) && Quiet(old(e.s), e.s) && e.s.ours == old(e.s).ours && (e.alone ==> e.s == old(e.s))
    ensures Cascade(old(e.s), e.s)
    ensures !err ==> Exact(names, old(e.s), e.s, kind, lesson)
    ensures e.reliable ==> !err
  {
    var items;
    items, err := e.List(kind, lesson);
    names := [];
    if err { return; }
    for i := 0 to |items|
      invariant forall o :: o in names ==> IsKind(o, kind) && Owned(e.s, o, lesson)
      invariant forall k :: 0 <= k < i && OwnedBy(items[k].labels, lesson) ==> items[k].thing in names
    {
      if OwnedBy(items[i].labels, lesson) { names := names + [items[i].thing]; }
    }
    forall o | IsKind(o, kind) && Owned(e.s, o, lesson)
      ensures o in names
    {
      assert Item(o, e.s.objects[o].labels) in items;
    }
  }

  ghost predicate ExactLeftovers(left: Leftovers, s: State, t: State, lesson: string) {
    && Exact(left.containers, s, t, Containers, lesson)
    && Exact(left.volumes, s, t, Volumes, lesson)
    && Exact(left.networks, s, t, Networks, lesson)
  }

  lemma NothingCascades(s: State)
    requires Wf(s)
    ensures Cascade(s, s)
  {
  }

  /** ListLesson: everything it names was the lesson's, and nothing that is still
      the lesson's is missing. */
  method ListLesson(e: Docker, lesson: string) returns (left: Leftovers, err: bool)
    requires Wf(e.s)
    modifies e`s
    ensures Wf(e.s) && Shrunk(old(e.s), e.s) && e.s.ours == old(e.s).ours && (e.alone ==> e.s == old(e.s))
    ensures e.s.lost == old(e.s).lost && e.s.next == old(e.s).next && Moved(old(e.s), e.s, {}, {})
    ensures Cascade(old(e.s), e.s)
    ensures !err ==> ExactLeftovers(left, old(e.s), e.s, lesson)
    ensures !Kebab(lesson) ==> err && e.s == old(e.s)
    ensures err ==> left == NOTHING
    ensures e.reliable && Kebab(lesson) ==> !err
  {
    left, err := NOTHING, true;
    NothingCascades(e.s);
    if !Kebab(lesson) { return; }
    ghost var s0 := e.s;
    var cs, cerr := ListKind(e, Containers, lesson);
    if cerr { return; }
    ghost var s1 := e.s;
    var vs, verr := ListKind(e, Volumes, lesson);
    ghost var s2 := e.s;
    MovedTransitive(s0, s1, s2, {}, {}, {}, {});
    CascadeTransitive(s0, s1, s2);
    if verr { return; }
    var ns, nerr := ListKind(e, Networks, lesson);
    MovedTransitive(s0, s2, e.s, {}, {}, {}, {});
    CascadeTransitive(s0, s2, e.s);
    if nerr { return; }
    ExactLater(cs, s0, s1, s0, e.s, Containers, lesson);
    ExactLater(vs, s1, s2, s0, e.s, Volumes, lesson);
    ExactLater(ns, s2, e.s, s0, e.s, Networks, lesson);
    left, err := Leftovers(cs, vs, ns), false;
  }

  function Elements(names: seq<Object>): set<Object> { set o | o in names }

  lemma StillUnused(s: State, t: State, o: Object)
    requires Shrunk(s, t)
    ensures !InUse(s, o) ==> !InUse(t, o)
  {
  }

  /** From s to t only deletions, those by harness calls of these names. */
  ghost predicate Deleting(s: State, t: State, names: set<Object>) {
    && Wf(t) && Shrunk(s, t) && Moved(s, t, {}, names) && Cascade(s, t)
    && t.lost == s.lost && t.next == s.next
  }

  lemma NothingDeleted(s: State)
    requires Wf(s)
    ensures Deleting(s, s, {})
  {
  }

  lemma DeletingMore(s: State, t: State, u: State, names: seq<Object>, i: nat)
    requires Wf(s) && i < |names|
    requires Deleting(s, t, Elements(names[..i])) && Deleting(t, u, {names[i]})
    ensures Deleting(s, u, Elements(names[..i + 1]))
  {
    CascadeTransitive(s, t, u);
    MovedTransitive(s, t, u, {}, Elements(names[..i]), {}, {names[i]});
    assert Elements(names[..i]) + {names[i]} == Elements(names[..i + 1]);
  }

  /** Each name was removed or failed. */
  ghost predicate Tried(names: seq<Object>, removed: seq<Object>, failed: set<Object>, s: State) {
    && (forall o :: o in names ==> o in removed || o in failed)
    && (forall o :: o in removed ==> o in names && o !in s.objects)
    && failed <= Elements(names)
  }

  lemma TriedMore(names: seq<Object>, i: nat, removed: seq<Object>, failed: set<Object>, s: State, t: State, err: bool)
    requires i < |names| && Tried(names[..i], removed, failed, s) && Shrunk(s, t) && (!err ==> names[i] !in t.objects)
    ensures Tried(names[..i + 1], if err then removed else removed + [names[i]], if err then failed + {names[i]} else failed, t)
  {
    assert names[..i + 1] == names[..i] + [names[i]];
  }

  /** The loop over one kind: what was removed and what failed. */
  method RemoveAll(e: Docker, names: seq<Object>) returns (removed: seq<Object>, failed: set<Object>)
    requires Wf(e.s) && forall o :: o in names ==> !o.Anonymous?
    modifies e`s
    ensures Wf(e.s) && Shrunk(old(e.s), e.s) && Moved(old(e.s), e.s, {}, Elements(names))
    ensures e.s.lost == old(e.s).lost && e.s.next == old(e.s).next
    ensures forall o :: o in names ==> o in removed || o in failed
    ensures forall o :: o in removed ==> o in names && o !in e.s.objects
    ensures failed <= Elements(names)
    ensures e.reliable && (forall o :: o in names ==> !InUse(old(e.s), o)) ==> forall o :: o in failed ==> o !in e.s.objects
    ensures e.alone ==> e.s.theirs <= old(e.s).theirs
    ensures Cascade(old(e.s), e.s)
  {
    removed, failed := [], {};
    NothingDeleted(e.s);
    assert Elements(names[..0]) == {};
    for i := 0 to |names|
      invariant Deleting(old(e.s), e.s, Elements(names[..i])) && Tried(names[..i], removed, failed, e.s)
      invariant e.reliable && (forall o :: o in names ==> !InUse(old(e.s), o)) ==> forall o :: o in failed ==> o !in e.s.objects
      invariant e.alone ==> e.s.theirs <= old(e.s).theirs
    {
      ghost var before := e.s;
      var err := e.Remove(names[i]);
      DeletingMore(old(e.s), before, e.s, names, i);
      TriedMore(names, i, removed, failed, before, e.s, err);
      StillUnused(old(e.s), e.s, names[i]);
      if err { failed := failed + {names[i]}; } else { removed := removed + [names[i]]; }
    }
    assert names[..|names|] == names;
  }

  /** Nothing outside the lesson uses what is the lesson's. */
  ghost predicate OnlyLessonUses(s: State, lesson: string) {
    forall c, o :: c in s.objects && o in s.objects[c].uses && Owned(s, o, lesson) ==> Owned(s, c, lesson)
  }

  function AllOf(left: Leftovers): set<Object> {
    Elements(left.containers) + Elements(left.volumes) + Elements(left.networks)
  }

  datatype SweepError = Clean | ListFailed | Remaining(left: seq<Object>)

  /** What every removed thing was: the lesson's, or an anonymous volume of a
      container of the lesson's. */
  ghost predicate TouchedOnly(s: State, t: State, lesson: string) {
    && (forall o :: o in t.ours ==> o in s.ours || Owned(s, Root(o), lesson))
    && forall o :: Known(s, o) ==> Known(t, o)
  }

  lemma MovedTouches(s: State, t: State, left: Leftovers, lesson: string)
    requires Moved(s, t, {}, AllOf(left))
    requires ExactLeftovers(left, s, t, lesson)
    ensures TouchedOnly(s, t, lesson)
  {
  }

  /** Once the lesson's containers are gone, nothing uses its volumes or networks. */
  lemma NothingUsed(s: State, t: State, lesson: string, names: seq<Object>)
    requires OnlyLessonUses(s, lesson) && Shrunk(s, t) && Wf(s)
    requires forall o :: Owned(t, o, lesson) ==> !o.Container?
    requires forall o :: o in names ==> Owned(s, o, lesson)
    ensures forall o :: o in names ==> !InUse(t, o)
  {
    forall o, c | o in names && c in t.objects
      ensures o !in t.objects[c].uses
    {
      assert HoldsRightly(c, s.objects[c]);
    }
  }

  /** Containers are never in use themselves. */
  lemma ContainersUnused(s: State, names: seq<Object>)
    requires Wf(s) && forall o :: o in names ==> o.Container?
    ensures forall o :: o in names ==> !InUse(s, o)
  {
    forall o, c | o in names && c in s.objects
      ensures o !in s.objects[c].uses
    {
      assert HoldsRightly(c, s.objects[c]);
    }
  }

  /** The loop over the containers, which nothing can hold in use. */
  method RemoveContainers(e: Docker, names: seq<Object>) returns (removed: seq<Object>, failed: set<Object>)
    requires Wf(e.s) && forall o :: o in names ==> o.Container?
    modifies e`s
    ensures Wf(e.s) && Shrunk(old(e.s), e.s) && Moved(old(e.s), e.s, {}, Elements(names))
    ensures e.s.lost == old(e.s).lost && e.s.next == old(e.s).next
    ensures forall o :: o in names ==> o in removed || o in failed
    ensures forall o :: o in removed ==> o in names && o !in e.s.objects
    ensures failed <= Elements(names)
    ensures e.reliable ==> forall o :: o in names ==> o !in e.s.objects
    ensures e.alone ==> e.s.theirs <= old(e.s).theirs
    ensures Cascade(old(e.s), e.s)
  {
    ContainersUnused(e.s, names);
    removed, failed := RemoveAll(e, names);
  }

  /** The loops over the volumes and then the networks. */
  method RemoveRest(e: Docker, volumes: seq<Object>, networks: seq<Object>)
    returns (vs: seq<Object>, ns: seq<Object>, failed: set<Object>)
    requires Wf(e.s) && (forall o :: o in volumes ==> o.Volume?) && forall o :: o in networks ==> o.Network?
    modifies e`s
    ensures Wf(e.s) && Shrunk(old(e.s), e.s) && Moved(old(e.s), e.s, {}, Elements(volumes) + Elements(networks))
    ensures e.s.lost == old(e.s).lost && e.s.next == old(e.s).next
    ensures forall o :: o in volumes ==> o in vs || o in failed
    ensures forall o :: o in networks ==> o in ns || o in failed
    ensures forall o :: o in vs ==> o in volumes && o !in e.s.objects
    ensures forall o :: o in ns ==> o in networks && o !in e.s.objects
    ensures failed <= Elements(volumes) + Elements(networks)
    ensures e.reliable && (forall o :: o in volumes ==> !InUse(old(e.s), o)) && (forall o :: o in networks ==> !InUse(old(e.s), o)) ==>
              forall o :: o in failed ==> o !in e.s.objects
    ensures e.alone ==> e.s.theirs <= old(e.s).theirs
    ensures Cascade(old(e.s), e.s)
  {
    ghost var s0 := e.s;
    var vfailed;
    vs, vfailed := RemoveAll(e, volumes);
    ghost var s1 := e.s;
    forall o | o in networks ensures !InUse(s0, o) ==> !InUse(s1, o) { StillUnused(s0, s1, o); }
    var nfailed;
    ns, nfailed := RemoveAll(e, networks);
    MovedTransitive(s0, s1, e.s, {}, Elements(volumes), {}, Elements(networks));
    CascadeTransitive(s0, s1, e.s);
    failed := vfailed + nfailed;
  }

  lemma RestUnused(s: State, s0: State, s1: State, lesson: string, left: Leftovers)
    requires Wf(s) && OnlyLessonUses(s, lesson) && Shrunk(s, s0) && Shrunk(s0, s1) && ExactLeftovers(left, s, s0, lesson)
    requires forall o :: o in left.containers ==> o !in s1.objects
    ensures forall o :: o in left.volumes || o in left.networks ==> !InUse(s1, o)
  {
    NothingUsed(s, s1, lesson, left.volumes);
    NothingUsed(s, s1, lesson, left.networks);
  }

  lemma LoopsTogether(s0: State, s1: State, s2: State, left: Leftovers)
    requires Wf(s0) && Wf(s1) && Wf(s2) && Cascade(s0, s1) && Cascade(s1, s2)
    requires Moved(s0, s1, {}, Elements(left.containers))
    requires Moved(s1, s2, {}, Elements(left.volumes) + Elements(left.networks))
    ensures Moved(s0, s2, {}, AllOf(left)) && Cascade(s0, s2)
  {
    MovedTransitive(s0, s1, s2, {}, Elements(left.containers), {}, Elements(left.volumes) + Elements(left.networks));
    CascadeTransitive(s0, s1, s2);
    assert Elements(left.containers) + (Elements(left.volumes) + Elements(left.networks)) == AllOf(left);
  }

  /** The three loops, containers first. */
  method RemoveListed(e: Docker, left: Leftovers, lesson: string, ghost s: State)
    returns (removed: Leftovers, failed: set<Object>)
    requires Wf(s) && Wf(e.s) && Shrunk(s, e.s) && ExactLeftovers(left, s, e.s, lesson)
    modifies e`s
    ensures Wf(e.s) && Shrunk(old(e.s), e.s) && Moved(old(e.s), e.s, {}, AllOf(left))
    ensures e.s.lost == old(e.s).lost && e.s.next == old(e.s).next
    ensures forall o :: Listed(left, o) ==> Listed(removed, o) || o in failed
    ensures forall o :: Listed(removed, o) ==> Listed(left, o) && o !in e.s.objects
    ensures e.reliable && OnlyLessonUses(s, lesson) ==> forall o :: o in failed ==> o !in e.s.objects
    ensures e.reliable ==> forall o :: o in left.containers ==> o !in e.s.objects
    ensures e.alone ==> e.s.theirs <= old(e.s).theirs
    ensures Cascade(old(e.s), e.s)
  {
    ghost var s0 := e.s;
    var cs, cfailed := RemoveContainers(e, left.containers);
    ghost var s1 := e.s;
    if e.reliable && OnlyLessonUses(s, lesson) { RestUnused(s, s0, s1, lesson, left); }
    var vs, ns, failures := RemoveRest(e, left.volumes, left.networks);
    LoopsTogether(s0, s1, e.s, left);
    removed, failed := Leftovers(cs, vs, ns), cfailed + failures;
  }

  /** The failed removals that are still listed. */
  method StillThere(still: seq<Object>, failed: set<Object>) returns (left: seq<Object>)
    ensures forall o :: o in left <==> o in still && o in failed
  {
    left := [];
    for i := 0 to |still|
      invariant forall o :: o in left <==> o in still[..i] && o in failed
    {
      if still[i] in failed { left := left + [still[i]]; }
      assert still[..i + 1] == still[..i] + [still[i]];
    }
    assert still[..|still|] == still;
  }

  /** The second listing: which failures count. */
  method Report(e: Docker, lesson: string, failed: set<Object>) returns (error: SweepError, ghost still: Leftovers)
    requires Wf(e.s)
    modifies e`s
    ensures Wf(e.s) && Shrunk(old(e.s), e.s) && e.s.ours == old(e.s).ours && (e.alone ==> e.s == old(e.s))
    ensures e.s.lost == old(e.s).lost && e.s.next == old(e.s).next && Moved(old(e.s), e.s, {}, {})
    ensures Cascade(old(e.s), e.s)
    ensures error != ListFailed ==> ExactLeftovers(still, old(e.s), e.s, lesson)
    ensures error.Remaining? ==> error.left != [] && forall o :: o in error.left <==> Listed(still, o) && o in failed
    ensures error == Clean ==> forall o :: Listed(still, o) ==> o !in failed
    ensures e.reliable && Kebab(lesson) ==> error != ListFailed
  {
    var listing, err := ListLesson(e, lesson);
    still := listing;
    if err { return ListFailed, still; }
    var left := StillThere(listing.containers + listing.volumes + listing.networks, failed);
    error := if left == [] then Clean else Remaining(left);
    assert forall o :: Listed(still, o) && o in failed ==> o in left;
  }

  lemma LeftoversLater(left: Leftovers, s: State, t: State, s': State, t': State, lesson: string)
    requires ExactLeftovers(left, s, t, lesson) && Shrunk(s', s) && Shrunk(t, t')
    ensures ExactLeftovers(left, s', t', lesson)
  {
  }

  lemma AfterRemovals(s0: State, s1: State, s2: State, left: Leftovers, lesson: string)
    requires Wf(s0) && Wf(s1) && Wf(s2)
    requires Moved(s0, s1, {}, {}) && Moved(s1, s2, {}, AllOf(left)) && Shrunk(s0, s1) && Shrunk(s1, s2)
    requires ExactLeftovers(left, s0, s1, lesson)
    ensures ExactLeftovers(left, s0, s2, lesson) && TouchedOnly(s0, s2, lesson)
  {
    MovedTransitive(s0, s1, s2, {}, {}, {}, AllOf(left));
    assert {} + AllOf(left) == AllOf(left);
    LeftoversLater(left, s0, s1, s0, s2, lesson);
    MovedTouches(s0, s2, left, lesson);
  }

  /** What the second listing settles. */
  lemma FinalListing(s0: State, s2: State, t: State, left: Leftovers, removed: Leftovers, failed: set<Object>,
                     still: Leftovers, lesson: string)
    requires ExactLeftovers(left, s0, s2, lesson) && Shrunk(s0, s2) && Shrunk(s2, t)
    requires ExactLeftovers(still, s2, t, lesson)
    requires forall o :: Listed(left, o) ==> Listed(removed, o) || o in failed
    requires forall o :: Listed(removed, o) ==> o !in s2.objects
    ensures forall o :: Owned(t, o, lesson) ==> o.Anonymous? || (Listed(still, o) && o in failed)
    ensures forall o :: Listed(still, o) ==> Owned(s2, o, lesson)
    ensures (forall o :: o in failed ==> o !in s2.objects) ==> forall o :: Listed(still, o) ==> o !in failed
    ensures (forall o :: o in left.containers ==> o !in s2.objects) ==> forall o :: Listed(still, o) ==> !o.Container?
  {
    forall o | Owned(t, o, lesson) && !o.Anonymous?
      ensures Listed(still, o) && o in failed
    {
      assert Owned(s2, o, lesson);
      assert Listed(left, o);
    }
  }

  /** What is reported once something could not be removed. */
  method Reported(e: Docker, lesson: string, failed: set<Object>, ghost s0: State, ghost left: Leftovers, ghost removed: Leftovers)
    returns (error: SweepError, ghost still: Leftovers)
    requires Wf(e.s) && ExactLeftovers(left, s0, e.s, lesson) && Shrunk(s0, e.s)
    requires forall o :: Listed(left, o) ==> Listed(removed, o) || o in failed
    requires forall o :: Listed(removed, o) ==> o !in e.s.objects
    modifies e`s
    ensures Wf(e.s) && Shrunk(old(e.s), e.s) && e.s.ours == old(e.s).ours && (e.alone ==> e.s == old(e.s))
    ensures e.s.lost == old(e.s).lost && e.s.next == old(e.s).next && Moved(old(e.s), e.s, {}, {})
    ensures Cascade(old(e.s), e.s)
    ensures error == Clean ==> forall o :: Owned(e.s, o, lesson) ==> o.Anonymous?
    ensures error.Remaining? ==> error.left != [] && forall o :: o in error.left <==> Listed(still, o) && o in failed
    ensures error.Remaining? ==> forall o :: Owned(e.s, o, lesson) ==> o.Anonymous? || o in error.left
    ensures error.Remaining? ==> forall o :: o in error.left ==> Owned(old(e.s), o, lesson)
    ensures (forall o :: o in left.containers ==> o !in old(e.s).objects) && error.Remaining? ==>
              forall o :: o in error.left ==> !o.Container?
    ensures e.reliable && Kebab(lesson) ==> error != ListFailed
    ensures (forall o :: o in failed ==> o !in old(e.s).objects) ==> !error.Remaining?
  {
    error, still := Report(e, lesson, failed);
    if error != ListFailed { FinalListing(s0, old(e.s), e.s, left, removed, failed, still, lesson); }
    assert error.Remaining? ==> Listed(still, error.left[0]) && error.left[0] in failed;
  }

  lemma Addressed(s0: State, left: Leftovers, removed: Leftovers, failed: set<Object>, lesson: string)
    requires ExactLeftovers(left, s0, s0, lesson)
    requires forall o :: Listed(left, o) ==> Listed(removed, o) || o in failed
    ensures forall o :: Owned(s0, o, lesson) ==> o.Anonymous? || Listed(removed, o) || o in failed
  {
  }

  lemma CleanOnceRemoved(s0: State, s2: State, left: Leftovers, removed: Leftovers, lesson: string)
    requires ExactLeftovers(left, s0, s2, lesson)
    requires forall o :: Listed(left, o) ==> Listed(removed, o)
    requires forall o :: Listed(removed, o) ==> o !in s2.objects
    ensures forall o :: Owned(s2, o, lesson) ==> o.Anonymous?
  {
  }

  lemma StillTouchedOnly(s: State, t: State, u: State, lesson: string)
    requires TouchedOnly(s, t, lesson) && u.ours == t.ours && Moved(t, u, {}, {})
    ensures TouchedOnly(s, u, lesson)
  {
  }

  /** Sweep. It deletes only what carries both exact labels (and anonymous
      volumes of such containers); it reports no error only if nothing of the
      lesson's is left; otherwise it names exactly the failed removals that are
      still listed; and when nobody but the lesson uses its objects and removals
      fail only for use, one pass leaves nothing. */
  method Sweep(e: Docker, lesson: string)
    returns (removed: Leftovers, error: SweepError, ghost failed: set<Object>, ghost still: Leftovers)
    requires Wf(e.s)
    modifies e`s
    ensures Wf(e.s) && Shrunk(old(e.s), e.s) && TouchedOnly(old(e.s), e.s, lesson)
    ensures e.s.lost == old(e.s).lost && e.s.next == old(e.s).next
    ensures forall o :: Listed(removed, o) ==> Owned(old(e.s), o, lesson) && o !in e.s.objects
    ensures error != ListFailed && e.alone ==>
              forall o :: Owned(old(e.s), o, lesson) ==> o.Anonymous? || Listed(removed, o) || o in failed
    ensures error == Clean ==> forall o :: Owned(e.s, o, lesson) ==> o.Anonymous?
    ensures error.Remaining? ==> error.left != [] && forall o :: o in error.left <==> Listed(still, o) && o in failed
    ensures error.Remaining? ==> forall o :: Owned(e.s, o, lesson) ==> o.Anonymous? || o in error.left
    ensures error.Remaining? && e.alone ==> forall o :: o in error.left ==> Owned(e.s, o, lesson)
    ensures e.reliable && error.Remaining? ==> forall o :: o in error.left ==> !o.Container?
    ensures !Kebab(lesson) ==> error == ListFailed && e.s == old(e.s)
    ensures e.reliable && Kebab(lesson) ==> error != ListFailed
    ensures e.reliable && Kebab(lesson) && OnlyLessonUses(old(e.s), lesson) ==> error == Clean
    ensures e.alone ==> e.s.theirs <= old(e.s).theirs
    ensures Cascade(old(e.s), e.s)
  {
    removed, error, failed, still := NOTHING, ListFailed, {}, NOTHING;
    ghost var s0 := e.s;
    var left, lerr := ListLesson(e, lesson);
    if lerr { return; }
    ghost var s1 := e.s;
    var failures;
    removed, failures := RemoveListed(e, left, lesson, s0);
    failed := failures;
    ghost var s2 := e.s;
    AfterRemovals(s0, s1, s2, left, lesson);
    CascadeTransitive(s0, s1, s2);
    if e.alone { Addressed(s0, left, removed, failures, lesson); }
    if failures == {} {
      CleanOnceRemoved(s0, s2, left, removed, lesson);
      error := Clean;
      return;
    }
    error, still := Reported(e, lesson, failures, s0, left, removed);
    StillTouchedOnly(s0, s2, e.s, lesson);
    CascadeTransitive(s0, s2, e.s);
  }

  /** What a sweep deletes without both labels: exactly the anonymous volumes of
      the lesson's containers it deleted, but for those others deleted first. */
  lemma UnlabelledDeletedExactlyWhen(s: State, t: State, lesson: string, o: Object)
    requires Wf(s) && TouchedOnly(s, t, lesson) && Cascade(s, t)
    requires o in s.objects && !Owned(s, o, lesson)
    ensures o in t.ours <==> o.Anonymous? && Owned(s, Root(o), lesson) && Root(o) in t.ours && o !in t.theirs
  {
    assert Root(o) in s.objects ==> Root(o) !in s.ours;
  }

  function OneContainer(lesson: string): State {
    State(map[Container(0) := Info(EngineConfig.Labels(lesson), {}, None), Anonymous(0, 0) := Info(map[], {}, None)],
          1, [], {}, {}, {})
  }

  lemma OneContainerWf(lesson: string)
    ensures var s := OneContainer(lesson);
            && Wf(s) && OnlyLessonUses(s, lesson) && Owned(s, Container(0), lesson) && !Owned(s, Anonymous(0, 0), lesson)
  {
  }

  /** One such state: the lesson's container and its unlabelled volume both go. */
  method AnonymousVolumeGoes(lesson: string) returns (e: Docker)
    requires Kebab(lesson)
    ensures fresh(e) && Anonymous(0, 0) in e.s.ours && OneContainer(lesson).objects[Anonymous(0, 0)].labels == map[]
  {
    OneContainerWf(lesson);
    e := new Docker(OneContainer(lesson), true, true);
    var removed, error, failed, still := Sweep(e, lesson);
    assert error == Clean && !Owned(e.s, Container(0), lesson);
    assert Known(e.s, Container(0)) && e.s.theirs == {};
    UnlabelledDeletedExactlyWhen(OneContainer(lesson), e.s, lesson, Anonymous(0, 0));
  }
}
