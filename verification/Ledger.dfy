/** No leak, over whole runs: the lesson's containers are accounted for after
    every sequence of harness calls, whatever fails. */
module Ledger {
  import opened Names
  import opened Engine
  import opened Lifecycle
  import opened Sweep
  import opened Specs
  import EngineConfig
  import Invariants
  import Observation

  datatype Op =
    | DoCreate(spec: Spec, suffix: string)
    | DoStart(spec: Spec, suffix: string)
    | DoRun(spec: Spec, suffix: string)
    | DoRemove(handle: Object)
    | DoSweep

  /** handles: returned and not yet removed, with the lesson each belongs to.
      reported: named by a removal error. unknown: the lesson's handles at a
      sweep that failed to list, which may or may not have removed them. */
  datatype Book = Book(handles: map<Object, string>, reported: set<Object>, unknown: set<Object>)

  const EMPTY := Book(map[], {}, {})

  predicate Noted(b: Book, o: Object) { o in b.handles || o in b.reported || o in b.unknown }

  /** The lesson a container carries in its labels. */
  function LessonOf(labels: map<string, string>): string { EngineConfig.Label(labels, EngineConfig.LABEL_LESSON) }

  /** Each container of the lesson is a handle somebody holds, one whose failed
      removal was reported, one a failed sweep left unknown, or one whose create
      reply never arrived. */
  ghost predicate NoLeak(s: State, b: Book, lesson: string) {
    forall o: Object :: o.Container? && Owned(s, o, lesson) ==> Noted(b, o) || o in s.lost
  }

  /** Every handle stands for a container that is there. */
  ghost predicate HandlesLive(s: State, b: Book) { forall o :: o in b.handles ==> o in s.objects }

  ghost predicate OnlyContainers(b: Book) { forall o :: Noted(b, o) ==> o.Container? }

  /** The configuration the engine recorded passes every check. */
  ghost predicate RecordSafe(setup: Setup, info: Info) {
    && info.record.Some? && info.record.value.config.Some? && info.record.value.hostConfig.Some?
    && Invariants.CheckConfig(setup.json, Observation.Recorded(info.record.value), setup.socket) == []
  }

  /** While a handle's container is there, it carries the lesson noted and its
      recorded configuration is safe. */
  ghost predicate HandlesSafe(s: State, b: Book, setup: Setup) {
    forall o :: o in b.handles ==>
      !Fresh(s, o)
      && (o in s.objects ==> RecordSafe(setup, s.objects[o]) && LessonOf(s.objects[o].labels) == b.handles[o])
  }

  lemma HandleIsSafe(setup: Setup, info: Info, req: EngineConfig.Request)
    requires RecordMatches(info, req) && Vetted(setup, req)
    ensures RecordSafe(setup, info)
  {
    VettedMeans(setup, req);
    Observation.MatchingIsSafe(setup.json, info.record.value, req, setup.socket);
  }

  lemma StepKeepsNoLeak(s: State, t: State, kept: set<Object>, held: set<Object>, id: Object, b: Book, c: Book, lesson: string)
    requires Accounted(s, t, kept, held, id) && NoLeak(s, b, lesson)
    requires forall o :: o in held ==> !o.Container?
    requires forall o :: Noted(b, o) || o in kept ==> Noted(c, o)
    ensures NoLeak(t, c, lesson)
  {
    forall o: Object | o.Container? && Owned(t, o, lesson)
      ensures Noted(c, o) || o in t.lost
    {
      assert Root(o) == o && o !in t.theirs;
      if o in s.objects { assert Owned(s, o, lesson); }
    }
  }

  /** Without other actors a handle's container is not touched by the calls made
      for another. */
  lemma StepKeepsHandles(s: State, t: State, kept: set<Object>, held: set<Object>, id: Object, b: Book)
    requires Accounted(s, t, kept, held, id) && OnlyContainers(b) && HandlesLive(s, b) && t.theirs <= s.theirs
    ensures HandlesLive(t, b)
  {
    forall o | o in b.handles
      ensures o in t.objects
    {
      assert Noted(b, o);
      assert Known(s, o) && Root(o) == o && o != id;
    }
  }

  /** Later calls never change what a handle stands for. */
  lemma StepKeepsSafe(s: State, t: State, kept: set<Object>, held: set<Object>, id: Object, b: Book, setup: Setup)
    requires Accounted(s, t, kept, held, id) && OnlyContainers(b) && HandlesSafe(s, b, setup)
    ensures HandlesSafe(t, b, setup)
  {
    forall o | o in b.handles
      ensures !Fresh(t, o)
      ensures o in t.objects ==> RecordSafe(setup, t.objects[o]) && LessonOf(t.objects[o].labels) == b.handles[o]
    {
      assert Noted(b, o);
    }
  }

  lemma HeldAreNot(setup: Setup, spec: Spec, suffix: string)
    ensures forall o :: o in HeldBy(setup, spec, suffix) ==> !o.Container?
  {
  }

  /** A removed handle. */
  lemma RemoveKeeps(s: State, t: State, id: Object, b: Book, c: Book, lesson: string)
    requires Wf(s) && Wf(t) && Moved(s, t, {}, {id}) && t.lost == s.lost && id.Container?
    requires forall x :: x in t.objects ==> x in s.objects && t.objects[x] == s.objects[x]
    requires OnlyContainers(b) && NoLeak(s, b, lesson) && c.handles == b.handles - {id}
    requires forall o :: Noted(b, o) && (o != id || id in t.objects) ==> Noted(c, o)
    ensures NoLeak(t, c, lesson)
    ensures HandlesLive(s, b) && t.theirs <= s.theirs ==> HandlesLive(t, c)
  {
    forall o: Object | o.Container? && Owned(t, o, lesson)
      ensures Noted(c, o) || o in t.lost
    {
      assert Owned(s, o, lesson);
    }
    if HandlesLive(s, b) && t.theirs <= s.theirs {
      forall o | o in c.handles ensures o in t.objects {
        assert Noted(b, o);
        assert Known(s, o) && Root(o) == o;
      }
    }
  }

  /** The handles of other lessons. */
  function Others(b: Book, lesson: string): map<Object, string> {
    map o | o in b.handles && b.handles[o] != lesson :: b.handles[o]
  }

  function Own(b: Book, lesson: string): set<Object> { set o | o in b.handles && b.handles[o] == lesson }

  /** A sweep leaves the handles of other lessons alone. */
  lemma SweepKeepsOthers(s: State, t: State, b: Book, c: Book, lesson: string, setup: Setup)
    requires Wf(s) && Wf(t) && Shrunk(s, t) && TouchedOnly(s, t, lesson) && t.next == s.next
    requires OnlyContainers(b) && HandlesSafe(s, b, setup) && c.handles == Others(b, lesson)
    ensures HandlesSafe(t, c, setup)
    ensures HandlesLive(s, b) && t.theirs <= s.theirs ==> HandlesLive(t, c)
  {
    if HandlesLive(s, b) && t.theirs <= s.theirs {
      forall o | o in c.handles
        ensures o in t.objects
      {
        assert o in b.handles && Noted(b, o) && Known(s, o) && Root(o) == o;
        assert !Owned(s, o, lesson);
      }
    }
  }

  /** What a sweep leaves of the lesson is in left, or, when it could not list,
      was there before. */
  lemma SweepKeepsNoLeak(s: State, t: State, b: Book, c: Book, lesson: string, setup: Setup, left: seq<Object>, listed: bool)
    requires Shrunk(s, t) && s.lost <= t.lost && NoLeak(s, b, lesson) && HandlesSafe(s, b, setup)
    requires listed ==> forall o :: Owned(t, o, lesson) ==> o.Anonymous? || o in left
    requires forall o :: o in b.reported || (listed && o in left && o.Container?) ==> o in c.reported
    requires !listed ==> c.unknown == b.unknown + Own(b, lesson)
    ensures NoLeak(t, c, lesson)
  {
    forall o: Object | o.Container? && Owned(t, o, lesson)
      ensures Noted(c, o) || o in t.lost
    {
      assert Owned(s, o, lesson);
      if o in b.handles { assert b.handles[o] == LessonOf(s.objects[o].labels) == lesson; }
    }
  }

  /** When no reply was lost, no removal failed and no sweep failed to list, the
      lesson's containers are exactly the handles with its label. */
  lemma HandlesAreExact(s: State, b: Book, lesson: string, o: Object)
    requires NoLeak(s, b, lesson) && HandlesLive(s, b) && b.reported == {} && b.unknown == {} && s.lost == {}
    requires o.Container?
    ensures Owned(s, o, lesson) <==> o in b.handles && OwnedBy(s.objects[o].labels, lesson)
  {
  }

  /** The one leak: the engine made the container, its reply was lost, and so no
      handle and no error names it. */
  lemma LostReplyLeaks(s: State, req: EngineConfig.Request, anonymous: nat, record: EngineConfig.Inspect,
                       b: Book, lesson: string)
    requires Wf(s) && (forall o :: Noted(b, o) ==> !Fresh(s, o))
    requires req.config.labels == EngineConfig.Labels(lesson)
    ensures var id := Container(s.next); var made := Created(s, req, anonymous, record);
            var t := made.(lost := made.lost + {id});
            Wf(t) && Owned(t, id, lesson) && !Noted(b, id) && id !in s.lost
  {
    CreatedMoves(s, req, anonymous, record);
    EngineConfig.LabelsHold(lesson);
  }

  class Lesson {
    const e: Docker
    const setup: Setup
    const lesson: string
    var book: Book

    ghost predicate Valid()
      reads this, e
    {
      && Wf(e.s) && OnlyContainers(book) && NoLeak(e.s, book, lesson)
      && HandlesSafe(e.s, book, setup)
      && (e.alone ==> HandlesLive(e.s, book))
    }

    constructor (e: Docker, setup: Setup, lesson: string)
      requires Wf(e.s) && forall o: Object :: o.Container? ==> !Owned(e.s, o, lesson)
      ensures Valid() && this.e == e && this.setup == setup && this.lesson == lesson
      ensures book == EMPTY
    {
      this.e, this.setup, this.lesson, book := e, setup, lesson, EMPTY;
    }

    /** On a reliable engine nothing is ever lost, reported or unknown. */
    twostate predicate Clear()
      reads this, e
    {
      e.reliable ==>
        && e.s.lost == old(e.s.lost)
        && (old(book.reported) == {} ==> book.reported == {}) && (old(book.unknown) == {} ==> book.unknown == {})
    }

    /** Writes down a handle, or what an error names. */
    method Note(ghost s: State, r: Outcome, ghost held: set<Object>, ghost id: Object)
      requires Accounted(s, e.s, Kept(r), held, id) && (forall o :: o in held ==> !o.Container?)
      requires OnlyContainers(book) && NoLeak(s, book, lesson) && HandlesSafe(s, book, setup)
      requires r.Handle? ==> r.id == id && !Fresh(e.s, id)
      requires r.Handle? && id in e.s.objects ==>
                 RecordSafe(setup, e.s.objects[id]) && RecordMatches(e.s.objects[id], r.req)
      requires r.Error? ==> r.left <= {id}
      requires e.alone ==> HandlesLive(s, book) && e.s.theirs <= s.theirs && (r.Handle? ==> id in e.s.objects)
      modifies this`book
      ensures Valid()
      ensures book == if r.Handle? then old(book).(handles := old(book).handles[id := LessonOf(r.req.config.labels)])
                      else old(book).(reported := old(book).reported + r.left)
    {
      ghost var before := book;
      if e.alone { StepKeepsHandles(s, e.s, Kept(r), held, id, before); }
      StepKeepsSafe(s, e.s, Kept(r), held, id, before, setup);
      book := if r.Handle? then book.(handles := book.handles[r.id := LessonOf(r.req.config.labels)])
              else book.(reported := book.reported + r.left);
      StepKeepsNoLeak(s, e.s, Kept(r), held, id, before, book, lesson);
    }

    method CreateOne(spec: Spec, suffix: string)
      requires Valid()
      modifies this`book, e`s
      ensures Valid() && Clear()
    {
      HeldAreNot(setup, spec, suffix);
      var r, id := Create(e, setup, spec, suffix);
      if r.Handle? { HandleIsSafe(setup, e.s.objects[id], r.req); }
      Note(old(e.s), r, HeldBy(setup, spec, suffix), id);
    }

    method StartOne(spec: Spec, suffix: string)
      requires Valid()
      modifies this`book, e`s
      ensures Valid() && Clear()
    {
      HeldAreNot(setup, spec, suffix);
      var r, id := Start(e, setup, spec, suffix);
      if r.Handle? && id in e.s.objects { HandleIsSafe(setup, e.s.objects[id], r.req); }
      Note(old(e.s), r, HeldBy(setup, spec, suffix), id);
    }

    method RunOne(spec: Spec, suffix: string)
      requires Valid()
      modifies this`book, e`s
      ensures Valid() && Clear()
    {
      HeldAreNot(setup, spec, suffix);
      var r, id := Run(e, setup, spec, suffix);
      Note(old(e.s), Error(RunFailed, r.left), HeldBy(setup, spec, suffix), id);
    }

    method RemoveHandle(handle: Object)
      requires Valid() && handle.Container?
      modifies this`book, e`s
      ensures Valid() && Clear()
    {
      ghost var s, b := e.s, book;
      var err := Lifecycle.Remove(e, handle);
      book := Book(book.handles - {handle},
                   if err then book.reported + {handle} else book.reported - {handle}, book.unknown - {handle});
      RemoveKeeps(s, e.s, handle, b, book, lesson);
    }

    /** Sweep settles every handle of its lesson, or leaves them unknown when a
        listing fails; handles of other lessons stay. */
    method SweepAll()
      requires Valid()
      modifies this`book, e`s
      ensures Valid() && Clear()
      ensures Kebab(lesson) ==> book.handles == Others(old(book), lesson)
    {
      ghost var s, b := e.s, book;
      var removed, error, failed, still := Sweep.Sweep(e, lesson);
      if error == ListFailed && !Kebab(lesson) { return; }
      var others := Others(book, lesson);
      match error {
        case Clean => book := Book(others, book.reported, {});
        case Remaining(left) => book := Book(others, book.reported + set o | o in left && o.Container?, {});
        case ListFailed => book := Book(others, book.reported, book.unknown + Own(book, lesson));
      }
      SweepKeepsOthers(s, e.s, b, book, lesson, setup);
      SweepKeepsNoLeak(s, e.s, b, book, lesson, setup, if error.Remaining? then error.left else [], error != ListFailed);
    }

    /** One harness call and what its caller writes down. */
    method Do(op: Op)
      requires Valid()
      modifies this`book, e`s
      ensures Valid() && Clear()
    {
      match op {
        case DoCreate(spec, suffix) => CreateOne(spec, suffix);
        case DoStart(spec, suffix) => StartOne(spec, suffix);
        case DoRun(spec, suffix) => RunOne(spec, suffix);
        case DoRemove(handle) => if Noted(book, handle) { RemoveHandle(handle); }
        case DoSweep => SweepAll();
      }
    }

    /** Any sequence of calls. */
    method Session(ops: seq<Op>)
      requires Valid()
      modifies this`book, e`s
      ensures Valid() && Clear()
    {
      for i := 0 to |ops|
        invariant Valid() && Clear()
      {
        Do(ops[i]);
      }
    }
  }
}
