/** The tallies the HTTP adapter of the job-queue lesson keeps beside a
    variant's own jobs table. Requests and the database interleave freely; a
    reply can be lost after its effect. */
module QueueAdapter {
  import opened JobQueue
  import opened Sets

  lemma RowsStay(s: State, step: Step)
    ensures s.rows.Keys <= Apply(s, step).rows.Keys
    ensures |s.rows| <= |Apply(s, step).rows|
  {
    SubsetSize(s.rows.Keys, Apply(s, step).rows.Keys);
  }

  lemma CommittedCallStays(s: State, step: Step, t: nat)
    requires t in s.txs && s.txs[t].Committed?
    ensures t in Apply(s, step).txs && Apply(s, step).txs[t] == s.txs[t]
  {
  }

  /** The committed calls whose outcome has not reached the handler. */
  function Unreported(db: State, confirmed: set<nat>): set<nat> {
    set t | t in db.txs && db.txs[t].Committed? && t !in confirmed
  }

  lemma NoneUnreported(db: State, confirmed: set<nat>)
    ensures |Unreported(db, confirmed)| == 0 <==> forall t :: t in db.txs && db.txs[t].Committed? ==> t in confirmed
  {
    var none := Unreported(db, confirmed);
    if t :| t in db.txs && db.txs[t].Committed? && t !in confirmed { assert t in none; }
    if none != {} { var t := AnyMember(none); }
  }

  function Winners(log: seq<Claim>): set<nat> { set i | 0 <= i < |log| :: log[i].worker }

  lemma {:induction false} DistinctWinners(log: seq<Claim>)
    requires forall i, j :: 0 <= i < j < |log| ==> log[i].worker != log[j].worker
    ensures |Winners(log)| == |log|
  {
    if log != [] {
      var n := |log| - 1;
      DistinctWinners(log[..n]);
      assert Winners(log) == Winners(log[..n]) + {log[n].worker};
      assert log[n].worker !in Winners(log[..n]);
    }
  }

  /** One committed call per done row. */
  lemma CommittedCalls(db: State)
    requires Safe(db)
    ensures |Unreported(db, {})| == |db.log|
  {
    forall i, j | 0 <= i < j < |db.log|
      ensures db.log[i].worker != db.log[j].worker
    {
      assert db.txs[db.log[i].worker] == Committed(db.log[i].job);
    }
    DistinctWinners(db.log);
    forall t
      ensures t in Unreported(db, {}) <==> t in Winners(db.log)
    {
      if t in db.txs && db.txs[t].Committed? {
        var r := db.txs[t].row;
        assert TxFits(db, db.txs[t]) && IsDone(db, r);
        var i :| 0 <= i < |db.log| && db.log[i].job == r;
        assert Owns(db.txs[db.log[i].worker], r) && Owns(db.txs[t], r);
      }
    }
    assert Unreported(db, {}) == Winners(db.log);
  }

  lemma UnreportedSize(db: State, confirmed: set<nat>)
    requires Safe(db) && forall t :: t in confirmed ==> t in db.txs && db.txs[t].Committed?
    ensures |Unreported(db, confirmed)| == |DoneRows(db)| - |confirmed|
  {
    CommittedCalls(db);
    DoneMatchesLog(db);
    assert Unreported(db, {}) == Unreported(db, confirmed) + confirmed;
    assert Unreported(db, confirmed) !! confirmed;
  }

  function CommittedOnes(db: State): set<nat> { set t | t in db.txs && db.txs[t].Committed? }

  function JobsOf(db: State, confirmed: set<nat>): set<int> {
    set t | t in confirmed && t in db.txs && db.txs[t].Committed? :: db.txs[t].row
  }

  /** The claims tallied are those of the calls in confirmed, each for a job of
      its own. */
  ghost predicate Tallied(db: State, claims: nat, jobs: set<int>, confirmed: set<nat>) {
    claims == |jobs| == |confirmed| && confirmed <= CommittedOnes(db) && jobs == JobsOf(db, confirmed)
  }

  lemma TalliedStays(db: State, claims: nat, jobs: set<int>, confirmed: set<nat>, step: Step)
    requires Tallied(db, claims, jobs, confirmed)
    ensures Tallied(Apply(db, step), claims, jobs, confirmed)
  {
    var after := Apply(db, step);
    forall t | t in confirmed
      ensures t in CommittedOnes(after) && after.txs[t] == db.txs[t]
    {
      assert t in CommittedOnes(db);
      CommittedCallStays(db, step, t);
    }
    assert JobsOf(after, confirmed) == JobsOf(db, confirmed);
  }

  lemma JobsAreDone(db: State, claims: nat, jobs: set<int>, confirmed: set<nat>)
    requires Safe(db) && Tallied(db, claims, jobs, confirmed)
    ensures jobs <= DoneRows(db)
  {
    forall r | r in jobs
      ensures r in DoneRows(db)
    {
      var t :| t in confirmed && t in db.txs && db.txs[t].Committed? && db.txs[t].row == r;
      assert TxFits(db, db.txs[t]);
    }
  }

  /** One more call, whose job was not returned before. */
  lemma TalliedMore(db: State, history: seq<Step>, claims: nat, jobs: set<int>, confirmed: set<nat>, t: nat)
    requires db == Run(Empty(db.mode), history) && Tallied(db, claims, jobs, confirmed)
    requires t in db.txs && db.txs[t].Committed? && t !in confirmed
    ensures Tallied(db, claims + 1, jobs + {db.txs[t].row}, confirmed + {t})
  {
    RunIsSafe(Empty(db.mode), history);
    var r := db.txs[t].row;
    if r in jobs {
      var u :| u in confirmed && u in db.txs && db.txs[u].Committed? && db.txs[u].row == r;
      assert Owns(db.txs[u], r) && Owns(db.txs[t], r);
    }
    assert JobsOf(db, confirmed + {t}) == JobsOf(db, confirmed) + {r};
  }

  /** What other requests do: a step of the database, an insert's reply, a
      returned claim, an empty claim, an error. */
  datatype Event =
    | Stepped(step: Step)
    | Replied(id: int)
    | Returned(t: nat)
    | CameUpEmpty(t: nat)
    | Errored

  /** The table, the tallies and what has been reported. */
  datatype Tally = Tally(db: State, enqueued: nat, empty: nat, failed: nat, claims: nat, jobs: set<int>,
                         confirmed: set<nat>, answered: set<int>)

  /** What an event changes; one that cannot happen changes nothing. */
  function Handled(v: Tally, ev: Event): Tally {
    match ev
    case Stepped(step) => v.(db := Apply(v.db, step))
    case Replied(id) =>
      if id in v.db.rows && id !in v.answered then v.(enqueued := v.enqueued + 1, answered := v.answered + {id}) else v
    case Returned(t) =>
      if t in v.db.txs && v.db.txs[t].Committed? && t !in v.confirmed
      then v.(claims := v.claims + 1, jobs := v.jobs + {v.db.txs[t].row}, confirmed := v.confirmed + {t}) else v
    case CameUpEmpty(t) => if t in v.db.txs && v.db.txs[t] == RolledBack(true) then v.(empty := v.empty + 1) else v
    case Errored => v.(failed := v.failed + 1)
  }

  function HandledAll(v: Tally, events: seq<Event>): Tally
    decreases |events|
  {
    if events == [] then v else Handled(HandledAll(v, events[..|events| - 1]), events[|events| - 1])
  }

  lemma HandledTwo(v: Tally, a: Event, b: Event)
    ensures HandledAll(v, [a, b]) == Handled(Handled(v, a), b)
    ensures HandledAll(v, []) == v
  {
    assert [a, b][..1] == [a] && [a][..0] == [];
    assert HandledAll(v, [a]) == Handled(v, a);
  }

  lemma HandledMore(v: Tally, events: seq<Event>, i: nat)
    requires i < |events|
    ensures HandledAll(v, events[..i + 1]) == Handled(HandledAll(v, events[..i]), events[i])
  {
    assert events[..i + 1][..i] == events[..i];
  }

  ghost predicate Grown(v: Tally, w: Tally) {
    v.confirmed <= w.confirmed && v.answered <= w.answered && v.db.rows.Keys <= w.db.rows.Keys
  }

  lemma {:induction false} HandledGrows(v: Tally, events: seq<Event>)
    ensures Grown(v, HandledAll(v, events))
    decreases |events|
  {
    if events != [] {
      var before, ev := HandledAll(v, events[..|events| - 1]), events[|events| - 1];
      HandledGrows(v, events[..|events| - 1]);
      if ev.Stepped? { RowsStay(before.db, ev.step); }
    }
  }

  /** The numbers of a /stats response that the table is compared with. */
  datatype Report = Report(enqueued: nat, claims: nat, distinct: nat, done: nat, pending: nat)

  class Variant {
    var db: State             // the variant's private schema
    var enqueued: nat         // inserts whose reply arrived
    var empty: nat            // calls that returned pgx.ErrNoRows
    var failed: nat           // requests that returned a dependency error
    var claims: nat           // calls of Work that returned a claim
    var jobs: set<int>        // distinct job ids those calls returned

    // Where the requests are: calls whose claim reached the handler, and rows
    // whose insert did.
    var confirmed: set<nat>
    var answered: set<int>

    ghost var history: seq<Step>     // everything the database did since the truncate

    function View(): Tally
      reads this
    {
      Tally(db, enqueued, empty, failed, claims, jobs, confirmed, answered)
    }

    ghost predicate Valid()
      reads this
    {
      && db == Run(Empty(db.mode), history)
      && enqueued == |answered| && answered <= db.rows.Keys
      && Tallied(db, claims, jobs, confirmed)
    }

    /** truncate ... restart identity, with the tallies at zero. */
    constructor (mode: Mode)
      ensures Valid()
      ensures db == Empty(mode) && history == [] && confirmed == {} && answered == {}
      ensures enqueued == empty == failed == claims == 0 && jobs == {}
    {
      db := Empty(mode);
      enqueued, empty, failed, claims, jobs := 0, 0, 0, 0, {};
      confirmed, answered, history := {}, {}, [];
    }

    /** Any step of the database on behalf of any request. */
    method Happens(step: Step)
      requires Valid()
      modifies this`db, this`history
      ensures Valid()
      ensures db == Apply(old(db), step) && history == old(history) + [step]
      ensures View() == Handled(old(View()), Stepped(step))
    {
      ghost var before := db;
      db, history := Apply(db, step), history + [step];
      assert db == Run(Empty(db.mode), history) by {
        QueueRunMore(Empty(before.mode), old(history), step);
      }
      assert answered <= db.rows.Keys by { RowsStay(before, step); }
      assert Tallied(db, claims, jobs, confirmed) by { TalliedStays(before, claims, jobs, confirmed, step); }
    }

    /** The insert's reply reached the handler. */
    method InsertReplied(id: int)
      requires Valid() && id in db.rows && id !in answered
      modifies this`enqueued, this`answered
      ensures Valid() && enqueued == old(enqueued) + 1 && answered == old(answered) + {id}
      ensures View() == Handled(old(View()), Replied(id))
    {
      enqueued, answered := enqueued + 1, answered + {id};
    }

    /** The request's insert. Without a reply the row may or may not be there. */
    method Insert(id: int, committed: bool, replied: bool)
      requires Valid()
      requires id !in db.rows && (replied ==> committed)
      modifies this`db, this`history, this`enqueued, this`answered, this`failed
      ensures Valid()
      ensures db == if committed then Apply(old(db), Enqueue(id)) else old(db)
      ensures enqueued == old(enqueued) + (if replied then 1 else 0)
      ensures answered == old(answered) + (if replied then {id} else {})
      ensures failed == old(failed) + (if replied then 0 else 1)
    {
      if committed { Happens(Enqueue(id)); }
      if replied { InsertReplied(id); } else { failed := failed + 1; }
    }

    /** Work returned a claim for call t. */
    method ClaimReturned(t: nat)
      requires Valid()
      requires t in db.txs && db.txs[t].Committed? && t !in confirmed
      modifies this`claims, this`jobs, this`confirmed
      ensures Valid()
      ensures confirmed == old(confirmed) + {t}
      ensures claims == old(claims) + 1 && jobs == old(jobs) + {db.txs[t].row}
      ensures View() == Handled(old(View()), Returned(t))
    {
      var r := db.txs[t].row;
      assert Tallied(db, claims + 1, jobs + {r}, confirmed + {t}) by { TalliedMore(db, history, claims, jobs, confirmed, t); }
      claims, jobs, confirmed := claims + 1, jobs + {r}, confirmed + {t};
    }

    /** Work returned pgx.ErrNoRows for call t. */
    method ClaimEmpty(t: nat)
      requires Valid() && t in db.txs && db.txs[t] == RolledBack(true)
      modifies this`empty
      ensures Valid() && empty == old(empty) + 1 && View() == Handled(old(View()), CameUpEmpty(t))
    {
      empty := empty + 1;
    }

    /** Work returned any other error: the transaction may have rolled back, or
        committed with the reply lost. */
    method WorkFailed()
      requires Valid()
      modifies this`failed
      ensures Valid() && failed == old(failed) + 1 && View() == Handled(old(View()), Errored)
    {
      failed := failed + 1;
    }

    /** Table and tallies at one moment, in every reachable state: claims equals
        the distinct jobs and never exceeds the done rows, and they agree exactly
        when every committed call's outcome was reported. Nothing is claimed that
        was not inserted. */
    lemma TalliesMatchTable()
      requires Valid()
      ensures claims == |jobs| && jobs <= DoneRows(db)
      ensures claims <= |DoneRows(db)| <= |db.rows|
      ensures claims == |DoneRows(db)| <==> forall t :: t in db.txs && db.txs[t].Committed? ==> t in confirmed
      ensures |DoneRows(db)| - claims == |Unreported(db, confirmed)|
      ensures enqueued <= |PendingRows(db)| + |DoneRows(db)| == |db.rows|
      ensures |db.rows| - enqueued == |db.rows.Keys - answered|
    {
      RunIsSafe(Empty(db.mode), history);
      assert jobs <= DoneRows(db) by { JobsAreDone(db, claims, jobs, confirmed); }
      UnreportedSize(db, confirmed);
      RowsSplit(db);
      Growth(answered, db.rows.Keys);
      NoneUnreported(db, confirmed);
    }

    /** Whatever can happen in other requests. */
    method Handle(ev: Event)
      requires Valid()
      modifies this
      ensures Valid() && View() == Handled(old(View()), ev)
    {
      match ev {
        case Stepped(step) => Happens(step);
        case Replied(id) => if id in db.rows && id !in answered { InsertReplied(id); }
        case Returned(t) => if t in db.txs && db.txs[t].Committed? && t !in confirmed { ClaimReturned(t); }
        case CameUpEmpty(t) => if t in db.txs && db.txs[t] == RolledBack(true) { ClaimEmpty(t); }
        case Errored => WorkFailed();
      }
    }

    method HandleAll(events: seq<Event>)
      requires Valid()
      modifies this
      ensures Valid() && View() == HandledAll(old(View()), events)
    {
      ghost var before := View();
      for i := 0 to |events|
        invariant Valid() && View() == HandledAll(before, events[..i])
      {
        Handle(events[i]);
        HandledMore(before, events, i);
      }
      assert events[..|events|] == events;
    }

    /** /stats: the table is counted first, then the claims are read, then the
        inserts, each after whatever other requests did meanwhile. When they are
        read, claims do not exceed the done rows nor inserts the rows; against
        the numbers counted first they differ by exactly what was reported in
        between less what was there unreported, so they can exceed them. */
    method Stats(first: seq<Event>, second: seq<Event>) returns (r: Report)
      requires Valid()
      modifies this
      ensures Valid()
      ensures View() == HandledAll(HandledAll(old(View()), first), second)
      ensures old(confirmed) <= confirmed && old(answered) <= answered
      ensures r.done == |DoneRows(old(db))| && r.pending == |PendingRows(old(db))|
      ensures var mid := HandledAll(old(View()), first);
              && r.claims == r.distinct == mid.claims <= |DoneRows(mid.db)|
              && r.claims - r.done == |mid.confirmed - old(confirmed)| - |Unreported(old(db), old(confirmed))|
      ensures r.enqueued == enqueued <= |db.rows|
      ensures r.enqueued - (r.done + r.pending) == |answered - old(answered)| - |old(db).rows.Keys - old(answered)|
      ensures r.enqueued - (r.done + r.pending) <= |db.rows.Keys - old(db).rows.Keys|
    {
      var done, pending := |DoneRows(db)|, |PendingRows(db)|;
      TalliesMatchTable();
      HandleAll(first);
      TalliesMatchTable();
      ghost var mid := View();
      var claimed, distinct := claims, |jobs|;
      HandleAll(second);
      TalliesMatchTable();
      r := Report(enqueued, claimed, distinct, done, pending);
      HandledGrows(old(View()), first);
      HandledGrows(mid, second);
      Growth(old(confirmed), mid.confirmed);
      Growth(old(answered), answered);
      Growth(old(db).rows.Keys, db.rows.Keys);
    }
  }

  lemma ScanAndClaim(mode: Mode, job: int)
    ensures var s := State(mode, map[job := Pending], map[0 := Open], []);
            Apply(Apply(Apply(s, Advance(0)), Advance(0)), Advance(0)) == s.(txs := map[0 := Finishing(job)])
  {
    var s := State(mode, map[job := Pending], map[0 := Open], []);
    assert PendingRows(s) == {job} && Least({job}) == job;
    assert Apply(s, Advance(0)) == s.(txs := map[0 := Scanning({job})]);
    assert Apply(s.(txs := map[0 := Scanning({job})]), Advance(0)) == s.(txs := map[0 := Holding(job)]);
  }

  function OneOpen(mode: Mode, job: int): State { State(mode, map[job := Pending], map[0 := Open], []) }

  lemma FirstSteps(mode: Mode, job: int)
    ensures var s := State(mode, map[], map[], []);
            Apply(Apply(Apply(s, Enqueue(job)), Call(0)), Advance(0)) == OneOpen(mode, job)
  {
  }

  /** A request that has inserted its job and begun its claim. */
  method BeginRequest(mode: Mode, job: int) returns (v: Variant)
    ensures fresh(v) && v.Valid() && v.db == OneOpen(mode, job) && v.claims == 0 && v.confirmed == {}
  {
    v := new Variant(mode);
    v.Insert(job, true, true);
    v.Happens(Call(0));
    v.Happens(Advance(0));
    FirstSteps(mode, job);
  }

  /** It claims the job and updates it, without committing. */
  method UpdateJob(v: Variant, job: int)
    requires v.Valid() && v.db == OneOpen(v.db.mode, job)
    modifies v`db, v`history
    ensures v.Valid() && v.db == OneOpen(old(v.db).mode, job).(txs := map[0 := Finishing(job)])
  {
    ScanAndClaim(v.db.mode, job);
    v.Happens(Advance(0));
    v.Happens(Advance(0));
    v.Happens(Advance(0));
  }

  lemma NothingDone(mode: Mode, job: int)
    ensures DoneRows(OneOpen(mode, job)) == {}
  {
  }

  lemma CommitsAndReturns(v: Tally, t: nat, r: int)
    requires t in v.db.txs && v.db.txs[t] == Finishing(r) && t !in v.confirmed
    ensures HandledAll(v, [Stepped(Advance(t)), Returned(t)]).claims == v.claims + 1
  {
    HandledTwo(v, Stepped(Advance(t)), Returned(t));
    assert Apply(v.db, Advance(t)).txs[t] == Committed(r);
  }

  /** A request that commits and returns between the two reads of /stats makes
      the claims reported exceed the done rows reported. */
  method ReportExceedsDone(mode: Mode, job: int) returns (r: Report)
    ensures r.done == 0 && r.claims == 1
  {
    var v := BeginRequest(mode, job);
    UpdateJob(v, job);
    NothingDone(mode, job);
    assert v.db.rows == OneOpen(mode, job).rows;
    CommitsAndReturns(v.View(), 0, job);
    r := v.Stats([Stepped(Advance(0)), Returned(0)], []);
  }

  /** One that inserts its job there makes the inserts reported exceed the rows. */
  method ReportExceedsRows(mode: Mode, job: int) returns (r: Report)
    ensures r.done + r.pending == 0 && r.enqueued == 1
  {
    var v := new Variant(mode);
    HandledTwo(v.View(), Stepped(Enqueue(job)), Replied(job));
    assert DoneRows(v.db) == {} && PendingRows(v.db) == {};
    r := v.Stats([Stepped(Enqueue(job)), Replied(job)], []);
  }
}
