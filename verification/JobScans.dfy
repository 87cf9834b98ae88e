/** What a claim that comes up empty proves about the queue, and runs that show
    what it does not prove. */
module JobScans {
  import opened Sets
  import opened JobQueue
  import opened JobRuns

  /** One call's scan: the rows that were there at its snapshot, and those it
      passed because another transaction held them. */
  datatype Scan = Scan(view: set<int>, passed: set<int>)

  /** What one step of t does to its scan. */
  function Watched(s: State, scan: Scan, t: nat): Scan
    requires Enabled(s, t)
  {
    match s.txs[t]
    case Open => Scan(s.rows.Keys, {})
    case Scanning(todo) =>
      if todo != {} && s.mode == SkipLocked && Locked(s, Least(todo)) then scan.(passed := scan.passed + {Least(todo)})
      else scan
    case _ => scan
  }

  /** The scan of t over a whole run. */
  function Watch(s: State, steps: seq<Step>, t: nat): Scan
    decreases |steps|
  {
    if steps == [] then Scan({}, {})
    else
      var n := |steps| - 1;
      var before, scan := Run(s, steps[..n]), Watch(s, steps[..n], t);
      if steps[n] == Advance(t) && Enabled(before, t) then Watched(before, scan, t) else scan
  }

  /** The snapshot's rows a claim may still find. */
  function ToVisit(tx: Tx): set<int> {
    match tx
    case Scanning(todo) => todo
    case Waiting(r, rest) => {r} + rest
    case _ => {}
  }

  predicate Searching(tx: Tx) { tx.Scanning? || tx.Waiting? || tx == RolledBack(true) }

  /** Every row of the snapshot is done, still to be visited, or was passed. */
  ghost predicate Accounts(s: State, scan: Scan, tx: Tx) {
    && scan.view <= s.rows.Keys && scan.passed <= scan.view
    && (forall r :: r in ToVisit(tx) ==> r in scan.view)
    && (forall r :: r in scan.view ==> IsDone(s, r) || r in ToVisit(tx) || r in scan.passed)
    && (s.mode == Blocking ==> scan.passed == {})
  }

  lemma OwnStepAccounts(s: State, scan: Scan, t: nat)
    requires Safe(s) && Enabled(s, t) && Searching(NextTx(s, t))
    requires Searching(s.txs[t]) ==> Accounts(s, scan, s.txs[t])
    ensures Accounts(Next(s, t), Watched(s, scan, t), NextTx(s, t))
  {
    assert TxFits(s, s.txs[t]);
    match s.txs[t]
    case Scanning(todo) => if todo != {} { assert todo == {Least(todo)} + (todo - {Least(todo)}); }
    case _ =>
  }

  /** Other steps only add rows and finish them. */
  lemma OtherStepAccounts(s: State, scan: Scan, tx: Tx, step: Step)
    requires Safe(s) && Accounts(s, scan, tx)
    ensures Accounts(Apply(s, step), scan, tx)
  {
    if step.Advance? && Enabled(s, step.t) { assert TxFits(s, s.txs[step.t]); }
    assert forall r :: IsDone(s, r) ==> IsDone(Apply(s, step), r);
  }

  /** Over every run, the account holds for every call still searching and for
      every one that came up empty. */
  lemma {:induction false} ScanAccounts(s: State, steps: seq<Step>, t: nat)
    requires Initial(s)
    requires var e := Run(s, steps); t in e.txs && Searching(e.txs[t])
    ensures var e := Run(s, steps); Accounts(e, Watch(s, steps, t), e.txs[t])
    decreases |steps|
  {
    var n := |steps| - 1;
    var before, step := Run(s, steps[..n]), steps[n];
    RunIsSafe(s, steps[..n]);
    if t in before.txs && Searching(before.txs[t]) { ScanAccounts(s, steps[..n], t); }
    if step == Advance(t) && Enabled(before, t) {
      OwnStepAccounts(before, Watch(s, steps[..n], t), t);
    } else {
      OtherStepAccounts(before, Watch(s, steps[..n], t), before.txs[t], step);
    }
  }

  /** A claim that found nothing: at the end of its scan, or returned empty. */
  predicate FoundNothing(tx: Tx) { tx == Scanning({}) || tx == RolledBack(true) }

  /** In either mode: drained exactly when every row inserted since the snapshot,
      and every row passed while another transaction held it, is done. */
  lemma EmptyClaimExactly(s: State, steps: seq<Step>, t: nat)
    requires Initial(s)
    requires var e := Run(s, steps); t in e.txs && FoundNothing(e.txs[t])
    ensures var e, scan := Run(s, steps), Watch(s, steps, t);
            && (forall r :: r in scan.view && r !in scan.passed ==> IsDone(e, r))
            && (e.mode == Blocking ==> scan.passed == {})
            && (PendingRows(e) == {} <==> forall r :: r in e.rows && (r !in scan.view || r in scan.passed) ==> IsDone(e, r))
  {
    ScanAccounts(s, steps, t);
    var e, scan := Run(s, steps), Watch(s, steps, t);
    assert forall r :: r in e.rows ==> (IsDone(e, r) <==> r !in PendingRows(e));
    forall r | r in scan.view && r !in scan.passed ensures IsDone(e, r) { }
    if forall r :: r in e.rows && (r !in scan.view || r in scan.passed) ==> IsDone(e, r) {
      forall r ensures r !in PendingRows(e) { if r in e.rows { assert IsDone(e, r); } }
    }
  }

  lemma {:induction false} RunKeepsMode(s: State, steps: seq<Step>)
    ensures Run(s, steps).mode == s.mode
    decreases |steps|
  {
    if steps != [] { RunKeepsMode(s, steps[..|steps| - 1]); }
  }

  /** In blocking mode a claim that finds nothing proves every row that was there
      at its snapshot done, whatever was inserted or rolled back meanwhile; so
      the queue is drained exactly when every row inserted since is done too. */
  lemma BlockingEmptyMeansDrained(s: State, steps: seq<Step>, t: nat)
    requires Initial(s) && s.mode == Blocking
    requires var e := Run(s, steps); t in e.txs && FoundNothing(e.txs[t])
    ensures var e, view := Run(s, steps), Watch(s, steps, t).view;
            && (forall r :: r in view ==> IsDone(e, r))
            && (PendingRows(e) == {} <==> forall r :: r in e.rows && r !in view ==> IsDone(e, r))
  {
    RunKeepsMode(s, steps);
    EmptyClaimExactly(s, steps, t);
  }

  // Runs, each from the empty table

  /** In blocking mode a held row makes the claim wait; skip locked passes it. */
  lemma MeetsLock(s: State, t: nat, r: int) returns (steps: seq<Step>)
    requires t in s.txs && s.txs[t] == Scanning({r}) && Locked(s, r)
    ensures Run(s, steps) == s.(txs := s.txs[t := if s.mode == Blocking then Waiting(r, {}) else Scanning({})])
  {
    steps := OneStep(s, Advance(t));
    assert Least({r}) == r && {r} - {r} == {};
  }

  /** A scan with nothing left to visit reports an empty queue. */
  lemma ReportsEmpty(s: State, t: nat) returns (steps: seq<Step>)
    requires t in s.txs && s.txs[t] == Scanning({})
    ensures Run(s, steps) == s.(txs := s.txs[t := RolledBack(true)])
  {
    steps := OneStep(s, Advance(t));
  }

  /** The row it waited for is done: nothing is left to visit. */
  lemma Rechecks(s: State, t: nat, r: int) returns (steps: seq<Step>)
    requires t in s.txs && s.txs[t] == Waiting(r, {}) && IsDone(s, r) && !Locked(s, r)
    ensures Run(s, steps) == s.(txs := s.txs[t := Scanning({})])
  {
    steps := OneStep(s, Advance(t));
  }

  /** Worker 0 holds the only job and worker 1 has seen it. */
  function HeldAndSeen(mode: Mode, job: int): State {
    State(mode, map[job := Pending], map[0 := Holding(job), 1 := Scanning({job})], [])
  }

  lemma HeldAndSeenReached(mode: Mode, job: int) returns (steps: seq<Step>)
    ensures Run(Empty(mode), steps) == HeldAndSeen(mode, job)
  {
    var s := Empty(mode);
    var insert := OneStep(s, Enqueue(job));
    var s1 := s.(rows := map[job := Pending]);
    assert PendingRows(s1) == {job};
    var begin0 := Begins(s1, 0);
    var s2 := s1.(txs := map[0 := Scanning({job})]);
    assert s1.txs[0 := Scanning({job})] == s2.txs && Least({job}) == job;
    var claim := Claims(s2, 0, {job});
    var s3 := s1.(txs := map[0 := Holding(job)]);
    assert s2.txs[0 := Holding(job)] == s3.txs && PendingRows(s3) == {job};
    var begin1 := Begins(s3, 1);
    assert s3.txs[1 := Scanning({job})] == HeldAndSeen(mode, job).txs;
    steps := InTurn(s, insert, begin0, claim, begin1);
  }

  /** With skip locked an empty claim can miss a job that was there all along:
      worker 0 claims the only job, worker 1's scan passes it, worker 0 rolls
      back; worker 1 reports an empty queue although the job is pending and
      unlocked. */
  lemma SkipLockedEmptyCanMissAJob(job: int) returns (steps: seq<Step>)
    ensures Run(Empty(SkipLocked), steps)
            == State(SkipLocked, map[job := Pending], map[0 := RolledBack(false), 1 := RolledBack(true)], [])
  {
    var s := HeldAndSeen(SkipLocked, job);
    var start := HeldAndSeenReached(SkipLocked, job);
    assert Holds(s.txs[0], job);
    var pass := MeetsLock(s, 1, job);
    var s1 := s.(txs := map[0 := Holding(job), 1 := Scanning({})]);
    assert s.txs[1 := Scanning({})] == s1.txs;
    var back := OneStep(s1, Rollback(0));
    var s2 := s.(txs := map[0 := RolledBack(false), 1 := Scanning({})]);
    assert s1.txs[0 := RolledBack(false)] == s2.txs;
    var empty := ReportsEmpty(s2, 1);
    assert s2.txs[1 := RolledBack(true)] == map[0 := RolledBack(false), 1 := RolledBack(true)];
    steps := InTurn(Empty(SkipLocked), start, pass, back, empty);
  }

  /** Worker 0 holds the first job, worker 1 waits for it, the second is new. */
  function WaitingFor(job: int, later: int): State {
    State(Blocking, map[job := Pending, later := Pending], map[0 := Holding(job), 1 := Waiting(job, {})], [])
  }

  lemma WaitingForReached(job: int, later: int) returns (steps: seq<Step>)
    requires job != later
    ensures Run(Empty(Blocking), steps) == WaitingFor(job, later)
  {
    var s := HeldAndSeen(Blocking, job);
    var start := HeldAndSeenReached(Blocking, job);
    assert Holds(s.txs[0], job);
    var wait := MeetsLock(s, 1, job);
    var s1 := s.(txs := map[0 := Holding(job), 1 := Waiting(job, {})]);
    assert s.txs[1 := Waiting(job, {})] == s1.txs;
    var insert := OneStep(s1, Enqueue(later));
    RunTogether(Empty(Blocking), start, wait);
    RunTogether(Empty(Blocking), start + wait, insert);
    steps := start + wait + insert;
  }

  /** In blocking mode an empty claim can miss a job inserted after its snapshot:
      worker 1 waits for the row worker 0 holds, a second job is inserted, worker
      0 commits; worker 1's recheck fails and it reports an empty queue although
      the second job is pending and unlocked. */
  lemma BlockingEmptyCanMissANewJob(job: int, later: int) returns (steps: seq<Step>)
    requires job != later
    ensures Run(Empty(Blocking), steps)
            == State(Blocking, map[job := Done, later := Pending], map[0 := Committed(job), 1 := RolledBack(true)], [Claim(0, job)])
  {
    var s := WaitingFor(job, later);
    var start := WaitingForReached(job, later);
    var commit := Commits(s, 0, job);
    var s1 := State(Blocking, map[job := Done, later := Pending], map[0 := Committed(job), 1 := Waiting(job, {})], [Claim(0, job)]);
    assert s.(rows := s.rows[job := Done], txs := s.txs[0 := Committed(job)], log := s.log + [Claim(0, job)]) == s1;
    var recheck := Rechecks(s1, 1, job);
    var s2 := s1.(txs := s1.txs[1 := Scanning({})]);
    var empty := ReportsEmpty(s2, 1);
    steps := InTurn(Empty(Blocking), start, commit, recheck, empty);
  }
}
