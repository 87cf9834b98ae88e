/** The job-queue worker protocol as interleaved steps over one jobs table.

    A transaction runs under Read Committed (PostgreSQL manual, section 13.2.1):
    a statement sees the rows committed when it starts, a row lock is held to
    the end of the transaction, and a blocked `for update` re-checks the row's
    committed version when the lock is free. */
module JobQueue {
  import opened Sets

  datatype Status = Pending | Done

  /** The claim query every worker of this table uses. */
  datatype Mode = Blocking | SkipLocked

  /** Where one call of Work is. */
  datatype Tx =
    | Called                                 // Work entered, Begin not done
    | Open                                   // Begin done, claim query not sent
    | Scanning(todo: set<int>)               // rows of the claim's snapshot not visited yet
    | Waiting(row: int, rest: set<int>)      // blocked on row's lock
    | Holding(row: int)                      // claimed: row lock held
    | Finishing(row: int)                    // update done, not committed
    | Committed(row: int)
    | RolledBack(empty: bool)                // empty: the scan found no row (pgx.ErrNoRows)

  datatype Claim = Claim(worker: nat, job: int)

  /** rows is the committed table, log the committed claims in commit order. */
  datatype State = State(mode: Mode, rows: map<int, Status>, txs: map<nat, Tx>, log: seq<Claim>)

  predicate Holds(tx: Tx, r: int) { (tx.Holding? || tx.Finishing?) && tx.row == r }

  predicate Owns(tx: Tx, r: int) { Holds(tx, r) || tx == Committed(r) }

  predicate Locked(s: State, r: int) { exists t :: t in s.txs && Holds(s.txs[t], r) }

  predicate IsPending(s: State, r: int) { r in s.rows && s.rows[r].Pending? }

  predicate IsDone(s: State, r: int) { r in s.rows && s.rows[r].Done? }

  function PendingRows(s: State): set<int> { set r | r in s.rows && s.rows[r].Pending? }

  function DoneRows(s: State): set<int> { set r | r in s.rows && s.rows[r].Done? }

  predicate Terminal(tx: Tx) { tx.Committed? || tx.RolledBack? }

  // The steps

  /** A transaction that waits for a held row lock cannot move; every other
      open one can. */
  predicate Enabled(s: State, t: nat)
  {
    t in s.txs && match s.txs[t]
                  case Waiting(r, _) => !Locked(s, r)
                  case tx => !Terminal(tx)
  }

  /** What visiting row r of the snapshot does when its lock is free: the row is
      claimed if its committed version still matches, else the scan goes on. */
  function Recheck(s: State, r: int, rest: set<int>): Tx {
    if IsPending(s, r) then Holding(r) else Scanning(rest)
  }

  function NextTx(s: State, t: nat): Tx
    requires Enabled(s, t)
  {
    match s.txs[t]
    case Called => Open
    case Open => Scanning(PendingRows(s))
    case Scanning(todo) =>
      if todo == {} then RolledBack(true)
      else
        var r := Least(todo);   // order by id limit 1
        if !Locked(s, r) then Recheck(s, r, todo - {r})
        else if s.mode == Blocking then Waiting(r, todo - {r})
        else Scanning(todo - {r})
    case Waiting(r, rest) => Recheck(s, r, rest)
    case Holding(r) => Finishing(r)
    case Finishing(r) => Committed(r)
    case _ => s.txs[t]
  }

  /** One step of transaction t; only a commit changes the table. */
  function Next(s: State, t: nat): State
    requires Enabled(s, t)
  {
    var s' := s.(txs := s.txs[t := NextTx(s, t)]);
    match s.txs[t]
    case Finishing(r) => s'.(rows := s.rows[r := Done], log := s.log + [Claim(t, r)])
    case _ => s'
  }

  datatype Step =
    | Enqueue(id: int)      // a committed insert; ids need not arrive in order
    | Call(t: nat)          // a new call of Work
    | Advance(t: nat)
    | Rollback(t: nat)      // any error or cancelled context before commit

  /** A step that is not possible in s changes nothing. */
  function Apply(s: State, step: Step): State
  {
    match step
    case Enqueue(id) => if id in s.rows then s else s.(rows := s.rows[id := Pending])
    case Call(t) => if t in s.txs then s else s.(txs := s.txs[t := Called])
    case Advance(t) => if Enabled(s, t) then Next(s, t) else s
    case Rollback(t) =>
      if t in s.txs && !Terminal(s.txs[t]) then s.(txs := s.txs[t := RolledBack(false)]) else s
  }

  function Run(s: State, steps: seq<Step>): State
    decreases |steps|
  {
    if steps == [] then s else Apply(Run(s, steps[..|steps| - 1]), steps[|steps| - 1])
  }

  predicate Initial(s: State) {
    s.txs == map[] && s.log == [] && DoneRows(s) == {}
  }

  lemma QueueRunMore(s: State, steps: seq<Step>, step: Step)
    ensures Run(s, steps + [step]) == Apply(Run(s, steps), step)
  {
    assert (steps + [step])[..|steps|] == steps;
  }

  /** One run after another. */
  lemma {:induction false} RunTogether(s: State, a: seq<Step>, b: seq<Step>)
    ensures Run(s, a + b) == Run(Run(s, a), b)
    decreases |b|
  {
    if b == [] {
      assert a + b == a;
    } else {
      var n := |b| - 1;
      RunTogether(s, a, b[..n]);
      assert a + b == (a + b[..n]) + [b[n]];
      QueueRunMore(s, a + b[..n], b[n]);
    }
  }

  /** The table after the truncate, nobody connected. */
  function Empty(mode: Mode): (s: State)
    ensures Initial(s)
  {
    State(mode, map[], map[], [])
  }

  // Safety over all runs

  ghost predicate TxFits(s: State, tx: Tx) {
    match tx
    case Scanning(todo) => todo <= s.rows.Keys
    case Waiting(r, rest) => r in s.rows && rest <= s.rows.Keys
    case Holding(r) => IsPending(s, r)
    case Finishing(r) => IsPending(s, r)
    case Committed(r) => IsDone(s, r)
    case _ => true
  }

  ghost predicate Safe(s: State)
  {
    && (forall t :: t in s.txs ==> TxFits(s, s.txs[t]))
    // no row belongs to two transactions
    && (forall t, u, r :: t in s.txs && u in s.txs && Owns(s.txs[t], r) && Owns(s.txs[u], r) ==> t == u)
    // the log names exactly the committed claims, each job once
    && (forall i :: 0 <= i < |s.log| ==>
          s.log[i].worker in s.txs && s.txs[s.log[i].worker] == Committed(s.log[i].job))
    && (forall i, j :: 0 <= i < j < |s.log| ==> s.log[i].job != s.log[j].job)
    && (forall r :: IsDone(s, r) ==> exists i :: 0 <= i < |s.log| && s.log[i].job == r)
  }

  lemma CommitIsSafe(s: State, t: nat)
    requires Safe(s) && t in s.txs && s.txs[t].Finishing?
    ensures Safe(Next(s, t))
  {
    var r, s' := s.txs[t].row, Next(s, t);
    assert s'.log[..|s.log|] == s.log;
    assert TxFits(s, s.txs[t]);
    forall u | u in s'.txs
      ensures TxFits(s', s'.txs[u])
    {
      if u != t {
        assert TxFits(s, s.txs[u]);
        assert !Owns(s.txs[u], r);
      }
    }
    forall x | IsDone(s', x)
      ensures exists i :: 0 <= i < |s'.log| && s'.log[i].job == x
    {
      if x == r {
        assert s'.log[|s.log|].job == r;
      } else {
        assert IsDone(s, x);
        var i :| 0 <= i < |s.log| && s.log[i].job == x;
        assert s'.log[i].job == x;
      }
    }
    forall i | 0 <= i < |s.log|
      ensures s.log[i].job != r
    {
      assert TxFits(s, s.txs[s.log[i].worker]);
    }
  }

  lemma NextTxFits(s: State, t: nat)
    requires Safe(s) && Enabled(s, t) && !s.txs[t].Finishing?
    ensures TxFits(s, NextTx(s, t))
  {
    assert TxFits(s, s.txs[t]);
    match s.txs[t]
    case Open => assert PendingRows(s) <= s.rows.Keys;
    case Scanning(todo) =>
      if todo != {} {
        assert Least(todo) in s.rows.Keys;
        assert todo - {Least(todo)} <= s.rows.Keys;
      }
    case _ =>
  }

  lemma NextIsSafe(s: State, t: nat)
    requires Safe(s) && Enabled(s, t)
    ensures Safe(Next(s, t))
  {
    if s.txs[t].Finishing? {
      CommitIsSafe(s, t);
    } else {
      var s' := Next(s, t);
      assert s'.rows == s.rows && s'.log == s.log;
      forall u, r | u in s.txs && u != t && Owns(s.txs[u], r)
        ensures !Owns(s'.txs[t], r)
      {
        assert TxFits(s, s.txs[u]);
      }
      NextTxFits(s, t);
      forall u | u in s'.txs
        ensures TxFits(s', s'.txs[u])
      {
        assert TxFits(s, s'.txs[u]);
      }
      assert forall r :: IsDone(s', r) ==> IsDone(s, r);
    }
  }

  lemma InsertIsSafe(s: State, id: int)
    requires Safe(s) && id !in s.rows
    ensures Safe(s.(rows := s.rows[id := Pending]))
  {
    var s' := s.(rows := s.rows[id := Pending]);
    assert forall r :: IsDone(s', r) ==> IsDone(s, r);
    forall t | t in s'.txs ensures TxFits(s', s'.txs[t]) { assert TxFits(s, s.txs[t]); }
  }

  /** A call that has just begun or ended owns nothing. */
  lemma IdleIsSafe(s: State, t: nat, tx: Tx)
    requires Safe(s) && (tx.Called? || tx.RolledBack?) && (t in s.txs ==> !s.txs[t].Committed?)
    ensures Safe(s.(txs := s.txs[t := tx]))
  {
    var s' := s.(txs := s.txs[t := tx]);
    assert forall r :: IsDone(s', r) ==> IsDone(s, r);
    forall u | u in s'.txs ensures TxFits(s', s'.txs[u]) { assert u != t ==> TxFits(s, s.txs[u]); }
  }

  lemma StepIsSafe(s: State, step: Step)
    requires Safe(s)
    ensures Safe(Apply(s, step))
  {
    match step
    case Advance(t) => if Enabled(s, t) { NextIsSafe(s, t); }
    case Enqueue(id) => if id !in s.rows { InsertIsSafe(s, id); }
    case Call(t) => if t !in s.txs { IdleIsSafe(s, t, Called); }
    case Rollback(t) => if t in s.txs && !Terminal(s.txs[t]) { IdleIsSafe(s, t, RolledBack(false)); }
  }

  lemma {:induction false} RunIsSafe(s: State, steps: seq<Step>)
    requires Initial(s)
    ensures Safe(Run(s, steps))
    decreases |steps|
  {
    if steps == [] {
      assert forall r :: IsDone(s, r) ==> r in DoneRows(s);
    } else {
      RunIsSafe(s, steps[..|steps| - 1]);
      StepIsSafe(Run(s, steps[..|steps| - 1]), steps[|steps| - 1]);
    }
  }

  /** Over every run, with enqueues and rollbacks at any point: no row is locked
      by two transactions, a locked row is pending, and no job is committed by
      two claims. */
  lemma OneOwnerPerJob(s: State, steps: seq<Step>, t: nat, u: nat, r: int)
    requires Initial(s)
    requires var e := Run(s, steps);
             t in e.txs && u in e.txs && Owns(e.txs[t], r) && Owns(e.txs[u], r)
    ensures t == u
    ensures Holds(Run(s, steps).txs[t], r) ==> IsPending(Run(s, steps), r)
  {
    RunIsSafe(s, steps);
    assert TxFits(Run(s, steps), Run(s, steps).txs[t]);
  }

  function Enqueued(steps: seq<Step>): set<int>
  {
    if steps == [] then {}
    else
      var last := steps[|steps| - 1];
      Enqueued(steps[..|steps| - 1]) + (if last.Enqueue? then {last.id} else {})
  }

  /** The rows of the table are exactly the ones inserted, whatever the workers did. */
  lemma {:induction false} RunKeepsRows(s: State, steps: seq<Step>)
    requires Initial(s)
    ensures Run(s, steps).rows.Keys == s.rows.Keys + Enqueued(steps)
    decreases |steps|
  {
    if steps != [] {
      var n := |steps| - 1;
      var before := Run(s, steps[..n]);
      RunKeepsRows(s, steps[..n]);
      RunIsSafe(s, steps[..n]);
      assert forall t :: t in before.txs ==> TxFits(before, before.txs[t]);
    }
  }

  function Jobs(log: seq<Claim>): set<int> { set i | 0 <= i < |log| :: log[i].job }

  lemma {:induction false} DistinctJobs(log: seq<Claim>)
    requires forall i, j :: 0 <= i < j < |log| ==> log[i].job != log[j].job
    ensures |Jobs(log)| == |log|
  {
    if log != [] {
      var n := |log| - 1;
      DistinctJobs(log[..n]);
      assert Jobs(log) == Jobs(log[..n]) + {log[n].job};
      assert log[n].job !in Jobs(log[..n]);
    }
  }

  lemma LoggedIsDone(s: State, i: nat)
    requires Safe(s) && i < |s.log|
    ensures IsDone(s, s.log[i].job)
  {
    assert TxFits(s, s.txs[s.log[i].worker]);
  }

  lemma DoneIsLogged(s: State)
    requires Safe(s)
    ensures DoneRows(s) == Jobs(s.log)
  {
    forall r
      ensures r in DoneRows(s) <==> r in Jobs(s.log)
    {
      if r in Jobs(s.log) {
        var i :| 0 <= i < |s.log| && s.log[i].job == r;
        LoggedIsDone(s, i);
      }
      if IsDone(s, r) {
        var i :| 0 <= i < |s.log| && s.log[i].job == r;
      }
    }
  }

  lemma RowsSplit(s: State)
    ensures |PendingRows(s)| + |DoneRows(s)| == |s.rows|
  {
    assert PendingRows(s) + DoneRows(s) == s.rows.Keys;
    assert PendingRows(s) !! DoneRows(s);
  }

  lemma DoneMatchesLog(s: State)
    requires Safe(s)
    ensures DoneRows(s) == Jobs(s.log)
    ensures |DoneRows(s)| == |s.log|
    ensures |PendingRows(s)| + |s.log| == |s.rows|
  {
    DoneIsLogged(s);
    DistinctJobs(s.log);
    RowsSplit(s);
  }

  /** Conservation over every run: a row is pending or done by exactly one
      committed claim, so pending + done equals the rows inserted. */
  lemma EveryRowAccounted(s: State, steps: seq<Step>)
    requires Initial(s)
    ensures var e := Run(s, steps);
            && e.rows.Keys == s.rows.Keys + Enqueued(steps)
            && |PendingRows(e)| + |DoneRows(e)| == |e.rows|
            && DoneRows(e) == Jobs(e.log) && |DoneRows(e)| == |e.log|
  {
    RunIsSafe(s, steps);
    DoneMatchesLog(Run(s, steps));
    RunKeepsRows(s, steps);
  }

  /** A rolled-back claim leaves its job pending and unlocked, so the next scan
      that visits the row claims it; nothing committed changes. */
  lemma RollbackReturnsJob(s: State, steps: seq<Step>, t: nat, r: int)
    requires Initial(s)
    requires var e := Run(s, steps); t in e.txs && Holds(e.txs[t], r)
    ensures var e := Run(s, steps);
            var after := Run(s, steps + [Rollback(t)]);
            && IsPending(after, r) && !Locked(after, r)
            && after.rows == e.rows && after.log == e.log
            && forall u, rest :: u in after.txs && after.txs[u] == Scanning(rest) && rest != {} && Least(rest) == r
                                 ==> NextTx(after, u) == Holding(r)
  {
    RunIsSafe(s, steps);
    var e := Run(s, steps);
    assert TxFits(e, e.txs[t]);
    assert (steps + [Rollback(t)])[..|steps|] == steps;
    var after := Run(s, steps + [Rollback(t)]);
    forall u | u in after.txs
      ensures !Holds(after.txs[u], r)
    {
      if u != t { assert !Owns(e.txs[u], r); }
    }
  }

  /** Deadlock freedom in any state at all: while a transaction is unfinished,
      some transaction can move, because one that waits holds no lock. */
  lemma NeverStuck(s: State, t: nat)
    requires t in s.txs && !Terminal(s.txs[t])
    ensures exists u :: Enabled(s, u)
  {
    if !Enabled(s, t) {
      var r := s.txs[t].row;
      var u :| u in s.txs && Holds(s.txs[u], r);
      assert Enabled(s, u);
    }
  }

  /** A bound on the steps a call has left, in a table of n rows. */
  function Weight(tx: Tx, n: nat): nat {
    match tx
    case Called => 2 * n + 5
    case Open => 2 * n + 4
    case Scanning(todo) => 2 * |todo| + 3
    case Waiting(_, rest) => 2 * |rest| + 4
    case Holding(_) => 2
    case Finishing(_) => 1
    case _ => 0
  }

  // Blocking mode serves jobs in id order

  /** A claim's rows are done or newer than everything it has still to visit. */
  ghost predicate TxInOrder(s: State, tx: Tx) {
    match tx
    case Scanning(todo) => forall r :: r in s.rows && r !in todo ==> IsDone(s, r) || forall x :: x in todo ==> x < r
    case Waiting(r, rest) =>
      && (forall x :: x in rest ==> r < x)
      && (forall x :: x in s.rows && x !in rest && x != r ==> IsDone(s, x) || (r < x && forall y :: y in rest ==> y < x))
    case Holding(r) => forall x :: x in s.rows && x < r ==> IsDone(s, x)
    case Finishing(r) => forall x :: x in s.rows && x < r ==> IsDone(s, x)
    case _ => true
  }

  ghost predicate InOrder(s: State)
  {
    && s.mode == Blocking
    && (forall t :: t in s.txs ==> TxInOrder(s, s.txs[t]))
    && (forall r, x :: IsDone(s, r) && IsPending(s, x) ==> r < x)
    && (forall i, j :: 0 <= i < j < |s.log| ==> s.log[i].job < s.log[j].job)
  }

  /** An insert whose id is above every id in the table. */
  ghost predicate Appends(s: State, id: int) { id in s.rows || forall r :: r in s.rows ==> r < id }

  ghost predicate AscendingInserts(s: State, steps: seq<Step>)
    decreases |steps|
  {
    steps == [] || (
      var n := |steps| - 1;
      AscendingInserts(s, steps[..n]) && (steps[n].Enqueue? ==> Appends(Run(s, steps[..n]), steps[n].id)))
  }

  ghost predicate NoInserts(steps: seq<Step>) { forall k :: 0 <= k < |steps| ==> !steps[k].Enqueue? }

  lemma {:induction false} NoInsertsAscend(s: State, steps: seq<Step>)
    requires NoInserts(steps)
    ensures AscendingInserts(s, steps)
    decreases |steps|
  {
    if steps != [] { NoInsertsAscend(s, steps[..|steps| - 1]); }
  }

  lemma ScanInOrder(s: State, todo: set<int>)
    requires TxInOrder(s, Scanning(todo)) && todo != {}
    ensures var r, rest := Least(todo), todo - {Least(todo)};
            TxInOrder(s, Waiting(r, rest)) && TxInOrder(s, Holding(r)) && (IsDone(s, r) ==> TxInOrder(s, Scanning(rest)))
  {
    var r, rest := Least(todo), todo - {Least(todo)};
    forall x | x in s.rows && x !in rest && x != r
      ensures IsDone(s, x) || (r < x && forall y :: y in rest ==> y < x)
    {
      assert x !in todo;
    }
    forall x | x in s.rows && x < r ensures IsDone(s, x) { assert x !in todo; }
  }

  lemma WaitInOrder(s: State, r: int, rest: set<int>)
    requires TxInOrder(s, Waiting(r, rest))
    ensures TxInOrder(s, Holding(r)) && (IsDone(s, r) ==> TxInOrder(s, Scanning(rest)))
  {
    forall x | x in s.rows && x < r ensures IsDone(s, x) { assert x !in rest; }
  }

  lemma NextTxInOrder(s: State, t: nat)
    requires Safe(s) && InOrder(s) && Enabled(s, t) && !s.txs[t].Finishing?
    ensures TxInOrder(s, NextTx(s, t))
  {
    assert TxFits(s, s.txs[t]) && TxInOrder(s, s.txs[t]);
    match s.txs[t]
    case Open =>
      forall r | r in s.rows && r !in PendingRows(s) ensures IsDone(s, r) { }
    case Scanning(todo) =>
      if todo != {} {
        ScanInOrder(s, todo);
        assert Least(todo) in s.rows;
      }
    case Waiting(r, rest) => WaitInOrder(s, r, rest);
    case _ =>
  }

  lemma CommitInOrder(s: State, t: nat)
    requires Safe(s) && InOrder(s) && t in s.txs && s.txs[t].Finishing?
    ensures InOrder(Next(s, t))
  {
    var r, s' := s.txs[t].row, Next(s, t);
    assert TxFits(s, s.txs[t]) && TxInOrder(s, s.txs[t]);
    forall x | IsPending(s', x) ensures r < x {
      assert IsPending(s, x) && x != r;
    }
    forall y, x | IsDone(s', y) && IsPending(s', x)
      ensures y < x
    {
      assert y != r ==> IsDone(s, y);
      assert IsPending(s, x);
    }
    forall x | IsDone(s, x) ensures IsDone(s', x) { }
    forall u | u in s'.txs ensures TxInOrder(s', s'.txs[u]) {
      if u != t { assert TxInOrder(s, s.txs[u]); }
    }
    forall i | 0 <= i < |s.log| ensures s.log[i].job < r {
      assert TxFits(s, s.txs[s.log[i].worker]);
    }
  }

  lemma AppendInOrder(s: State, id: int)
    requires Safe(s) && InOrder(s) && id !in s.rows && Appends(s, id)
    ensures InOrder(Apply(s, Enqueue(id)))
  {
    var s' := Apply(s, Enqueue(id));
    assert forall r :: IsDone(s', r) <==> IsDone(s, r);
    forall t | t in s'.txs ensures TxInOrder(s', s'.txs[t]) {
      assert TxFits(s, s.txs[t]) && TxInOrder(s, s.txs[t]);
    }
    forall r, x | IsDone(s', r) && IsPending(s', x) ensures r < x {
      assert r in s.rows && (x == id || IsPending(s, x));
    }
  }

  lemma StepInOrder(s: State, step: Step)
    requires Safe(s) && InOrder(s) && (step.Enqueue? ==> Appends(s, step.id))
    ensures InOrder(Apply(s, step))
  {
    var s' := Apply(s, step);
    if step.Enqueue? {
      if step.id !in s.rows { AppendInOrder(s, step.id); }
    } else if step.Advance? && Enabled(s, step.t) && s.txs[step.t].Finishing? {
      CommitInOrder(s, step.t);
    } else {
      assert s'.rows == s.rows && s'.log == s.log;
      assert forall r :: (IsDone(s', r) <==> IsDone(s, r)) && (IsPending(s', r) <==> IsPending(s, r));
      if step.Advance? && Enabled(s, step.t) { NextTxInOrder(s, step.t); }
      forall u | u in s'.txs ensures TxInOrder(s', s'.txs[u]) { assert TxInOrder(s, s'.txs[u]); }
    }
  }

  lemma OneHolder(s: State, t: nat, u: nat, r: int, x: int)
    requires Safe(s) && InOrder(s) && t in s.txs && u in s.txs && Holds(s.txs[t], r) && Holds(s.txs[u], x)
    ensures t == u
  {
    assert TxFits(s, s.txs[t]) && TxFits(s, s.txs[u]);
    assert TxInOrder(s, s.txs[t]) && TxInOrder(s, s.txs[u]);
    assert IsPending(s, r) && IsPending(s, x);
    assert r < x ==> IsDone(s, r);
    assert x < r ==> IsDone(s, x);
    assert Owns(s.txs[t], r) && Owns(s.txs[u], x);
  }

  /** With plain `for update` and inserts in ascending id order, as a serial
      column hands them out, claims commit in strictly ascending id order over
      every run, rollbacks included, and two workers never hold rows at the same
      time. */
  lemma {:induction false} BlockingServesInOrder(s: State, steps: seq<Step>)
    requires Initial(s) && s.mode == Blocking && AscendingInserts(s, steps)
    ensures InOrder(Run(s, steps))
    ensures var e := Run(s, steps);
            forall t, u, r, x :: t in e.txs && u in e.txs && Holds(e.txs[t], r) && Holds(e.txs[u], x) ==> t == u
    decreases |steps|
  {
    if steps == [] {
      assert forall r :: IsDone(s, r) ==> r in DoneRows(s);
    } else {
      BlockingServesInOrder(s, steps[..|steps| - 1]);
      RunIsSafe(s, steps[..|steps| - 1]);
      StepInOrder(Run(s, steps[..|steps| - 1]), steps[|steps| - 1]);
    }
    RunIsSafe(s, steps);
    var e := Run(s, steps);
    forall t, u, r, x | t in e.txs && u in e.txs && Holds(e.txs[t], r) && Holds(e.txs[u], x)
      ensures t == u
    {
      OneHolder(e, t, u, r, x);
    }
  }
}
