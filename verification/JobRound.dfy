/** One round of the lesson runner: n workers race over exactly n pending jobs
    and nothing is rolled back. Every schedule ends, and ends well. */
module JobRound {
  import opened JobQueue
  import opened Sets

  function Workers(n: nat): (ws: set<nat>)
    ensures forall w: nat :: w in ws <==> w < n
  {
    if n == 0 then {} else Workers(n - 1) + {n - 1}
  }

  /** truncate, restart identity, insert n pending rows, start n workers. */
  function Start(mode: Mode, n: nat): State {
    State(mode, map id | id in Range(n) :: Pending, map w | w in Workers(n) :: Called, [])
  }

  predicate Owned(s: State, r: int) { exists t :: t in s.txs && Owns(s.txs[t], r) }

  /** Every row the scan has passed already belongs to some worker. */
  ghost predicate PassedRowsOwned(s: State, tx: Tx) {
    match tx
    case Scanning(todo) => forall r :: r in s.rows && r !in todo ==> Owned(s, r)
    case Waiting(_, rest) => forall r :: r in s.rows && r !in rest ==> Owned(s, r)
    case RolledBack(_) => false
    case _ => true
  }

  ghost predicate InRound(s: State, n: nat)
  {
    && Safe(s)
    && (forall id :: id in s.rows <==> 1 <= id <= n)
    && (forall w: nat :: w in s.txs <==> w < n)
    && (forall r :: IsDone(s, r) ==> Owned(s, r))
    && (forall w :: w in s.txs ==> PassedRowsOwned(s, s.txs[w]))
  }

  predicate Finished(s: State) { forall w :: w in s.txs ==> s.txs[w].Committed? }

  // Pigeonhole

  function OwnedBy(tx: Tx): set<int> {
    if tx.Holding? || tx.Finishing? || tx.Committed? then {tx.row} else {}
  }

  /** The rows owned by the first k workers other than w. */
  function RowsOfOthers(s: State, w: nat, k: nat): (rows: set<int>)
    requires forall t: nat :: t < k ==> t in s.txs
    ensures forall t: nat, r :: t < k && t != w && Owns(s.txs[t], r) ==> r in rows
    ensures |rows| <= if w < k then k - 1 else k
  {
    if k == 0 then {}
    else if k - 1 == w then RowsOfOthers(s, w, k - 1)
    else
      var rest, mine := RowsOfOthers(s, w, k - 1), OwnedBy(s.txs[k - 1]);
      assert |rest + mine| <= |rest| + |mine|;
      rest + mine
  }

  /** n rows cannot all belong to the n - 1 other workers. */
  lemma SomeRowLeft(s: State, n: nat, w: nat)
    requires InRound(s, n) && w in s.txs && OwnedBy(s.txs[w]) == {}
    ensures exists r :: r in s.rows && !Owned(s, r)
  {
    var taken := RowsOfOthers(s, w, n);
    if Range(n) <= taken {
      SubsetSize(Range(n), taken);
      assert false;
    }
    var r :| r in Range(n) && r !in taken;
    assert r in s.rows && !Owned(s, r);
  }

  /** The scan never comes up empty, even though it visits rows one at a time
      between the other workers' steps. */
  lemma ScanFindsARow(s: State, n: nat, w: nat)
    requires InRound(s, n) && w in s.txs
    ensures s.txs[w] != Scanning({})
  {
    if s.txs[w] == Scanning({}) {
      assert PassedRowsOwned(s, s.txs[w]);
      SomeRowLeft(s, n, w);
      assert false;
    }
  }

  // Steps of the round

  lemma StartInRound(mode: Mode, n: nat)
    ensures InRound(Start(mode, n), n)
  {
  }

  lemma OwnedStays(s: State, t: nat, r: int)
    requires Safe(s) && Enabled(s, t) && Owned(s, r)
    ensures Owned(Next(s, t), r)
  {
    var u :| u in s.txs && Owns(s.txs[u], r);
    assert Owns(Next(s, t).txs[u], r);
  }

  lemma PassingOwned(s: State, n: nat, t: nat)
    requires InRound(s, n) && Enabled(s, t) && s.txs[t] != Scanning({})
    requires forall r :: r in s.rows && Owned(s, r) ==> Owned(Next(s, t), r)
    ensures PassedRowsOwned(Next(s, t), NextTx(s, t))
  {
    assert TxFits(s, s.txs[t]) && PassedRowsOwned(s, s.txs[t]);
    match s.txs[t]
    case Open =>
      forall r | r in s.rows && r !in PendingRows(s) ensures Owned(s, r) { assert IsDone(s, r); }
    case Scanning(todo) =>
      var r := Least(todo);
      if Locked(s, r) {
        var u :| u in s.txs && Holds(s.txs[u], r);
        assert Owns(s.txs[u], r);
      } else if !IsPending(s, r) {
        assert IsDone(s, r);
      }
      forall x | x in s.rows && x !in todo - {r} && x != r ensures Owned(s, x) { }
    case _ =>
  }

  lemma StepInRound(s: State, n: nat, t: nat)
    requires InRound(s, n) && Enabled(s, t)
    ensures InRound(Next(s, t), n)
  {
    var s' := Next(s, t);
    NextIsSafe(s, t);
    ScanFindsARow(s, n, t);
    assert TxFits(s, s.txs[t]) && PassedRowsOwned(s, s.txs[t]);
    forall r | r in s.rows && Owned(s, r) ensures Owned(s', r) { OwnedStays(s, t, r); }
    forall r | IsDone(s', r) ensures Owned(s', r) {
      if !IsDone(s, r) { assert Owns(s'.txs[t], r); }
    }
    forall w | w in s'.txs ensures PassedRowsOwned(s', s'.txs[w]) {
      if w != t { assert PassedRowsOwned(s, s.txs[w]); } else { PassingOwned(s, n, t); }
    }
  }

  /** Unfinished means some worker can move; no wait is for ever. */
  lemma RoundNotStuck(s: State, n: nat)
    requires InRound(s, n) && !Finished(s)
    ensures exists w: nat :: w < n && Enabled(s, w)
  {
    var t :| t in s.txs && !s.txs[t].Committed?;
    assert PassedRowsOwned(s, s.txs[t]);
    NeverStuck(s, t);
    var w :| Enabled(s, w);
    assert w in s.txs;
  }

  // A measure falls on every step

  function Measure(s: State, n: nat, k: nat): nat
    requires forall w: nat :: w < k ==> w in s.txs
  {
    if k == 0 then 0 else Weight(s.txs[k - 1], n) + Measure(s, n, k - 1)
  }

  lemma {:induction false} MeasureFalls(s: State, s': State, n: nat, k: nat, t: nat)
    requires forall w: nat :: w < k ==> w in s.txs && w in s'.txs
    requires forall w: nat :: w < k && w != t ==> s'.txs[w] == s.txs[w]
    requires t < k ==> Weight(s'.txs[t], n) < Weight(s.txs[t], n)
    ensures t < k ==> Measure(s', n, k) < Measure(s, n, k)
    ensures t >= k ==> Measure(s', n, k) == Measure(s, n, k)
  {
    if k > 0 { MeasureFalls(s, s', n, k - 1, t); }
  }

  lemma PendingSize(s: State, n: nat)
    requires InRound(s, n)
    ensures |PendingRows(s)| <= n
  {
    assert forall r :: r in PendingRows(s) ==> r in Range(n);
    SubsetSize(PendingRows(s), Range(n));
  }

  lemma StepFalls(s: State, n: nat, t: nat)
    requires InRound(s, n) && Enabled(s, t)
    ensures InRound(Next(s, t), n)
    ensures Measure(Next(s, t), n, n) < Measure(s, n, n)
  {
    StepInRound(s, n, t);
    ScanFindsARow(s, n, t);
    PendingSize(s, n);
    assert Weight(NextTx(s, t), n) < Weight(s.txs[t], n);
    MeasureFalls(s, Next(s, t), n, n, t);
  }

  lemma {:induction false} CalledMeasure(s: State, n: nat, k: nat)
    requires forall w: nat :: w < k ==> w in s.txs && s.txs[w] == Called
    ensures Measure(s, n, k) == k * (2 * n + 5)
  {
    if k > 0 {
      CalledMeasure(s, n, k - 1);
      var c := 2 * n + 5;
      assert Weight(s.txs[k - 1], n) == c;
      assert (k - 1) * c + c == k * c;
    }
  }

  // Whole rounds

  /** A schedule: which worker moves next, each one able to. */
  ghost predicate Schedule(s: State, picks: seq<nat>)
    decreases |picks|
  {
    picks == [] || (Enabled(s, picks[0]) && Schedule(Next(s, picks[0]), picks[1..]))
  }

  function Play(s: State, picks: seq<nat>): State
    requires Schedule(s, picks)
    decreases |picks|
  {
    if picks == [] then s else Play(Next(s, picks[0]), picks[1..])
  }

  lemma {:induction false} PlayInRound(s: State, n: nat, picks: seq<nat>)
    requires InRound(s, n) && Schedule(s, picks)
    ensures InRound(Play(s, picks), n)
    ensures |picks| + Measure(Play(s, picks), n, n) <= Measure(s, n, n)
    decreases |picks|
  {
    if picks != [] {
      StepFalls(s, n, picks[0]);
      PlayInRound(Next(s, picks[0]), n, picks[1..]);
    }
  }

  /** What the first k workers ended with. */
  function Won(e: State, k: nat): (claims: seq<Claim>)
    requires forall w: nat :: w < k ==> w in e.txs && e.txs[w].Committed?
    ensures |claims| == k
    ensures forall w: nat :: w < k ==> claims[w] == Claim(w, e.txs[w].row)
  {
    if k == 0 then [] else Won(e, k - 1) + [Claim(k - 1, e.txs[k - 1].row)]
  }

  /** n different jobs out of n are all of them. */
  lemma AllJobsWon(e: State, n: nat)
    requires forall id :: id in e.rows <==> 1 <= id <= n
    requires forall w: nat :: w < n ==> w in e.txs && e.txs[w].Committed? && IsDone(e, e.txs[w].row)
    requires forall w: nat, v: nat :: w < v < n ==> e.txs[w].row != e.txs[v].row
    ensures PendingRows(e) == {}
  {
    var won := Jobs(Won(e, n));
    DistinctJobs(Won(e, n));
    forall r | r in won
      ensures r in Range(n) && IsDone(e, r)
    {
      var w :| 0 <= w < n && Won(e, n)[w].job == r;
    }
    SubsetSize(won, Range(n));
    forall r | r in e.rows
      ensures r in won
    {
      assert r in Range(n);
    }
  }

  lemma FinishedRound(e: State, n: nat)
    requires InRound(e, n) && Finished(e)
    ensures forall w: nat :: w < n ==> w in e.txs && e.txs[w].Committed? && 1 <= e.txs[w].row <= n
    ensures forall w: nat, v: nat :: w < v < n ==> e.txs[w].row != e.txs[v].row
    ensures PendingRows(e) == {}
  {
    forall w: nat | w < n
      ensures w in e.txs && e.txs[w].Committed? && IsDone(e, e.txs[w].row)
    {
      assert TxFits(e, e.txs[w]);
    }
    forall w: nat, v: nat | w < v < n
      ensures e.txs[w].row != e.txs[v].row
    {
      assert Owns(e.txs[w], e.txs[w].row) && Owns(e.txs[v], e.txs[v].row);
    }
    AllJobsWon(e, n);
  }

  /** Round liveness, in either mode: every schedule has at most n * (2n + 5)
      steps; one that cannot be extended has every worker committed, each owning
      a job of 1..n of its own, and every job done. */
  lemma EveryRoundEnds(mode: Mode, n: nat, picks: seq<nat>)
    requires Schedule(Start(mode, n), picks)
    ensures |picks| <= n * (2 * n + 5)
    ensures var e := Play(Start(mode, n), picks);
            (forall w :: !Enabled(e, w)) ==>
              && (forall w: nat :: w < n ==> w in e.txs && e.txs[w].Committed? && 1 <= e.txs[w].row <= n)
              && (forall w: nat, v: nat :: w < v < n ==> e.txs[w].row != e.txs[v].row)
              && PendingRows(e) == {}
  {
    StartInRound(mode, n);
    PlayInRound(Start(mode, n), n, picks);
    CalledMeasure(Start(mode, n), n, n);
    var e := Play(Start(mode, n), picks);
    if forall w :: !Enabled(e, w) {
      if !Finished(e) { RoundNotStuck(e, n); }
      FinishedRound(e, n);
    }
  }

  // Blocking rounds commit 1, 2, 3, ...

  ghost predicate CountsUp(log: seq<Claim>) { forall i :: 0 <= i < |log| ==> log[i].job == i + 1 }

  lemma LoggedUpTo(log: seq<Claim>, x: int)
    requires CountsUp(log) && 1 <= x <= |log|
    ensures x in Jobs(log)
  {
    assert log[x - 1].job == x;
  }

  lemma NextInLine(s: State, n: nat, t: nat)
    requires Safe(s) && InOrder(s) && CountsUp(s.log)
    requires forall id :: id in s.rows <==> 1 <= id <= n
    requires t in s.txs && s.txs[t].Finishing?
    ensures s.txs[t].row == |s.log| + 1
  {
    var r, next := s.txs[t].row, |s.log| + 1;
    assert TxFits(s, s.txs[t]) && TxInOrder(s, s.txs[t]);
    DoneMatchesLog(s);
    assert r !in DoneRows(s);
    if r < next { LoggedUpTo(s.log, r); }
    assert next < r ==> IsDone(s, next);
    assert IsDone(s, next) ==> next in DoneRows(s);
  }

  lemma StepCountsUp(s: State, n: nat, step: Step)
    requires Safe(s) && InOrder(s) && CountsUp(s.log) && !step.Enqueue?
    requires forall id :: id in s.rows <==> 1 <= id <= n
    ensures CountsUp(Apply(s, step).log)
  {
    if step.Advance? && Enabled(s, step.t) && s.txs[step.t].Finishing? { NextInLine(s, n, step.t); }
  }

  lemma {:induction false} NoEnqueued(steps: seq<Step>)
    requires NoInserts(steps)
    ensures Enqueued(steps) == {}
  {
    if steps != [] { NoEnqueued(steps[..|steps| - 1]); }
  }

  /** In a blocking round the i-th commit is job i, on every schedule and with
      rollbacks at any point. */
  lemma {:induction false} BlockingRoundCountsUp(s: State, n: nat, steps: seq<Step>)
    requires s == Start(Blocking, n).(txs := map[])
    requires NoInserts(steps)
    ensures CountsUp(Run(s, steps).log)
    decreases |steps|
  {
    if steps != [] {
      var earlier := steps[..|steps| - 1];
      BlockingRoundCountsUp(s, n, earlier);
      NoInsertsAscend(s, earlier);
      BlockingServesInOrder(s, earlier);
      RunIsSafe(s, earlier);
      RunKeepsRows(s, earlier);
      NoEnqueued(earlier);
      StepCountsUp(Run(s, earlier), n, steps[|steps| - 1]);
    }
  }

  // The runner itself

  ghost predicate Recorded(s: State, n: nat, claims: seq<int>) {
    |claims| == n
    && forall w: nat :: w < n && w in s.txs && s.txs[w].Committed? ==> claims[w] == s.txs[w].row
  }

  lemma RecordStep(s: State, n: nat, w: nat, claims: seq<int>)
    requires w < n && Enabled(s, w) && Recorded(s, n, claims)
    ensures var tx := NextTx(s, w);
            Recorded(Next(s, w), n, if tx.Committed? then claims[w := tx.row] else claims)
  {
  }

  /** runRound: resets the table, lets the n workers interleave in any order,
      and returns each worker's claim in worker order. */
  method RunRound(mode: Mode, n: nat) returns (claims: array<int>)
    ensures fresh(claims) && claims.Length == n
    ensures forall w :: 0 <= w < n ==> 1 <= claims[w] <= n
    ensures forall w, v :: 0 <= w < v < n ==> claims[w] != claims[v]
  {
    var s := Start(mode, n);
    StartInRound(mode, n);
    claims := new int[n];
    while !Finished(s)
      invariant InRound(s, n)
      invariant Recorded(s, n, claims[..])
      decreases Measure(s, n, n)
    {
      RoundNotStuck(s, n);
      var w :| 0 <= w < n && Enabled(s, w);
      StepFalls(s, n, w);
      RecordStep(s, n, w, claims[..]);
      s := Next(s, w);
      if s.txs[w].Committed? { claims[w] := s.txs[w].row; }
    }
    FinishedRound(s, n);
  }
}
