/** Every schedule of the job queue ends, whatever the interleaving. */
module JobSchedules {
  import opened Sets
  import opened JobQueue

  /** A call's own step, or its rollback, when that is possible. */
  predicate Possible(s: State, step: Step) {
    match step
    case Advance(t) => Enabled(s, t)
    case Rollback(t) => t in s.txs && !Terminal(s.txs[t])
    case _ => false
  }

  /** Steps that are each possible when their turn comes. */
  ghost predicate Schedule(s: State, steps: seq<Step>)
    decreases |steps|
  {
    steps == [] || (Possible(s, steps[0]) && Schedule(Apply(s, steps[0]), steps[1..]))
  }

  function Play(s: State, steps: seq<Step>): State
    decreases |steps|
  {
    if steps == [] then s else Play(Apply(s, steps[0]), steps[1..])
  }

  /** What is left to do for the calls 0..n-1 in a table of so many rows. */
  function Remaining(txs: map<nat, Tx>, rows: nat, n: nat): nat {
    if n == 0 then 0
    else Remaining(txs, rows, n - 1) + (if n - 1 in txs then Weight(txs[n - 1], rows) else 0)
  }

  lemma {:induction false} RemainingFalls(txs: map<nat, Tx>, rows: nat, n: nat, t: nat, tx: Tx)
    requires t in txs && Weight(tx, rows) < Weight(txs[t], rows)
    ensures Remaining(txs[t := tx], rows, n) + (if t < n then 1 else 0) <= Remaining(txs, rows, n)
  {
    if n > 0 { RemainingFalls(txs, rows, n - 1, t, tx); }
  }

  lemma WeightBound(s: State, tx: Tx)
    requires TxFits(s, tx)
    ensures Weight(tx, |s.rows|) <= 2 * |s.rows| + 5
  {
    match tx
    case Scanning(todo) => SubsetSize(todo, s.rows.Keys);
    case Waiting(_, rest) => SubsetSize(rest, s.rows.Keys);
    case _ =>
  }

  lemma {:induction false} RemainingBound(s: State, n: nat)
    requires Safe(s)
    ensures Remaining(s.txs, |s.rows|, n) <= n * (2 * |s.rows| + 5)
  {
    if n > 0 {
      var c := 2 * |s.rows| + 5;
      RemainingBound(s, n - 1);
      if n - 1 in s.txs { WeightBound(s, s.txs[n - 1]); }
      assert (n - 1) * c + c == n * c;
    }
  }

  lemma AdvanceFalls(s: State, t: nat)
    requires Safe(s) && Enabled(s, t)
    ensures Weight(NextTx(s, t), |s.rows|) < Weight(s.txs[t], |s.rows|)
  {
    SubsetSize(PendingRows(s), s.rows.Keys);
    match s.txs[t]
    case Scanning(todo) => if todo != {} { RemoveSize(todo, Least(todo)); }
    case _ =>
  }

  lemma PossibleFalls(s: State, step: Step, n: nat)
    requires Safe(s) && Possible(s, step) && forall t :: t in s.txs ==> t < n
    ensures var s' := Apply(s, step);
            && Safe(s') && s'.rows.Keys == s.rows.Keys && s'.txs.Keys == s.txs.Keys
            && Remaining(s'.txs, |s.rows|, n) < Remaining(s.txs, |s.rows|, n)
  {
    var t, s' := step.t, Apply(s, step);
    StepIsSafe(s, step);
    assert TxFits(s, s.txs[t]);
    if step.Advance? { AdvanceFalls(s, t); }
    assert s'.txs == s.txs[t := s'.txs[t]];
    RemainingFalls(s.txs, |s.rows|, n, t, s'.txs[t]);
  }

  lemma {:induction false} ScheduleEnds(s: State, n: nat, steps: seq<Step>)
    requires Safe(s) && (forall t :: t in s.txs ==> t < n) && Schedule(s, steps)
    ensures |steps| <= Remaining(s.txs, |s.rows|, n) <= n * (2 * |s.rows| + 5)
    ensures var e := Play(s, steps);
            && e.rows.Keys == s.rows.Keys && e.txs.Keys == s.txs.Keys
            && ((forall t :: !Enabled(e, t)) ==> forall t :: t in e.txs ==> Terminal(e.txs[t]))
    decreases |steps|
  {
    RemainingBound(s, n);
    if steps == [] {
      if t :| t in s.txs && !Terminal(s.txs[t]) { NeverStuck(s, t); }
    } else {
      var next := Apply(s, steps[0]);
      PossibleFalls(s, steps[0], n);
      assert |next.rows| == |next.rows.Keys| == |s.rows|;
      ScheduleEnds(next, n, steps[1..]);
    }
  }

  /** After the last insert and the last call of any run, in either mode and with
      rollbacks at any point, at most 2R + 5 steps a call are left for R rows;
      when none is possible any more, every call has committed or rolled back,
      with no rollback needed to get there. */
  lemma EveryScheduleEnds(s: State, before: seq<Step>, n: nat, steps: seq<Step>)
    requires Initial(s) && (forall t :: t in Run(s, before).txs ==> t < n) && Schedule(Run(s, before), steps)
    ensures |steps| <= n * (2 * |Run(s, before).rows| + 5)
    ensures var e := Play(Run(s, before), steps);
            && e.txs.Keys == Run(s, before).txs.Keys
            && ((forall t :: !Enabled(e, t)) ==> forall t :: t in e.txs ==> Terminal(e.txs[t]))
  {
    RunIsSafe(s, before);
    ScheduleEnds(Run(s, before), n, steps);
  }
}
