/** Runs of the job queue put together from short ones. */
module JobRuns {
  import opened Sets
  import opened JobQueue

  lemma OneStep(s: State, a: Step) returns (steps: seq<Step>)
    ensures steps == [a] && Run(s, steps) == Apply(s, a)
  {
    steps := [a];
    QueueRunMore(s, [], a);
    assert [] + [a] == steps;
  }

  lemma TwoSteps(s: State, a: Step, b: Step) returns (steps: seq<Step>)
    ensures steps == [a, b] && Run(s, steps) == Apply(Apply(s, a), b)
  {
    RunTogether(s, [a], [b]);
    var first := OneStep(s, a);
    var second := OneStep(Apply(s, a), b);
    steps := first + second;
  }

  lemma InTurn(s: State, a: seq<Step>, b: seq<Step>, c: seq<Step>, d: seq<Step>) returns (steps: seq<Step>)
    ensures steps == a + b + c + d && Run(s, steps) == Run(Run(Run(Run(s, a), b), c), d)
  {
    RunTogether(s, a, b);
    RunTogether(s, a + b, c);
    RunTogether(s, a + b + c, d);
    steps := a + b + c + d;
  }

  /** Begin and the claim's snapshot. */
  lemma Begins(s: State, t: nat) returns (steps: seq<Step>)
    requires t !in s.txs
    ensures NoInserts(steps) && Run(s, steps) == s.(txs := s.txs[t := Scanning(PendingRows(s))])
  {
    var called, begun := s.(txs := s.txs[t := Called]), s.(txs := s.txs[t := Open]);
    var first := TwoSteps(s, Call(t), Advance(t));
    assert called.txs[t := Open] == begun.txs;
    assert Apply(called, Advance(t)) == begun;
    var second := OneStep(begun, Advance(t));
    assert PendingRows(begun) == PendingRows(s) && begun.txs[t := Scanning(PendingRows(s))] == s.txs[t := Scanning(PendingRows(s))];
    RunTogether(s, first, second);
    steps := first + second;
  }

  /** A free pending row is claimed. */
  lemma Claims(s: State, t: nat, todo: set<int>) returns (steps: seq<Step>)
    requires t in s.txs && s.txs[t] == Scanning(todo) && todo != {} && IsPending(s, Least(todo)) && !Locked(s, Least(todo))
    ensures NoInserts(steps) && Run(s, steps) == s.(txs := s.txs[t := Holding(Least(todo))])
  {
    steps := OneStep(s, Advance(t));
  }

  /** A claimed row is updated and committed. */
  lemma Commits(s: State, t: nat, r: int) returns (steps: seq<Step>)
    requires t in s.txs && s.txs[t] == Holding(r)
    ensures NoInserts(steps)
    ensures Run(s, steps) == s.(rows := s.rows[r := Done], txs := s.txs[t := Committed(r)], log := s.log + [Claim(t, r)])
  {
    steps := TwoSteps(s, Advance(t), Advance(t));
    assert Apply(s, Advance(t)) == s.(txs := s.txs[t := Finishing(r)]);
    assert s.txs[t := Finishing(r)][t := Committed(r)] == s.txs[t := Committed(r)];
  }

  /** A new call takes the least pending row when nobody holds it. */
  lemma TakesLeast(s: State, t: nat) returns (steps: seq<Step>)
    requires t !in s.txs && PendingRows(s) != {} && !Locked(s, Least(PendingRows(s)))
    ensures NoInserts(steps) && Run(s, steps) == s.(txs := s.txs[t := Holding(Least(PendingRows(s)))])
  {
    var todo := PendingRows(s);
    var r, scanning := Least(todo), s.(txs := s.txs[t := Scanning(todo)]);
    assert r in todo;
    var begin := Begins(s, t);
    assert !Locked(scanning, r) by { assert forall u :: u in scanning.txs && u != t ==> u in s.txs && !Holds(s.txs[u], r); }
    var claim := Claims(scanning, t, todo);
    assert scanning.txs[t := Holding(r)] == s.txs[t := Holding(r)];
    RunTogether(s, begin, claim);
    steps := begin + claim;
  }

  /** ... and, left alone, commits it. */
  lemma ServesLeast(s: State, t: nat) returns (steps: seq<Step>)
    requires t !in s.txs && PendingRows(s) != {} && !Locked(s, Least(PendingRows(s)))
    ensures NoInserts(steps)
    ensures var r := Least(PendingRows(s));
            Run(s, steps) == s.(rows := s.rows[r := Done], txs := s.txs[t := Committed(r)], log := s.log + [Claim(t, r)])
  {
    var r := Least(PendingRows(s));
    var holding := s.(txs := s.txs[t := Holding(r)]);
    var take := TakesLeast(s, t);
    var commit := Commits(holding, t, r);
    assert holding.txs[t := Committed(r)] == s.txs[t := Committed(r)];
    RunTogether(s, take, commit);
    steps := take + commit;
  }
}
