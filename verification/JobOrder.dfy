/** Which insert orders let blocking claims serve jobs in id order, one worker
    at a time. A serial id is drawn before its insert commits, so ids need not
    become visible in ascending order. */
module JobOrder {
  import opened Sets
  import opened JobQueue
  import opened JobRuns

  /** The ids a run inserts, in order; an id that is there already is refused. */
  function Inserts(s: State, steps: seq<Step>): seq<int>
    decreases |steps|
  {
    if steps == [] then []
    else
      var before, last := Inserts(s, steps[..|steps| - 1]), steps[|steps| - 1];
      if last.Enqueue? && last.id !in s.rows && last.id !in before then before + [last.id] else before
  }

  ghost predicate Ascending(ids: seq<int>) { forall i, j :: 0 <= i < j < |ids| ==> ids[i] < ids[j] }

  /** Ids a run from s can insert: new ones, each once. */
  ghost predicate Insertable(s: State, ids: seq<int>) {
    && (forall i :: 0 <= i < |ids| ==> ids[i] !in s.rows)
    && forall i, j :: 0 <= i < j < |ids| ==> ids[i] != ids[j]
  }

  /** Every id is above all that were there before it. */
  ghost predicate Newer(s: State, ids: seq<int>) {
    Ascending(ids) && forall r, i :: r in s.rows && 0 <= i < |ids| ==> r < ids[i]
  }

  ghost predicate ServedInOrder(s: State) { forall i, j :: 0 <= i < j < |s.log| ==> s.log[i].job < s.log[j].job }

  ghost predicate OneAtATime(s: State) {
    forall t, u, r, x :: t in s.txs && u in s.txs && Holds(s.txs[t], r) && Holds(s.txs[u], x) ==> t == u
  }

  // Newer ids keep both

  lemma {:induction false} InsertedRows(s: State, steps: seq<Step>)
    ensures forall r :: r in s.rows || r in Enqueued(steps) <==> r in s.rows || r in Inserts(s, steps)
    decreases |steps|
  {
    if steps != [] { InsertedRows(s, steps[..|steps| - 1]); }
  }

  lemma NewerBefore(s: State, ids: seq<int>, id: int)
    requires Newer(s, ids + [id])
    ensures Newer(s, ids)
    ensures forall r :: r in s.rows || r in ids ==> r < id
  {
    var all := ids + [id];
    assert all[|ids|] == id && forall i :: 0 <= i < |ids| ==> all[i] == ids[i];
  }

  lemma {:induction false} NewerAscend(s: State, steps: seq<Step>)
    requires Initial(s) && Newer(s, Inserts(s, steps))
    ensures AscendingInserts(s, steps)
    decreases |steps|
  {
    if steps != [] {
      var before, last := steps[..|steps| - 1], steps[|steps| - 1];
      var ids := Inserts(s, before);
      RunKeepsRows(s, before);
      InsertedRows(s, before);
      if last.Enqueue? && last.id !in s.rows && last.id !in ids { NewerBefore(s, ids, last.id); }
      NewerAscend(s, before);
    }
  }

  lemma NewerServed(s: State, steps: seq<Step>)
    requires Initial(s) && s.mode == Blocking && Newer(s, Inserts(s, steps))
    ensures ServedInOrder(Run(s, steps)) && OneAtATime(Run(s, steps))
  {
    NewerAscend(s, steps);
    BlockingServesInOrder(s, steps);
  }

  // Any other order breaks both

  lemma InsertsMore(s: State, steps: seq<Step>, step: Step)
    ensures Inserts(s, steps + [step]) ==
              if step.Enqueue? && step.id !in s.rows && step.id !in Inserts(s, steps)
              then Inserts(s, steps) + [step.id] else Inserts(s, steps)
  {
    assert (steps + [step])[..|steps|] == steps;
  }

  lemma {:induction false} NoMoreInserts(s: State, steps: seq<Step>, more: seq<Step>)
    requires NoInserts(more)
    ensures Inserts(s, steps + more) == Inserts(s, steps)
    decreases |more|
  {
    if more == [] {
      assert steps + more == steps;
    } else {
      var n := |more| - 1;
      NoMoreInserts(s, steps, more[..n]);
      InsertsMore(s, steps + more[..n], more[n]);
      assert steps + more == (steps + more[..n]) + [more[n]];
    }
  }

  /** A run followed by steps that insert nothing. */
  lemma GoesOn(s: State, steps: seq<Step>, more: seq<Step>) returns (longer: seq<Step>)
    requires NoInserts(more)
    ensures Run(s, longer) == Run(Run(s, steps), more) && Inserts(s, longer) == Inserts(s, steps)
  {
    longer := steps + more;
    RunTogether(s, steps, more);
    NoMoreInserts(s, steps, more);
  }

  function WithPending(rows: map<int, Status>, ids: seq<int>): map<int, Status> {
    if ids == [] then rows else WithPending(rows, ids[..|ids| - 1])[ids[|ids| - 1] := Pending]
  }

  lemma {:induction false} PendingAdded(rows: map<int, Status>, ids: seq<int>)
    ensures WithPending(rows, ids).Keys == rows.Keys + set id | id in ids
    ensures forall r :: r in WithPending(rows, ids) ==> WithPending(rows, ids)[r] == if r in ids then Pending else rows[r]
  {
    if ids != [] {
      var n := |ids| - 1;
      PendingAdded(rows, ids[..n]);
      assert ids == ids[..n] + [ids[n]];
    }
  }

  /** One more insert at the end of a run. */
  lemma InsertOne(s: State, steps: seq<Step>, id: int) returns (longer: seq<Step>)
    requires id !in s.rows && id !in Inserts(s, steps) && id !in Run(s, steps).rows
    ensures Inserts(s, longer) == Inserts(s, steps) + [id]
    ensures var e := Run(s, steps); Run(s, longer) == e.(rows := e.rows[id := Pending])
  {
    longer := steps + [Enqueue(id)];
    QueueRunMore(s, steps, Enqueue(id));
    InsertsMore(s, steps, Enqueue(id));
  }

  /** Many more. */
  lemma {:induction false} InsertAll(s: State, steps: seq<Step>, ids: seq<int>) returns (longer: seq<Step>)
    requires Insertable(Run(s, steps), ids)
    requires forall i :: 0 <= i < |ids| ==> ids[i] !in s.rows && ids[i] !in Inserts(s, steps)
    ensures Inserts(s, longer) == Inserts(s, steps) + ids
    ensures var e := Run(s, steps); Run(s, longer) == e.(rows := WithPending(e.rows, ids))
  {
    if ids == [] {
      longer := steps;
    } else {
      var n := |ids| - 1;
      var most := InsertAll(s, steps, ids[..n]);
      PendingAdded(Run(s, steps).rows, ids[..n]);
      longer := InsertOne(s, most, ids[n]);
      assert Inserts(s, steps) + ids == Inserts(s, steps) + ids[..n] + [ids[n]];
    }
  }

  /** Every call so far has ended, and the ids from n are unused. */
  ghost predicate Idle(s: State, n: nat) { forall t :: t in s.txs ==> t < n && Terminal(s.txs[t]) }

  /** Workers one after the other serve everything but the greatest pending row. */
  lemma {:induction false} LeavesGreatest(s: State, n: nat) returns (steps: seq<Step>, n': nat, g: int)
    requires Idle(s, n) && PendingRows(s) != {}
    ensures NoInserts(steps)
    ensures var e := Run(s, steps);
            && Idle(e, n') && e.mode == s.mode && e.rows.Keys == s.rows.Keys && PendingRows(e) == {g}
            && forall r :: r in PendingRows(s) ==> r <= g
    decreases |PendingRows(s)|
  {
    var r := Least(PendingRows(s));
    if PendingRows(s) == {r} {
      steps, n', g := [], n, r;
    } else {
      var first := ServesLeast(s, n);
      var after := Run(s, first);
      assert PendingRows(after) == PendingRows(s) - {r};
      var more;
      more, n', g := LeavesGreatest(after, n + 1);
      RunTogether(s, first, more);
      steps := first + more;
      assert forall x :: x in PendingRows(s) ==> x == r || x in PendingRows(after);
      var y := AnyMember(PendingRows(after));
    }
  }

  /** With only g pending, a worker takes g; a smaller id inserted then is taken
      by another worker. */
  lemma SmallerTaken(s: State, steps: seq<Step>, n: nat, g: int, id: int) returns (longer: seq<Step>)
    requires Idle(Run(s, steps), n) && PendingRows(Run(s, steps)) == {g} && id < g
    requires id !in s.rows && id !in Inserts(s, steps) && id !in Run(s, steps).rows
    ensures Inserts(s, longer) == Inserts(s, steps) + [id]
    ensures var e := Run(s, steps);
            Run(s, longer) == e.(rows := e.rows[id := Pending], txs := e.txs[n := Holding(g)][n + 1 := Holding(id)])
  {
    var e := Run(s, steps);
    assert g in PendingRows(e) && Least({g}) == g;
    var take := TakesLeast(e, n);
    var one := GoesOn(s, steps, take);
    var two := InsertOne(s, one, id);
    var e2 := Run(s, two);
    assert PendingRows(e2) == {g, id} && Least({g, id}) == id;
    assert !Locked(e2, id);
    var takeToo := TakesLeast(e2, n + 1);
    longer := GoesOn(s, two, takeToo);
  }

  /** The first of two held rows committed before the second. */
  lemma BothCommit(s: State, t: nat, u: nat, g: int, id: int) returns (steps: seq<Step>)
    requires t in s.txs && u in s.txs && t != u && s.txs[t] == Holding(g) && s.txs[u] == Holding(id)
    ensures NoInserts(steps) && Run(s, steps).log == s.log + [Claim(t, g)] + [Claim(u, id)]
  {
    var first := Commits(s, t, g);
    var second := Commits(Run(s, first), u, id);
    RunTogether(s, first, second);
    steps := first + second;
  }

  /** ids inserted and all rows but the greatest served. */
  lemma ServesToGreatest(s: State, ids: seq<int>, r: int) returns (steps: seq<Step>, t: nat, g: int)
    requires Initial(s) && Insertable(s, ids) && (r in s.rows || r in ids)
    ensures Inserts(s, steps) == ids
    ensures var e := Run(s, steps);
            && Idle(e, t) && PendingRows(e) == {g} && r <= g
            && forall x :: x in e.rows <==> x in s.rows || x in ids
  {
    var inserted := InsertAll(s, [], ids);
    var e0 := Run(s, inserted);
    PendingAdded(s.rows, ids);
    assert r in PendingRows(e0) by { assert r !in DoneRows(s); }
    var drain;
    drain, t, g := LeavesGreatest(e0, 0);
    steps := GoesOn(s, inserted, drain);
  }

  lemma InsertRest(s: State, steps: seq<Step>, before: seq<int>, rest: seq<int>) returns (longer: seq<Step>)
    requires Insertable(s, before + rest) && Inserts(s, steps) == before
    requires forall x :: x in Run(s, steps).rows <==> x in s.rows || x in before
    ensures Inserts(s, longer) == before + rest && Run(s, longer).txs == Run(s, steps).txs
  {
    var ids := before + rest;
    forall i | 0 <= i < |rest|
      ensures rest[i] !in s.rows && rest[i] !in before
    {
      assert rest[i] == ids[|before| + i];
      assert forall k :: 0 <= k < |before| ==> before[k] == ids[k];
    }
    forall i, k | 0 <= i < k < |rest|
      ensures rest[i] != rest[k]
    {
      assert rest[i] == ids[|before| + i] && rest[k] == ids[|before| + k];
    }
    longer := InsertAll(s, steps, rest);
  }

  lemma InsertableFirst(s: State, ids: seq<int>, j: nat)
    requires Insertable(s, ids) && j < |ids|
    ensures Insertable(s, ids[..j]) && ids[j] !in ids[..j]
    ensures ids[..j] + [ids[j]] + ids[j + 1..] == ids
  {
  }

  /** ids[j] comes after a greater id: two workers hold rows at once. */
  lemma LateIdHeld(s: State, ids: seq<int>, j: nat, r: int) returns (steps: seq<Step>, t: nat, g: int)
    requires Initial(s) && Insertable(s, ids) && j < |ids|
    requires (r in s.rows || r in ids[..j]) && ids[j] < r
    ensures Inserts(s, steps) == ids
    ensures var e := Run(s, steps);
            t in e.txs && t + 1 in e.txs && e.txs[t] == Holding(g) && e.txs[t + 1] == Holding(ids[j]) && ids[j] < g
  {
    var before, id := ids[..j], ids[j];
    InsertableFirst(s, ids, j);
    var served;
    served, t, g := ServesToGreatest(s, before, r);
    var held := SmallerTaken(s, served, t, g, id);
    steps := InsertRest(s, held, before + [id], ids[j + 1..]);
  }

  lemma LateIdServed(s: State, ids: seq<int>, j: nat, r: int) returns (steps: seq<Step>)
    requires Initial(s) && Insertable(s, ids) && j < |ids|
    requires (r in s.rows || r in ids[..j]) && ids[j] < r
    ensures Inserts(s, steps) == ids && !ServedInOrder(Run(s, steps))
  {
    var held, t, g := LateIdHeld(s, ids, j, r);
    var e := Run(s, held);
    var commits := BothCommit(e, t, t + 1, g, ids[j]);
    steps := GoesOn(s, held, commits);
    var log := Run(s, steps).log;
    assert log[|e.log|] == Claim(t, g) && log[|e.log| + 1] == Claim(t + 1, ids[j]);
  }

  lemma LateId(s: State, ids: seq<int>) returns (j: nat, r: int)
    requires Insertable(s, ids) && !Newer(s, ids)
    ensures j < |ids| && (r in s.rows || r in ids[..j]) && ids[j] < r
  {
    if !Ascending(ids) {
      var i, k :| 0 <= i < k < |ids| && !(ids[i] < ids[k]);
      j, r := k, ids[i];
      assert ids[..k][i] == r;
    } else {
      var x, i :| x in s.rows && 0 <= i < |ids| && !(x < ids[i]);
      j, r := i, x;
    }
  }

  /** Whatever the interleaving and whatever rolls back, blocking claims commit
      in ascending id order, and two workers never hold rows at once, exactly
      when every id is inserted above all that were there before it. */
  lemma OrderKeptExactlyWhen(s: State, ids: seq<int>)
    requires Initial(s) && s.mode == Blocking && Insertable(s, ids)
    ensures (forall steps :: Inserts(s, steps) == ids ==> ServedInOrder(Run(s, steps))) <==> Newer(s, ids)
    ensures (forall steps :: Inserts(s, steps) == ids ==> OneAtATime(Run(s, steps))) <==> Newer(s, ids)
  {
    if Newer(s, ids) {
      forall steps | Inserts(s, steps) == ids
        ensures ServedInOrder(Run(s, steps)) && OneAtATime(Run(s, steps))
      {
        NewerServed(s, steps);
      }
    } else {
      var j, r := LateId(s, ids);
      var served := LateIdServed(s, ids, j, r);
      var held, t, g := LateIdHeld(s, ids, j, r);
      assert Inserts(s, served) == ids && !ServedInOrder(Run(s, served));
      assert Holds(Run(s, held).txs[t], g) && Holds(Run(s, held).txs[t + 1], ids[j]);
      assert Inserts(s, held) == ids && !OneAtATime(Run(s, held));
    }
  }

  /** From the empty table, the condition is about the inserts alone. */
  lemma EmptyTableOrder(ids: seq<int>)
    requires Insertable(Empty(Blocking), ids)
    ensures (forall steps :: Inserts(Empty(Blocking), steps) == ids ==> ServedInOrder(Run(Empty(Blocking), steps))) <==> Ascending(ids)
  {
    OrderKeptExactlyWhen(Empty(Blocking), ids);
  }

  /** The smallest such run: two ids, the greater inserted first. */
  lemma LateSmallIdBreaksOrder(small: int, great: int) returns (steps: seq<Step>)
    requires small < great
    ensures Inserts(Empty(Blocking), steps) == [great, small]
    ensures Run(Empty(Blocking), steps).log == [Claim(0, great), Claim(1, small)]
  {
    var s := Empty(Blocking);
    var one := InsertOne(s, [], great);
    assert PendingRows(Run(s, one)) == {great};
    var held := SmallerTaken(s, one, 0, great, small);
    var commits := BothCommit(Run(s, held), 0, 1, great, small);
    steps := GoesOn(s, held, commits);
  }
}
