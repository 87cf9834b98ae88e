/** The exactly-once counter protocol as interleaved steps.

    One delivery is one Read Committed transaction: the idempotent strategy first
    inserts into job_seen (`on conflict do nothing` waits for a transaction that
    inserted the same key and is still open), then the counter row is updated
    under its row lock and both become visible at commit. */
module JobCounter {

  datatype Strategy = Naive | Idempotent

  datatype Phase =
    | Called
    | Begun
    | AwaitSeen                 // the insert waits for another open insert of the event
    | Decided(claimed: bool)    // Claim returned
    | AwaitCounter              // the update waits for the counter row's lock
    | Updated(total: int)       // counter row locked; `returning total`
    | Committed(applied: bool, total: int)
    | RolledBack

  datatype Delivery = Delivery(strategy: Strategy, event: int, phase: Phase)

  datatype Entry = Entry(id: nat, strategy: Strategy, event: int, applied: bool, total: int)

  /** counter and seen are the committed tables; log the committed deliveries in
      commit order. */
  datatype State = State(counter: map<Strategy, int>, seen: set<int>, txs: map<nat, Delivery>, log: seq<Entry>)

  /** job_counter.total is a PostgreSQL integer: past this the update fails. */
  const MAX_TOTAL := 0x7fff_ffff

  predicate Terminal(p: Phase) { p.Committed? || p.RolledBack? }

  /** An uncommitted job_seen row of its own. */
  predicate HoldsSeen(d: Delivery, event: int) {
    d.strategy.Idempotent? && d.event == event
    && (d.phase == Decided(true) || d.phase.AwaitCounter? || d.phase.Updated?)
  }

  predicate HoldsCounter(d: Delivery, strategy: Strategy) {
    d.strategy == strategy && d.phase.Updated?
  }

  predicate SeenBusy(s: State, event: int) { exists t :: t in s.txs && HoldsSeen(s.txs[t], event) }

  predicate CounterBusy(s: State, strategy: Strategy) {
    exists t :: t in s.txs && HoldsCounter(s.txs[t], strategy)
  }

  predicate Enabled(s: State, t: nat)
  {
    t in s.txs && match s.txs[t].phase
                  case AwaitSeen => !SeenBusy(s, s.txs[t].event)
                  case AwaitCounter => !CounterBusy(s, s.txs[t].strategy)
                  case p => !Terminal(p)
  }

  /** Strategy.Claim. */
  function Claim(s: State, d: Delivery): Phase {
    if d.strategy.Naive? then Decided(true)
    else if d.event in s.seen then Decided(false)
    else if SeenBusy(s, d.event) then AwaitSeen
    else Decided(true)
  }

  /** update job_counter set total = total + 1 where mode = $1 returning total;
      a missing row and an integer overflow are errors, so the call rolls back. */
  function Update(s: State, d: Delivery): Phase {
    if d.strategy !in s.counter then RolledBack
    else if CounterBusy(s, d.strategy) then AwaitCounter
    else if s.counter[d.strategy] >= MAX_TOTAL then RolledBack
    else Updated(s.counter[d.strategy] + 1)
  }

  function NextPhase(s: State, t: nat): Phase
    requires Enabled(s, t)
  {
    var d := s.txs[t];
    match d.phase
    case Called => Begun
    case Begun => Claim(s, d)
    case AwaitSeen => Claim(s, d)
    case Decided(claimed) => if claimed then Update(s, d) else Committed(false, 0)
    case AwaitCounter => Update(s, d)
    case Updated(total) => Committed(true, total)
    case p => p
  }

  function Next(s: State, t: nat): State
    requires Enabled(s, t)
  {
    var d, p := s.txs[t], NextPhase(s, t);
    var s' := s.(txs := s.txs[t := d.(phase := p)]);
    if !p.Committed? then s'
    else
      var s'' := s'.(log := s.log + [Entry(t, d.strategy, d.event, p.applied, p.total)]);
      if !p.applied then s''
      else s''.(counter := s.counter[d.strategy := p.total],
                seen := if d.strategy.Idempotent? then s.seen + {d.event} else s.seen)
  }

  datatype Step =
    | Call(t: nat, strategy: Strategy, event: int)
    | Advance(t: nat)
    | Rollback(t: nat)

  /** A step that is not possible in s changes nothing. */
  function Apply(s: State, step: Step): State
  {
    match step
    case Call(t, strategy, event) =>
      if t in s.txs then s else s.(txs := s.txs[t := Delivery(strategy, event, Called)])
    case Advance(t) => if Enabled(s, t) then Next(s, t) else s
    case Rollback(t) =>
      if t in s.txs && !Terminal(s.txs[t].phase) then s.(txs := s.txs[t := s.txs[t].(phase := RolledBack)]) else s
  }

  function Run(s: State, steps: seq<Step>): State
    decreases |steps|
  {
    if steps == [] then s else Apply(Run(s, steps[..|steps| - 1]), steps[|steps| - 1])
  }

  /** After reset: zeroed counter rows (one may be missing), nothing seen. */
  predicate Initial(s: State) {
    (forall m :: m in s.counter ==> s.counter[m] == 0) && s.seen == {} && s.txs == map[] && s.log == []
  }

  // What the log says

  /** The totals the applied deliveries of one strategy returned, in commit order. */
  function Totals(log: seq<Entry>, strategy: Strategy): seq<int>
  {
    if log == [] then []
    else
      var e := log[|log| - 1];
      Totals(log[..|log| - 1], strategy) + (if e.applied && e.strategy == strategy then [e.total] else [])
  }

  /** The events of the applied idempotent deliveries, in commit order. */
  function Events(log: seq<Entry>): seq<int>
  {
    if log == [] then []
    else
      var e := log[|log| - 1];
      Events(log[..|log| - 1]) + (if e.applied && e.strategy.Idempotent? then [e.event] else [])
  }

  ghost predicate CountsUp(totals: seq<int>) { forall i :: 0 <= i < |totals| ==> totals[i] == i + 1 }

  ghost predicate Distinct<T>(xs: seq<T>) { forall i, j :: 0 <= i < j < |xs| ==> xs[i] != xs[j] }

  function Elements<T>(xs: seq<T>): set<T> { set x | x in xs }

  function Stored(counter: map<Strategy, int>, strategy: Strategy): int {
    if strategy in counter then counter[strategy] else 0
  }

  // The invariant

  ghost predicate LocksExclusive(s: State) {
    && (forall t, u, m :: t in s.txs && u in s.txs && HoldsCounter(s.txs[t], m) && HoldsCounter(s.txs[u], m) ==> t == u)
    && (forall t, u, e :: t in s.txs && u in s.txs && HoldsSeen(s.txs[t], e) && HoldsSeen(s.txs[u], e) ==> t == u)
  }

  ghost predicate TxFits(s: State, d: Delivery) {
    match d.phase
    case Decided(claimed) =>
      if claimed then d.strategy.Idempotent? ==> d.event !in s.seen
      else d.strategy.Idempotent? && d.event in s.seen
    case AwaitSeen => d.strategy.Idempotent?
    case AwaitCounter => d.strategy.Idempotent? ==> d.event !in s.seen
    case Updated(total) =>
      && d.strategy in s.counter && total == s.counter[d.strategy] + 1 <= MAX_TOTAL
      && (d.strategy.Idempotent? ==> d.event !in s.seen)
    case Committed(applied, _) =>
      && (d.strategy.Naive? ==> applied)
      && (d.strategy.Idempotent? ==> d.event in s.seen)
    case _ => true
  }

  ghost predicate Logged(log: seq<Entry>, t: nat) { exists i :: 0 <= i < |log| && log[i].id == t }

  /** The log holds each committed delivery once, as it was returned. */
  ghost predicate LogFits(txs: map<nat, Delivery>, log: seq<Entry>) {
    && (forall i :: 0 <= i < |log| ==>
          log[i].id in txs
          && txs[log[i].id] == Delivery(log[i].strategy, log[i].event, Committed(log[i].applied, log[i].total)))
    && (forall i, j :: 0 <= i < j < |log| ==> log[i].id != log[j].id)
    && (forall t :: t in txs && txs[t].phase.Committed? ==> Logged(log, t))
  }

  /** The committed tables agree with the committed deliveries. */
  ghost predicate TablesFit(counter: map<Strategy, int>, seen: set<int>, log: seq<Entry>) {
    && (forall m :: CountsUp(Totals(log, m)) && |Totals(log, m)| == Stored(counter, m))
    && Distinct(Events(log))
    && |Events(log)| == Stored(counter, Idempotent)
    && seen == Elements(Events(log))
  }

  ghost predicate Consistent(s: State) {
    && LocksExclusive(s)
    && (forall t :: t in s.txs ==> TxFits(s, s.txs[t]))
    && LogFits(s.txs, s.log)
    && TablesFit(s.counter, s.seen, s.log)
  }

  lemma NextKeepsLocks(s: State, t: nat)
    requires Consistent(s) && Enabled(s, t)
    ensures LocksExclusive(Next(s, t))
  {
    var s' := Next(s, t);
    forall u, e | u in s.txs && u != t && HoldsSeen(s.txs[u], e)
      ensures !HoldsSeen(s'.txs[t], e)
    {
      assert SeenBusy(s, e);
    }
    forall u, m | u in s.txs && u != t && HoldsCounter(s.txs[u], m)
      ensures !HoldsCounter(s'.txs[t], m)
    {
      assert CounterBusy(s, m);
    }
  }

  lemma NextKeepsFit(s: State, t: nat, u: nat)
    requires Consistent(s) && Enabled(s, t) && u in s.txs
    ensures TxFits(Next(s, t), Next(s, t).txs[u])
  {
    var s' := Next(s, t);
    assert TxFits(s, s.txs[t]) && TxFits(s, s.txs[u]);
    if u != t && s.txs[t].phase.Updated? {
      var d := s.txs[t];
      assert HoldsCounter(d, d.strategy);
      assert d.strategy.Idempotent? ==> HoldsSeen(d, d.event);
    }
  }

  lemma OtherKeepsLog(txs: map<nat, Delivery>, log: seq<Entry>, t: nat, d: Delivery)
    requires LogFits(txs, log) && (t in txs ==> !txs[t].phase.Committed?) && !d.phase.Committed?
    ensures LogFits(txs[t := d], log)
  {
    assert forall i :: 0 <= i < |log| ==> log[i].id != t;
  }

  lemma CommitKeepsLog(txs: map<nat, Delivery>, log: seq<Entry>, t: nat, d: Delivery)
    requires LogFits(txs, log) && t in txs && !txs[t].phase.Committed? && d.phase.Committed?
    ensures LogFits(txs[t := d], log + [Entry(t, d.strategy, d.event, d.phase.applied, d.phase.total)])
  {
    var log' := log + [Entry(t, d.strategy, d.event, d.phase.applied, d.phase.total)];
    assert forall i :: 0 <= i < |log| ==> log[i].id != t && log'[i] == log[i];
    forall u | u in txs[t := d] && txs[t := d][u].phase.Committed?
      ensures Logged(log', u)
    {
      if u == t {
        assert log'[|log|].id == t;
      } else {
        var i :| 0 <= i < |log| && log[i].id == u;
        assert log'[i].id == u;
      }
    }
  }

  lemma NextKeepsLog(s: State, t: nat)
    requires Consistent(s) && Enabled(s, t)
    ensures LogFits(Next(s, t).txs, Next(s, t).log)
  {
    var d := s.txs[t].(phase := NextPhase(s, t));
    if d.phase.Committed? {
      CommitKeepsLog(s.txs, s.log, t, d);
    } else {
      OtherKeepsLog(s.txs, s.log, t, d);
    }
  }

  lemma LogMore(log: seq<Entry>, e: Entry, m: Strategy)
    ensures Totals(log + [e], m) == Totals(log, m) + (if e.applied && e.strategy == m then [e.total] else [])
    ensures Events(log + [e]) == Events(log) + (if e.applied && e.strategy.Idempotent? then [e.event] else [])
  {
    assert (log + [e])[..|log|] == log;
  }

  lemma AppendDistinct(xs: seq<int>, x: int)
    requires Distinct(xs) && x !in xs
    ensures Distinct(xs + [x])
    ensures Elements(xs + [x]) == Elements(xs) + {x}
  {
  }

  lemma AppliedKeepsTables(counter: map<Strategy, int>, seen: set<int>, log: seq<Entry>, e: Entry)
    requires TablesFit(counter, seen, log)
    requires e.applied && e.strategy in counter && e.total == counter[e.strategy] + 1
    requires e.strategy.Idempotent? ==> e.event !in seen
    ensures TablesFit(counter[e.strategy := e.total],
                      if e.strategy.Idempotent? then seen + {e.event} else seen, log + [e])
  {
    forall m
      ensures CountsUp(Totals(log + [e], m))
      ensures |Totals(log + [e], m)| == Stored(counter[e.strategy := e.total], m)
    {
      LogMore(log, e, m);
    }
    LogMore(log, e, e.strategy);
    if e.strategy.Idempotent? {
      AppendDistinct(Events(log), e.event);
    } else {
      assert Events(log + [e]) == Events(log);
    }
  }

  lemma SkippedKeepsTables(counter: map<Strategy, int>, seen: set<int>, log: seq<Entry>, e: Entry)
    requires TablesFit(counter, seen, log) && !e.applied
    ensures TablesFit(counter, seen, log + [e])
  {
    forall m
      ensures Totals(log + [e], m) == Totals(log, m)
    {
      LogMore(log, e, m);
    }
    LogMore(log, e, Naive);
  }

  lemma NextKeepsTables(s: State, t: nat)
    requires Consistent(s) && Enabled(s, t)
    ensures var s' := Next(s, t); TablesFit(s'.counter, s'.seen, s'.log)
  {
    var d, p := s.txs[t], NextPhase(s, t);
    assert TxFits(s, d);
    if p.Committed? {
      var e := Entry(t, d.strategy, d.event, p.applied, p.total);
      if p.applied {
        AppliedKeepsTables(s.counter, s.seen, s.log, e);
      } else {
        SkippedKeepsTables(s.counter, s.seen, s.log, e);
      }
    }
  }

  /** A delivery that has just been called or rolled back holds no lock. */
  lemma IdleKeepsLocks(s: State, t: nat, d: Delivery)
    requires LocksExclusive(s) && (d.phase.Called? || d.phase.RolledBack?)
    ensures LocksExclusive(s.(txs := s.txs[t := d]))
  {
  }

  lemma IdleKeepsFit(s: State, t: nat, d: Delivery)
    requires (forall u :: u in s.txs ==> TxFits(s, s.txs[u])) && (d.phase.Called? || d.phase.RolledBack?)
    ensures var s' := s.(txs := s.txs[t := d]); forall u :: u in s'.txs ==> TxFits(s', s'.txs[u])
  {
    var s' := s.(txs := s.txs[t := d]);
    forall u | u in s'.txs
      ensures TxFits(s', s'.txs[u])
    {
      assert u != t ==> TxFits(s, s.txs[u]);
    }
  }

  lemma IdleKeeps(s: State, t: nat, d: Delivery)
    requires Consistent(s) && (d.phase.Called? || d.phase.RolledBack?) && (t in s.txs ==> !s.txs[t].phase.Committed?)
    ensures Consistent(s.(txs := s.txs[t := d]))
  {
    IdleKeepsLocks(s, t, d);
    IdleKeepsFit(s, t, d);
    OtherKeepsLog(s.txs, s.log, t, d);
  }

  /** A new call and a rollback leave the tables and the log alone. */
  lemma QuietStepKeeps(s: State, step: Step)
    requires Consistent(s) && !step.Advance?
    ensures Consistent(Apply(s, step))
  {
    match step
    case Call(t, strategy, event) => if t !in s.txs { IdleKeeps(s, t, Delivery(strategy, event, Called)); }
    case Rollback(t) =>
      if t in s.txs && !Terminal(s.txs[t].phase) { IdleKeeps(s, t, s.txs[t].(phase := RolledBack)); }
  }

  lemma StepKeeps(s: State, step: Step)
    requires Consistent(s)
    ensures Consistent(Apply(s, step))
  {
    if !step.Advance? {
      QuietStepKeeps(s, step);
    } else if Enabled(s, step.t) {
      NextKeepsLocks(s, step.t);
      NextKeepsLog(s, step.t);
      NextKeepsTables(s, step.t);
      forall u | u in Next(s, step.t).txs
        ensures TxFits(Next(s, step.t), Next(s, step.t).txs[u])
      {
        NextKeepsFit(s, step.t, u);
      }
    }
  }

  lemma {:induction false} RunKeeps(s: State, steps: seq<Step>)
    requires Initial(s)
    ensures Consistent(Run(s, steps))
    decreases |steps|
  {
    if steps != [] {
      RunKeeps(s, steps[..|steps| - 1]);
      StepKeeps(Run(s, steps[..|steps| - 1]), steps[|steps| - 1]);
    }
  }

  lemma CounterRunMore(s: State, steps: seq<Step>, step: Step)
    ensures Run(s, steps + [step]) == Apply(Run(s, steps), step)
  {
    assert (steps + [step])[..|steps|] == steps;
  }

  /** reset: both tables emptied, one zeroed counter row per strategy. */
  function Reset(): (s: State)
    ensures Initial(s)
  {
    State(map[Naive := 0, Idempotent := 0], {}, map[], [])
  }

  // Exactly once

  /** How many committed idempotent deliveries counted event. */
  function Applications(log: seq<Entry>, event: int): nat
  {
    if log == [] then 0
    else
      var e := log[|log| - 1];
      Applications(log[..|log| - 1], event)
      + (if e.applied && e.strategy.Idempotent? && e.event == event then 1 else 0)
  }

  lemma {:induction false} ApplicationsInEvents(log: seq<Entry>, event: int)
    ensures Applications(log, event) == multiset(Events(log))[event]
  {
    if log != [] {
      ApplicationsInEvents(log[..|log| - 1], event);
    }
  }

  lemma {:induction false} DistinctOnce(xs: seq<int>, x: int)
    requires Distinct(xs)
    ensures multiset(xs)[x] == if x in xs then 1 else 0
    ensures |Elements(xs)| == |xs|
  {
    if xs != [] {
      var init, last := xs[..|xs| - 1], xs[|xs| - 1];
      DistinctOnce(init, x);
      assert xs == init + [last];
      assert last !in init;
      AppendDistinct(init, last);
    }
  }

  lemma CountedOnce(counter: map<Strategy, int>, seen: set<int>, log: seq<Entry>, event: int)
    requires TablesFit(counter, seen, log)
    ensures Stored(counter, Idempotent) == |seen|
    ensures Applications(log, event) == (if event in seen then 1 else 0)
  {
    ApplicationsInEvents(log, event);
    DistinctOnce(Events(log), event);
  }

  lemma CommittedSeen(s: State)
    requires forall t :: t in s.txs ==> TxFits(s, s.txs[t])
    ensures forall t :: t in s.txs && s.txs[t].strategy.Idempotent? && s.txs[t].phase.Committed? ==> s.txs[t].event in s.seen
  {
  }

  /** Over every interleaving of deliveries, duplicates and rollbacks: the
      idempotent total is the number of seen events; an event is seen exactly
      when one committed delivery counted it, and never counted twice; every
      committed delivery's event, skipped duplicates included, has been counted. */
  lemma ExactlyOnce(s: State, steps: seq<Step>, event: int)
    requires Initial(s)
    ensures var e := Run(s, steps);
            && Stored(e.counter, Idempotent) == |e.seen|
            && Applications(e.log, event) == (if event in e.seen then 1 else 0)
            && forall t :: t in e.txs && e.txs[t].strategy.Idempotent? && e.txs[t].phase.Committed?
                           ==> e.txs[t].event in e.seen
  {
    RunKeeps(s, steps);
    var e := Run(s, steps);
    CountedOnce(e.counter, e.seen, e.log, event);
    CommittedSeen(e);
  }

  /** The committed deliveries of one strategy. */
  function Delivered(s: State, strategy: Strategy): set<nat> {
    set t | t in s.txs && s.txs[t].strategy == strategy && s.txs[t].phase.Committed?
  }

  function Ids(log: seq<Entry>, strategy: Strategy): set<nat>
  {
    if log == [] then {}
    else
      var e := log[|log| - 1];
      Ids(log[..|log| - 1], strategy) + (if e.strategy == strategy then {e.id} else {})
  }

  lemma {:induction false} IdsLogged(log: seq<Entry>, m: Strategy)
    ensures forall t :: t in Ids(log, m) <==> exists i :: 0 <= i < |log| && log[i].id == t && log[i].strategy == m
  {
    if log != [] {
      var n := |log| - 1;
      IdsLogged(log[..n], m);
      forall t | t in Ids(log, m)
        ensures exists i :: 0 <= i < |log| && log[i].id == t && log[i].strategy == m
      {
        if t in Ids(log[..n], m) {
          var i :| 0 <= i < n && log[..n][i].id == t && log[..n][i].strategy == m;
          assert log[i].id == t;
        } else {
          assert log[n].id == t;
        }
      }
      forall i | 0 <= i < |log| && log[i].strategy == m
        ensures log[i].id in Ids(log, m)
      {
        if i < n { assert log[..n][i] == log[i]; }
      }
    }
  }

  lemma {:induction false} NaiveIdsSize(log: seq<Entry>)
    requires forall i, j :: 0 <= i < j < |log| ==> log[i].id != log[j].id
    requires forall i :: 0 <= i < |log| && log[i].strategy.Naive? ==> log[i].applied
    ensures |Ids(log, Naive)| == |Totals(log, Naive)|
  {
    if log != [] {
      var n := |log| - 1;
      NaiveIdsSize(log[..n]);
      IdsLogged(log[..n], Naive);
      assert log[n].id !in Ids(log[..n], Naive) by {
        forall i | 0 <= i < n ensures log[..n][i].id != log[n].id { }
      }
    }
  }

  lemma NaiveEntriesApplied(s: State)
    requires Consistent(s)
    ensures forall i :: 0 <= i < |s.log| && s.log[i].strategy.Naive? ==> s.log[i].applied
  {
    forall i | 0 <= i < |s.log| && s.log[i].strategy.Naive?
      ensures s.log[i].applied
    {
      assert TxFits(s, s.txs[s.log[i].id]);
    }
  }

  lemma LoggedDelivered(txs: map<nat, Delivery>, log: seq<Entry>)
    requires LogFits(txs, log)
    ensures forall t :: t in txs && txs[t].strategy.Naive? && txs[t].phase.Committed? <==>
                        exists i :: 0 <= i < |log| && log[i].id == t && log[i].strategy.Naive?
  {
    forall t | t in txs && txs[t].strategy.Naive? && txs[t].phase.Committed?
      ensures exists i :: 0 <= i < |log| && log[i].id == t && log[i].strategy.Naive?
    {
      assert Logged(log, t);
      var i :| 0 <= i < |log| && log[i].id == t;
      assert log[i].strategy.Naive?;
    }
  }

  /** The naive total is the number of committed naive deliveries. */
  lemma NaiveCountsEveryDelivery(s: State)
    requires Consistent(s)
    ensures Stored(s.counter, Naive) == |Delivered(s, Naive)|
  {
    NaiveEntriesApplied(s);
    NaiveIdsSize(s.log);
    IdsLogged(s.log, Naive);
    LoggedDelivered(s.txs, s.log);
    assert Delivered(s, Naive) == Ids(s.log, Naive);
  }

  /** Counter totals over every run: the totals the committed applied deliveries
      of a strategy returned are 1, 2, 3, ... in commit order, with no gap or
      repeat, up to the stored counter; the naive counter is the number of
      committed naive deliveries. */
  lemma TotalsCountUp(s: State, steps: seq<Step>, m: Strategy)
    requires Initial(s)
    ensures var e := Run(s, steps);
            && CountsUp(Totals(e.log, m)) && |Totals(e.log, m)| == Stored(e.counter, m)
            && Stored(e.counter, Naive) == |Delivered(e, Naive)|
  {
    RunKeeps(s, steps);
    NaiveCountsEveryDelivery(Run(s, steps));
  }

  // Deadlock freedom

  ghost predicate WaitsFor(s: State, t: nat, u: nat) {
    t in s.txs && u in s.txs
    && ((s.txs[t].phase.AwaitSeen? && HoldsSeen(s.txs[u], s.txs[t].event))
        || (s.txs[t].phase.AwaitCounter? && HoldsCounter(s.txs[u], s.txs[t].strategy)))
  }

  /** How far a transaction is in the lock order: seen row, then counter row. */
  function LockRank(p: Phase): nat {
    match p
    case Updated(_) => 2
    case Decided(_) => 1
    case AwaitCounter => 1
    case _ => 0
  }

  function RankOf(s: State, t: nat): nat { if t in s.txs then LockRank(s.txs[t].phase) else 0 }

  /** A chain of waits, each delivery waiting for the next. */
  ghost predicate WaitChain(s: State, chain: seq<nat>) {
    |chain| >= 2 && WaitsFor(s, chain[0], chain[1]) && (|chain| > 2 ==> WaitChain(s, chain[1..]))
  }

  /** Locks are taken in one order, so no chain of waits, in any state, comes
      back to where it started. */
  lemma {:induction false} NoWaitCycle(s: State, chain: seq<nat>)
    requires WaitChain(s, chain)
    ensures RankOf(s, chain[0]) < RankOf(s, chain[|chain| - 1])
    ensures chain[0] != chain[|chain| - 1]
  {
    if |chain| > 2 { NoWaitCycle(s, chain[1..]); }
  }

  /** While a delivery is unfinished, some delivery can move. */
  lemma NeverStuck(s: State, t: nat)
    requires t in s.txs && !Terminal(s.txs[t].phase)
    ensures exists u :: Enabled(s, u)
  {
    if !Enabled(s, t) {
      if s.txs[t].phase.AwaitCounter? {
        var u :| u in s.txs && HoldsCounter(s.txs[u], s.txs[t].strategy);
        assert Enabled(s, u);
      } else {
        var u :| u in s.txs && HoldsSeen(s.txs[u], s.txs[t].event);
        if !Enabled(s, u) {
          var v :| v in s.txs && HoldsCounter(s.txs[v], s.txs[u].strategy);
          assert Enabled(s, v);
        }
      }
    }
  }

  function StepsLeft(p: Phase): nat {
    match p
    case Called => 6
    case Begun => 5
    case AwaitSeen => 4
    case Decided(_) => 3
    case AwaitCounter => 2
    case Updated(_) => 1
    case _ => 0
  }

  /** Each delivery finishes within six steps of its own. */
  lemma AdvanceFalls(s: State, t: nat)
    requires Enabled(s, t)
    ensures StepsLeft(NextPhase(s, t)) < StepsLeft(s.txs[t].phase)
  {
  }

  // Every schedule ends

  /** A delivery's own step, or its rollback, when that is possible. */
  predicate Possible(s: State, step: Step) {
    match step
    case Advance(t) => Enabled(s, t)
    case Rollback(t) => t in s.txs && !Terminal(s.txs[t].phase)
    case _ => false
  }

  /** Steps that are each possible when their turn comes. */
  ghost predicate Schedule(s: State, steps: seq<Step>)
    decreases |steps|
  {
    steps == [] || (Possible(s, steps[0]) && Schedule(Apply(s, steps[0]), steps[1..]))
  }

  function Play(s: State, steps: seq<Step>): State
    decreases |steps|
  {
    if steps == [] then s else Play(Apply(s, steps[0]), steps[1..])
  }

  /** What is left to do for the deliveries 0..n-1. */
  function Remaining(s: State, n: nat): nat {
    if n == 0 then 0
    else Remaining(s, n - 1) + (if n - 1 in s.txs then StepsLeft(s.txs[n - 1].phase) else 0)
  }

  lemma {:induction false} RemainingFalls(s: State, s': State, n: nat, t: nat)
    requires t in s.txs && t in s'.txs && StepsLeft(s'.txs[t].phase) < StepsLeft(s.txs[t].phase)
    requires s'.txs == s.txs[t := s'.txs[t]]
    ensures Remaining(s', n) + (if t < n then 1 else 0) <= Remaining(s, n)
  {
    if n > 0 { RemainingFalls(s, s', n - 1, t); }
  }

  lemma {:induction false} RemainingBound(s: State, n: nat)
    ensures Remaining(s, n) <= 6 * n
  {
    if n > 0 { RemainingBound(s, n - 1); }
  }

  lemma PossibleFalls(s: State, step: Step, n: nat)
    requires Possible(s, step) && forall t :: t in s.txs ==> t < n
    ensures Apply(s, step).txs.Keys == s.txs.Keys
    ensures Remaining(Apply(s, step), n) < Remaining(s, n)
  {
    var t := step.t;
    if step.Advance? { AdvanceFalls(s, t); }
    RemainingFalls(s, Apply(s, step), n, t);
  }

  /** Every schedule of n deliveries, rollbacks at any point included, has at most
      6 * n steps; one after which no delivery can move has every delivery
      committed or rolled back, with no rollback needed to get there. */
  lemma {:induction false} EveryScheduleEnds(s: State, n: nat, steps: seq<Step>)
    requires (forall t :: t in s.txs ==> t < n) && Schedule(s, steps)
    ensures |steps| <= Remaining(s, n) <= 6 * n
    ensures var e := Play(s, steps);
            e.txs.Keys == s.txs.Keys
            && ((forall t :: !Enabled(e, t)) ==> forall t :: t in e.txs ==> Terminal(e.txs[t].phase))
    decreases |steps|
  {
    RemainingBound(s, n);
    if steps == [] {
      if t :| t in s.txs && !Terminal(s.txs[t].phase) { NeverStuck(s, t); }
    } else {
      PossibleFalls(s, steps[0], n);
      EveryScheduleEnds(Apply(s, steps[0]), n, steps[1..]);
    }
  }
}
