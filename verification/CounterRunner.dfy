/** The sequential lesson runner: one connection, one delivery at a time, and a
    total carried forward from delivery to delivery. */
module CounterRunner {
  import opened JobCounter
  import opened Sets

  ghost predicate Quiet(s: State) { forall t :: t in s.txs ==> Terminal(s.txs[t].phase) }

  predicate Counts(s: State, m: Strategy, event: int) { m.Naive? || event !in s.seen }

  /** Apply reports an error exactly when the update would run and the counter
      row is missing or full. */
  predicate Fails(s: State, m: Strategy, event: int) {
    Counts(s, m, event) && (m !in s.counter || s.counter[m] >= MAX_TOTAL)
  }

  predicate SameTables(s0: State, s: State) { s.counter == s0.counter && s.seen == s0.seen }

  /** What one successful delivery does to the tables. */
  predicate TookEffect(s0: State, s: State, m: Strategy, event: int, applied: bool, total: int) {
    && !Fails(s0, m, event)
    && applied == Counts(s0, m, event)
    && if !applied then SameTables(s0, s) && total == 0
       else
         && m in s0.counter && total == s0.counter[m] + 1
         && s.counter == s0.counter[m := total]
         && s.seen == if m.Idempotent? then s0.seen + {event} else s0.seen
  }

  /** Delivery t runs alone, from tables s0; nothing is visible before commit. */
  ghost predicate Solo(s0: State, s: State, t: nat, m: Strategy, event: int) {
    && t in s.txs && s.txs[t].strategy == m && s.txs[t].event == event
    && (forall u :: u in s.txs && u != t ==> Terminal(s.txs[u].phase))
    && match s.txs[t].phase
       case Decided(claimed) => SameTables(s0, s) && claimed == Counts(s0, m, event)
       case Updated(total) =>
         SameTables(s0, s) && Counts(s0, m, event) && !Fails(s0, m, event) && total == s0.counter[m] + 1
       case Committed(applied, total) => TookEffect(s0, s, m, event, applied, total)
       case RolledBack => SameTables(s0, s) && Fails(s0, m, event)
       case AwaitSeen => false
       case AwaitCounter => false
       case _ => SameTables(s0, s)
  }

  lemma SoloStep(s0: State, s: State, t: nat, m: Strategy, event: int)
    requires Solo(s0, s, t, m, event) && !Terminal(s.txs[t].phase)
    ensures Enabled(s, t) && Solo(s0, Next(s, t), t, m, event)
  {
  }

  /** The runner's connection to the two tables. */
  class Connection {
    var s: State
    var next: nat     // transaction ids not used yet

    ghost predicate Valid()
      reads this
    {
      Consistent(s) && Quiet(s) && forall t :: t in s.txs ==> t < next
    }

    /** reset: both tables emptied, one zeroed counter row per strategy. */
    constructor ()
      ensures Valid()
      ensures s == Reset()
    {
      s, next := Reset(), 0;
      new;
      RunKeeps(Reset(), []);
    }

    /** core.Apply on an otherwise idle database. */
    method Apply(m: Strategy, event: int) returns (total: int, applied: bool, ok: bool)
      requires Valid()
      modifies this
      ensures Valid()
      ensures ok <==> !Fails(old(s), m, event)
      ensures ok ==> TookEffect(old(s), s, m, event, applied, total)
      ensures !ok ==> SameTables(old(s), s) && total == 0 && !applied
    {
      ghost var s0 := s;
      var t := next;
      StepKeeps(s, Call(t, m, event));
      s, next := JobCounter.Apply(s, Call(t, m, event)), next + 1;
      while !Terminal(s.txs[t].phase)
        invariant t in s.txs && Solo(s0, s, t, m, event)
        invariant Consistent(s) && forall u :: u in s.txs ==> u < next
        decreases StepsLeft(s.txs[t].phase)
      {
        SoloStep(s0, s, t, m, event);
        AdvanceFalls(s, t);
        StepKeeps(s, Advance(t));
        s := Next(s, t);
      }
      match s.txs[t].phase {
        case Committed(a, v) => total, applied, ok := v, a, true;
        case _ => total, applied, ok := 0, false, false;
      }
    }

    /** deliver: a skipped delivery leaves the carried total where it was. An
        error ends the run (lab.Check panics). */
    method Deliver(m: Strategy, event: int, prevTotal: int) returns (total: int, ok: bool)
      requires Valid() && m in s.counter && prevTotal == s.counter[m]
      modifies this
      ensures Valid()
      ensures ok <==> !Fails(old(s), m, event)
      ensures ok ==>
                && s.counter == old(s).counter[m := total]
                && total == old(s).counter[m] + (if Counts(old(s), m, event) then 1 else 0)
                && s.seen == old(s).seen + (if m.Idempotent? then {event} else {})
    {
      var applied: bool;
      total, applied, ok := Apply(m, event);
      if !applied { total := prevTotal; }
      assert !applied && ok ==> s.counter[m := total] == s.counter;
    }

    /** One strategy's nested loops. From a zeroed counter and unseen events the
        carried total is the stored counter after every delivery, and the run
        ends at events * deliveries (naive) or events (idempotent) exactly when
        that fits a PostgreSQL integer. */
    method RunStrategy(m: Strategy, events: nat, deliveries: nat) returns (total: int, ok: bool)
      requires Valid() && m in s.counter && s.counter[m] == 0
      requires m.Idempotent? ==> s.seen !! Range(events)
      modifies this
      ensures Valid()
      ensures ok <==> Want(m, events, deliveries) <= MAX_TOTAL
      ensures ok ==> total == Want(m, events, deliveries) && Carried(old(s), s, m, total)
    {
      total, ok := 0, true;
      ghost var s0 := s;
      CarriedAtStart(s, m);
      var id := 1;
      while id <= events
        invariant 1 <= id <= events + 1 && Valid()
        invariant total == Want(m, id - 1, deliveries) <= MAX_TOTAL
        invariant Carried(s0, s, m, total)
      {
        var attempt := 1;
        while attempt <= deliveries
          invariant 1 <= attempt <= deliveries + 1 && Valid()
          invariant total == Want(m, id - 1, deliveries) + Partial(m, attempt - 1) <= MAX_TOTAL
          invariant Carried(s0, s, m, total)
        {
          OneMore(m, id, events, deliveries, attempt, total);
          NewEvent(s0, s, m, id, events, total);
          ghost var before, carried := s, total;
          total, ok := Deliver(m, id, total);
          if !ok { return; }
          CarriedOn(s0, before, s, m, id, carried, total);
          attempt := attempt + 1;
        }
        WantNext(m, id, deliveries);
        id := id + 1;
      }
    }
  }

  /** The carried total is the stored counter, and an idempotent run has seen
      exactly that many events. */
  ghost predicate Carried(s0: State, s: State, m: Strategy, total: int) {
    && total >= 0 && m in s.counter && s.counter[m] == total
    && (forall k :: k in s.counter <==> k in s0.counter)
    && (forall k :: k in s.counter && k != m ==> s.counter[k] == s0.counter[k])
    && s.seen == if m.Idempotent? then s0.seen + Range(total) else s0.seen
  }

  lemma CarriedAtStart(s: State, m: Strategy)
    requires m in s.counter && s.counter[m] == 0
    ensures Carried(s, s, m, 0)
  {
    assert s.seen + Range(0) == s.seen;
  }

  lemma NewEvent(s0: State, s: State, m: Strategy, id: int, events: nat, total: int)
    requires Carried(s0, s, m, total) && 1 <= id <= events && (m.Idempotent? ==> s0.seen !! Range(events))
    ensures Counts(s, m, id) <==> m.Naive? || id > total
  {
    assert id in Range(events);
  }

  lemma CarriedOn(s0: State, before: State, s: State, m: Strategy, id: nat, carried: int, total: int)
    requires Carried(s0, before, m, carried)
    requires m.Idempotent? ==> 1 <= id <= carried + 1 && total == (if id == carried + 1 then id else carried)
    requires total >= 0 && s.counter == before.counter[m := total]
    requires s.seen == before.seen + (if m.Idempotent? then {id as int} else {})
    ensures Carried(s0, s, m, total)
  {
    if m.Idempotent? {
      assert total == carried + 1 ==> Range(total) == Range(carried) + {id};
      assert total == carried ==> Range(carried) + {id} == Range(carried);
    }
  }

  /** wantTotal. */
  function Want(m: Strategy, events: nat, deliveries: nat): nat {
    if m.Naive? then events * deliveries else if deliveries == 0 then 0 else events
  }

  /** What the first attempts at one event add. */
  function Partial(m: Strategy, attempts: nat): nat {
    if m.Naive? || attempts == 0 then attempts else 1
  }

  lemma WantNext(m: Strategy, id: nat, deliveries: nat)
    requires id >= 1
    ensures Want(m, id - 1, deliveries) + Partial(m, deliveries) == Want(m, id, deliveries)
  {
  }

  lemma WantGrows(m: Strategy, id: nat, events: nat, deliveries: nat, attempt: nat)
    requires 1 <= id <= events && 1 <= attempt <= deliveries
    ensures Want(m, id - 1, deliveries) + Partial(m, attempt) <= Want(m, events, deliveries)
  {
    if m.Naive? {
      assert id * deliveries <= events * deliveries;
      assert (id - 1) * deliveries + deliveries == id * deliveries;
    }
  }

  /** What one more attempt adds to the total so far. */
  lemma OneMore(m: Strategy, id: nat, events: nat, deliveries: nat, attempt: nat, total: int)
    requires 1 <= id <= events && 1 <= attempt <= deliveries
    requires total == Want(m, id - 1, deliveries) + Partial(m, attempt - 1)
    ensures total + (if m.Naive? || id > total then 1 else 0) == Want(m, id - 1, deliveries) + Partial(m, attempt)
    ensures Want(m, id - 1, deliveries) + Partial(m, attempt) <= Want(m, events, deliveries)
    ensures m.Idempotent? ==> id - 1 <= total <= id
  {
    WantGrows(m, id, events, deliveries, attempt);
  }

  /** main: both strategies on the freshly reset tables. The run completes
      exactly when both totals fit the column. */
  method RunLesson(events: nat, deliveries: nat) returns (naive: int, idempotent: int, ok: bool)
    ensures ok <==> Want(Naive, events, deliveries) <= MAX_TOTAL && Want(Idempotent, events, deliveries) <= MAX_TOTAL
    ensures ok ==> naive == events * deliveries
    ensures ok ==> idempotent == if deliveries == 0 then 0 else events
  {
    var db := new Connection();
    idempotent := 0;
    naive, ok := db.RunStrategy(Naive, events, deliveries);
    if ok {
      idempotent, ok := db.RunStrategy(Idempotent, events, deliveries);
    }
  }
}
