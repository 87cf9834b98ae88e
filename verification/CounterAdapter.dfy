/** The tallies the HTTP adapter of the counter lesson keeps per variant, beside
    tables that other requests and the other variant keep changing. */
module CounterAdapter {
  import opened JobCounter
  import opened Sets

  lemma CommittedDeliveryStays(s: State, step: Step, t: nat)
    requires t in s.txs && s.txs[t].phase.Committed?
    ensures t in Apply(s, step).txs && Apply(s, step).txs[t] == s.txs[t]
  {
  }

  /** The tallies of one strategy: deliveries counts the calls in counted, events
      holds the events of those in recorded, which the handler notes second. */
  ghost predicate Tallied(db: State, m: Strategy, deliveries: nat, events: set<int>, counted: set<nat>, recorded: set<nat>) {
    && deliveries == |counted|
    && recorded <= counted <= Delivered(db, m)
    && (forall t :: t in recorded ==> t in db.txs && db.txs[t].event in events)
    && (forall e :: e in events ==> exists t :: t in recorded && t in db.txs && db.txs[t].event == e)
  }

  lemma TalliedStays(db: State, m: Strategy, deliveries: nat, events: set<int>, counted: set<nat>, recorded: set<nat>, step: Step)
    requires Tallied(db, m, deliveries, events, counted, recorded)
    ensures Tallied(Apply(db, step), m, deliveries, events, counted, recorded)
  {
    var after := Apply(db, step);
    forall t | t in counted
      ensures t in after.txs && after.txs[t] == db.txs[t]
    {
      assert t in Delivered(db, m);
      CommittedDeliveryStays(db, step, t);
    }
    forall e | e in events
      ensures exists t :: t in recorded && t in after.txs && after.txs[t].event == e
    {
      var t :| t in recorded && t in db.txs && db.txs[t].event == e;
    }
  }

  lemma RecordedMore(db: State, m: Strategy, deliveries: nat, events: set<int>, counted: set<nat>, recorded: set<nat>, t: nat)
    requires Tallied(db, m, deliveries, events, counted, recorded) && t in counted
    ensures t in db.txs
    ensures Tallied(db, m, deliveries, events + {db.txs[t].event}, counted, recorded + {t})
  {
    assert t in Delivered(db, m);
    forall e | e in events + {db.txs[t].event}
      ensures exists u :: u in recorded + {t} && u in db.txs && db.txs[u].event == e
    {
      if e in events {
        var u :| u in recorded && u in db.txs && db.txs[u].event == e;
        assert u in recorded + {t};
      } else {
        assert t in recorded + {t};
      }
    }
  }

  /** What other requests do: a step of the database, the first and the second
      half of noting a confirmed delivery, an error. */
  datatype Event = Stepped(step: Step) | Counted(t: nat) | Recorded(t: nat) | Errored

  /** The tables, the tallies and where the requests are. */
  datatype Tally = Tally(db: State, deliveries: nat, failed: nat, events: set<int>, counted: set<nat>, recorded: set<nat>)

  /** What an event changes for strategy m; one that cannot happen changes nothing. */
  function Handled(m: Strategy, v: Tally, ev: Event): Tally {
    match ev
    case Stepped(step) => v.(db := Apply(v.db, step))
    case Counted(t) =>
      if t in Delivered(v.db, m) && t !in v.counted then v.(deliveries := v.deliveries + 1, counted := v.counted + {t}) else v
    case Recorded(t) =>
      if t in v.counted && t !in v.recorded && t in v.db.txs
      then v.(events := v.events + {v.db.txs[t].event}, recorded := v.recorded + {t}) else v
    case Errored => v.(failed := v.failed + 1)
  }

  function HandledAll(m: Strategy, v: Tally, events: seq<Event>): Tally
    decreases |events|
  {
    if events == [] then v else Handled(m, HandledAll(m, v, events[..|events| - 1]), events[|events| - 1])
  }

  lemma HandledMore(m: Strategy, v: Tally, events: seq<Event>, i: nat)
    requires i < |events|
    ensures HandledAll(m, v, events[..i + 1]) == Handled(m, HandledAll(m, v, events[..i]), events[i])
  {
    assert events[..i + 1][..i] == events[..i];
  }

  lemma HandledThree(m: Strategy, v: Tally, a: Event, b: Event, c: Event)
    ensures HandledAll(m, v, [a, b, c]) == Handled(m, Handled(m, Handled(m, v, a), b), c)
    ensures HandledAll(m, v, []) == v
  {
    assert [a, b, c][..2] == [a, b] && [a, b][..1] == [a] && [a][..0] == [];
    assert HandledAll(m, v, [a]) == Handled(m, v, a);
    assert HandledAll(m, v, [a, b]) == Handled(m, Handled(m, v, a), b);
  }

  lemma {:induction false} HandledGrows(m: Strategy, v: Tally, events: seq<Event>)
    ensures v.counted <= HandledAll(m, v, events).counted && v.events <= HandledAll(m, v, events).events
    decreases |events|
  {
    if events != [] { HandledGrows(m, v, events[..|events| - 1]); }
  }

  class Variant {
    const strategy: Strategy
    var db: State              // the two tables, shared with the other variant
    var deliveries: nat        // Apply returned without error
    var failed: nat            // Apply returned an error
    var events: set<int>       // distinct event ids with a confirmed delivery

    // Where the requests are: those past the first note, and past the second.
    var counted: set<nat>
    var recorded: set<nat>

    ghost var history: seq<Step>     // everything the database did since the reset

    function View(): Tally
      reads this
    {
      Tally(db, deliveries, failed, events, counted, recorded)
    }

    ghost predicate Valid()
      reads this
    {
      db == Run(Reset(), history) && Tallied(db, strategy, deliveries, events, counted, recorded)
    }

    /** After reset: zeroed counter rows, nothing seen, nothing counted. */
    constructor (strategy: Strategy)
      ensures Valid() && this.strategy == strategy
      ensures db == Reset() && history == []
      ensures deliveries == failed == 0 && events == {} && counted == {} && recorded == {}
    {
      this.strategy := strategy;
      db, history := Reset(), [];
      deliveries, failed, events, counted, recorded := 0, 0, {}, {}, {};
    }

    /** Any step of the database on behalf of any request of either variant. */
    method Happens(step: Step)
      requires Valid()
      modifies this`db, this`history
      ensures Valid()
      ensures db == Apply(old(db), step) && history == old(history) + [step]
      ensures View() == Handled(strategy, old(View()), Stepped(step))
    {
      ghost var before := db;
      db, history := Apply(db, step), history + [step];
      assert db == Run(Reset(), history) by { CounterRunMore(Reset(), old(history), step); }
      assert Tallied(db, strategy, deliveries, events, counted, recorded) by {
        TalliedStays(before, strategy, deliveries, events, counted, recorded, step);
      }
    }

    /** Apply returned without error for delivery t: first the counter... */
    method Count(t: nat)
      requires Valid() && t in Delivered(db, strategy) && t !in counted
      modifies this`deliveries, this`counted
      ensures Valid() && counted == old(counted) + {t} && deliveries == old(deliveries) + 1
      ensures View() == Handled(strategy, old(View()), Counted(t))
    {
      deliveries, counted := deliveries + 1, counted + {t};
    }

    /** ... then, under the lock, the event. */
    method Record(t: nat)
      requires Valid() && t in counted
      modifies this`events, this`recorded
      ensures Valid() && recorded == old(recorded) + {t}
      ensures t in db.txs && events == old(events) + {db.txs[t].event}
      ensures t !in old(recorded) ==> View() == Handled(strategy, old(View()), Recorded(t))
    {
      RecordedMore(db, strategy, deliveries, events, counted, recorded, t);
      events, recorded := events + {db.txs[t].event}, recorded + {t};
    }

    /** Both halves for one delivery. */
    method Confirm(t: nat)
      requires Valid()
      requires t in Delivered(db, strategy) && t !in counted
      modifies this`deliveries, this`events, this`counted, this`recorded
      ensures Valid()
      ensures counted == old(counted) + {t} && recorded == old(recorded) + {t}
      ensures deliveries == old(deliveries) + 1 && events == old(events) + {db.txs[t].event}
    {
      Count(t);
      Record(t);
    }

    /** Apply returned an error: the transaction may still have committed. */
    method Fail()
      requires Valid()
      modifies this`failed
      ensures Valid() && failed == old(failed) + 1 && View() == Handled(strategy, old(View()), Errored)
    {
      failed := failed + 1;
    }

    /** expected_total of /stats, from the tallies. */
    function ExpectedTotal(): nat
      reads this
    {
      if strategy.Naive? then deliveries else |events|
    }

    lemma NaiveTallies()
      requires Valid() && strategy.Naive?
      ensures Stored(db.counter, Naive) - deliveries == |Delivered(db, Naive) - counted|
    {
      RunKeeps(Reset(), history);
      NaiveCountsEveryDelivery(db);
      Sets.Growth(counted, Delivered(db, Naive));
    }

    lemma IdempotentTallies()
      requires Valid() && strategy.Idempotent?
      ensures events <= db.seen && Stored(db.counter, Idempotent) - |events| == |db.seen - events|
    {
      ExactlyOnce(Reset(), history, 0);
      RunKeeps(Reset(), history);
      forall e | e in events
        ensures e in db.seen
      {
        var t :| t in recorded && t in db.txs && db.txs[t].event == e;
        assert TxFits(db, db.txs[t]);
      }
      assert db.seen == events + (db.seen - events);
    }

    /** Tables and tallies at one moment, in every reachable state: the expected
        total never exceeds the stored one. Naive: they differ by the committed
        deliveries not counted yet. Idempotent: by the seen events not noted yet. */
    lemma TalliesMatchTables()
      requires Valid()
      ensures ExpectedTotal() <= Stored(db.counter, strategy)
      ensures strategy.Naive? ==> Stored(db.counter, Naive) - ExpectedTotal() == |Delivered(db, Naive) - counted|
      ensures strategy.Idempotent? ==>
                events <= db.seen && Stored(db.counter, Idempotent) - ExpectedTotal() == |db.seen - events|
    {
      if strategy.Naive? { NaiveTallies(); } else { IdempotentTallies(); }
    }

    /** Whatever can happen in other requests. */
    method Handle(ev: Event)
      requires Valid()
      modifies this
      ensures Valid() && View() == Handled(strategy, old(View()), ev)
    {
      match ev {
        case Stepped(step) => Happens(step);
        case Counted(t) => if t in Delivered(db, strategy) && t !in counted { Count(t); }
        case Recorded(t) => if t in counted && t !in recorded { Record(t); }
        case Errored => Fail();
      }
    }

    method HandleAll(evs: seq<Event>)
      requires Valid()
      modifies this
      ensures Valid() && View() == HandledAll(strategy, old(View()), evs)
    {
      ghost var before := View();
      for i := 0 to |evs|
        invariant Valid() && View() == HandledAll(strategy, before, evs[..i])
      {
        Handle(evs[i]);
        HandledMore(strategy, before, evs, i);
      }
      assert evs[..|evs|] == evs;
    }

    /** /stats: the tables are read in one statement, then the distinct events,
        then the deliveries, with other requests in between. When it is read the
        expected total does not exceed the stored one; against the total reported
        it differs by exactly what was noted in between less what was committed
        and not noted at the first read, so it can exceed it. */
    method Stats(first: seq<Event>, second: seq<Event>) returns (total: int, expected: int)
      requires Valid()
      modifies this
      ensures Valid()
      ensures View() == HandledAll(strategy, HandledAll(strategy, old(View()), first), second)
      ensures old(counted) <= counted && old(events) <= events
      ensures total == Stored(old(db).counter, strategy) && expected <= Stored(db.counter, strategy)
      ensures strategy.Naive? ==>
                expected == deliveries
                && expected - total == |counted - old(counted)| - |Delivered(old(db), Naive) - old(counted)|
      ensures strategy.Idempotent? ==>
                var noted := HandledAll(strategy, old(View()), first).events;
                expected == |noted| && expected - total == |noted - old(events)| - |old(db).seen - old(events)|
    {
      TalliesMatchTables();
      total := Stored(db.counter, strategy);
      HandleAll(first);
      ghost var mid := View();
      var unique := |events|;
      HandleAll(second);
      expected := if strategy.Naive? then deliveries else unique;
      TalliesMatchTables();
      HandledGrows(strategy, old(View()), first);
      HandledGrows(strategy, mid, second);
      Growth(old(counted), counted);
      Growth(old(events), mid.events);
      Growth(mid.events, events);
    }
  }

  function Updating(m: Strategy): State {
    Reset().(txs := map[0 := Delivery(m, 1, Updated(1))])
  }

  lemma DeliveryUpdates(m: Strategy)
    ensures var s := Reset().(txs := map[0 := Delivery(m, 1, Called)]);
            Apply(Apply(Apply(s, Advance(0)), Advance(0)), Advance(0)) == Updating(m)
  {
    var s := Reset().(txs := map[0 := Delivery(m, 1, Called)]);
    var begun := s.(txs := map[0 := Delivery(m, 1, Begun)]);
    var claimed := s.(txs := map[0 := Delivery(m, 1, Decided(true))]);
    assert Apply(s, Advance(0)) == begun;
    assert Apply(begun, Advance(0)) == claimed;
    assert Apply(claimed, Advance(0)) == Updating(m);
  }

  method AdvanceThrice(v: Variant)
    requires v.Valid()
    modifies v`db, v`history
    ensures v.Valid() && v.db == Apply(Apply(Apply(old(v.db), Advance(0)), Advance(0)), Advance(0))
  {
    v.Happens(Advance(0));
    v.Happens(Advance(0));
    v.Happens(Advance(0));
  }

  /** One delivery of event 1, updated and not committed. */
  method BeginDelivery(m: Strategy) returns (v: Variant)
    ensures fresh(v) && v.Valid() && v.strategy == m && v.db == Updating(m) && v.counted == {} && v.events == {}
    ensures v.deliveries == 0 && v.recorded == {}
  {
    v := new Variant(m);
    v.Happens(Call(0, m, 1));
    assert v.db == Reset().(txs := map[0 := Delivery(m, 1, Called)]);
    AdvanceThrice(v);
    DeliveryUpdates(m);
  }

  lemma CommitsAndIsNoted(m: Strategy, v: Tally)
    requires v.db == Updating(m) && v.counted == v.recorded == {} && v.events == {} && v.deliveries == 0
    ensures var w := HandledAll(m, v, [Stepped(Advance(0)), Counted(0), Recorded(0)]); w.deliveries == 1 && w.events == {1}
  {
    HandledThree(m, v, Stepped(Advance(0)), Counted(0), Recorded(0));
    var db := Apply(Updating(m), Advance(0));
    assert 0 in db.txs && db.txs[0] == Delivery(m, 1, Committed(true, 1));
    assert 0 in Delivered(db, m);
  }

  /** A delivery that commits and is noted between the reads of /stats makes the
      expected total reported exceed the stored total reported. */
  method ReportExceedsTotal(m: Strategy) returns (total: int, expected: int)
    ensures total == 0 && expected == 1
  {
    var v := BeginDelivery(m);
    CommitsAndIsNoted(m, v.View());
    total, expected := v.Stats([Stepped(Advance(0)), Counted(0), Recorded(0)], []);
  }
}
