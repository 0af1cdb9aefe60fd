/** When an item is due, said of the events of a run alone: which requests and which interval
    count by then, and how its last start holds them back. */
module DueTimes {
  import opened Options
  import opened Scheduler
  import opened SchedulerRuns

  /** Event a put the item on the list, and it has been there since, for the first n events. */
  ghost predicate AttachedSince(trace: seq<Event>, n: nat, a: nat, id: Id)
    requires n <= |trace|
  {
    && a < n && trace[a].step.Attach? && trace[a].step.item.id == id && !Has(Until(trace, a).items, id)
    && forall k :: a < k <= n ==> Has(Until(trace, k).items, id)
  }

  /** Event k is a start of the item. */
  ghost predicate StartedAt(trace: seq<Event>, k: nat, id: Id)
  {
    k < |trace| && StartedBy(Until(trace, k), trace[k]) == Some(id)
  }

  /** Event k gives the item an interval. */
  ghost predicate IntervalAt(trace: seq<Event>, k: nat, id: Id)
  {
    k < |trace| && trace[k].step.SetInterval? && trace[k].step.id == id
  }

  /** Event k is the first region of a detach of the item. */
  ghost predicate WithdrawnAt(trace: seq<Event>, k: nat, id: Id)
  {
    k < |trace| && trace[k].step == DetachRequest(id)
  }

  ghost predicate ClearedAt(trace: seq<Event>, k: nat, id: Id)
  {
    k < |trace| && trace[k].step == Clear(id)
  }

  ghost predicate Withdrawn(trace: seq<Event>, n: nat, a: nat, id: Id)
  {
    exists k :: a < k < n && WithdrawnAt(trace, k, id)
  }

  /** It has been given an interval, zero or not, since it was attached. */
  ghost predicate Enlisted(trace: seq<Event>, n: nat, a: nat, id: Id)
  {
    exists i :: a < i < n && IntervalAt(trace, i, id)
  }

  /** By time t the given span has passed since every start of it after event a. */
  ghost predicate PassedSinceStarts(trace: seq<Event>, n: nat, a: nat, id: Id, span: Time, t: Time)
  {
    forall s :: a < s < n && StartedAt(trace, s, id) ==> trace[s].now + span <= t
  }

  /** Event k requests the item, which was activated by then, and neither a start nor a clear
      has come since. */
  ghost predicate Counts(trace: seq<Event>, n: nat, a: nat, k: nat, id: Id)
  {
    && a < k < n <= |trace| && trace[k].step.Schedule? && trace[k].step.id == id && Enlisted(trace, k, a, id)
    && forall l :: k < l < n ==> !StartedAt(trace, l, id) && !ClearedAt(trace, l, id)
  }

  ghost predicate RequestDue(trace: seq<Event>, n: nat, a: nat, id: Id, t: Time)
  {
    exists k: nat :: Counts(trace, n, a, k, id) && trace[k].now + trace[k].step.delay <= t
  }

  /** Event i gave the item an interval other than zero, the last it was given, and it has not been cleared since. */
  ghost predicate InForce(trace: seq<Event>, n: nat, a: nat, i: nat, id: Id)
  {
    && a < i < n <= |trace| && IntervalAt(trace, i, id) && trace[i].step.interval != 0
    && forall l :: i < l < n ==> !IntervalAt(trace, l, id) && !ClearedAt(trace, l, id)
  }

  /** The interval has passed since event i and since every later start. */
  ghost predicate PassedSince(trace: seq<Event>, n: nat, i: nat, id: Id, t: Time)
    requires IntervalAt(trace, i, id)
  {
    var interval := trace[i].step.interval;
    trace[i].now + interval <= t && PassedSinceStarts(trace, n, i, id, interval, t)
  }

  ghost predicate PeriodDue(trace: seq<Event>, n: nat, a: nat, id: Id, t: Time)
  {
    exists i: nat :: InForce(trace, n, a, i, id) && PassedSince(trace, n, i, id, t)
  }

  // ---------------------------------------------------------------------------
  // One event.
  // ---------------------------------------------------------------------------

  lemma {:induction false} Reached(trace: seq<Event>, n: nat)
    requires Ordered(EMPTY.clock, trace) && n <= |trace|
    ensures Inv(Until(trace, n))
    ensures n < |trace| ==>
              && Until(trace, n).clock <= trace[n].now
              && Until(trace, n + 1) == Apply(Until(trace, n), trace[n].step, trace[n].now)
              && Until(trace, n + 1).clock == trace[n].now
  {
    EmptyInv();
    RunSplit(EMPTY, trace, n);
    if n < |trace| {
      var first := trace[..n + 1];
      OrderedPrefix(EMPTY.clock, trace, n + 1);
      RunSplit(EMPTY, first, n);
      RunFrom(Until(trace, n), trace, n);
      assert first[..n] == trace[..n] && first[n..] == [trace[n]];
      RunFrom(Until(trace, n), first, n);
    }
  }

  /** What event n does to the item, which stays on the list. */
  lemma {:induction false} Advance(trace: seq<Event>, n: nat, a: nat, id: Id)
    requires Ordered(EMPTY.clock, trace) && n < |trace| && AttachedSince(trace, n + 1, a, id) && a < n
    ensures AttachedSince(trace, n, a, id) && Inv(Until(trace, n)) && 0 < Until(trace, n).clock <= trace[n].now
    ensures Find(Until(trace, n + 1).items, id) == After(Until(trace, n), Find(Until(trace, n).items, id), trace[n])
  {
    Reached(trace, n);
    var q, e := Until(trace, n), trace[n];
    assert Has(q.items, id) && Has(Until(trace, n + 1).items, id);
    if e.step == DetachRemove(id) {
      if !q.items[Position(q.items, id).value].running {
        DropUnique(q.items, Position(q.items, id).value);
      }
    } else {
      FindAfter(q, e, id);
    }
  }

  lemma {:induction false} Begun(trace: seq<Event>, a: nat, id: Id)
    requires Ordered(EMPTY.clock, trace) && a < |trace| && AttachedSince(trace, a + 1, a, id)
    ensures var item := Find(Until(trace, a + 1).items, id);
            && item.minimumInterval == trace[a].step.minimumInterval && item.lastStart == 0 && item.period == 0
            && !item.pending && !item.enabled && !item.stopping
  {
    Reached(trace, a);
    var q, e := Until(trace, a), trace[a];
    assert Has(Until(trace, a + 1).items, id);
    StepKeepsInv(q, e.step, e.now);
    PositionOf(Apply(q, e.step, e.now).items, |q.items|);
  }

  // ---------------------------------------------------------------------------
  // What the item records of the events.
  // ---------------------------------------------------------------------------

  ghost predicate RecordsSwitches(item: Item, trace: seq<Event>, n: nat, a: nat, id: Id)
  {
    && (item.stopping <==> Withdrawn(trace, n, a, id))
    && (item.enabled <==> Enlisted(trace, n, a, id) && !Withdrawn(trace, n, a, id))
    && (item.stopping || item.enabled || (!item.pending && item.period == 0))
  }

  /** The item may start by t as far as its last start goes. */
  predicate Held(item: Item, t: Time) { item.lastStart != 0 ==> item.lastStart + item.minimumInterval <= t }

  ghost predicate RecordsStarts(item: Item, trace: seq<Event>, n: nat, a: nat, id: Id)
  {
    forall t: Time :: Held(item, t) <==> PassedSinceStarts(trace, n, a, id, item.minimumInterval, t)
  }

  ghost predicate RecordsRequest(item: Item, trace: seq<Event>, n: nat, a: nat, id: Id)
  {
    !item.stopping ==> forall t: Time :: Held(item, t) ==>
      (item.pending && item.deadline <= t <==> RequestDue(trace, n, a, id, t))
  }

  ghost predicate RecordsPeriod(item: Item, trace: seq<Event>, n: nat, a: nat, id: Id, clock: Time)
  {
    !item.stopping ==>
      && (item.period != 0 ==> item.nextPeriodic <= clock + item.period)
      && (item.period != 0 ==> exists i: nat :: InForce(trace, n, a, i, id))
      && forall i: nat :: InForce(trace, n, a, i, id) ==> Beating(item, trace, n, i, id)
  }

  ghost predicate Beating(item: Item, trace: seq<Event>, n: nat, i: nat, id: Id)
    requires IntervalAt(trace, i, id)
  {
    && item.period == trace[i].step.interval
    && forall t: Time :: item.nextPeriodic <= t <==> PassedSince(trace, n, i, id, t)
  }

  /** Event n has made an item of the one before. */
  ghost predicate Becomes(item: Item, item': Item, trace: seq<Event>, n: nat, id: Id)
    requires n < |trace|
  {
    && item.id == id && item' == After(Until(trace, n), item, trace[n])
    && item.lastStart <= trace[n].now && 0 < trace[n].now
  }

  lemma {:induction false} SwitchesStep(item: Item, item': Item, trace: seq<Event>, n: nat, a: nat, id: Id)
    requires a < n < |trace| && Becomes(item, item', trace, n, id) && RecordsSwitches(item, trace, n, a, id)
    ensures RecordsSwitches(item', trace, n + 1, a, id)
  {
    assert Withdrawn(trace, n + 1, a, id) <==> Withdrawn(trace, n, a, id) || WithdrawnAt(trace, n, id);
    assert Enlisted(trace, n + 1, a, id) <==> Enlisted(trace, n, a, id) || IntervalAt(trace, n, id);
  }

  lemma {:induction false} StartsStep(item: Item, item': Item, trace: seq<Event>, n: nat, a: nat, id: Id)
    requires a < n < |trace| && Becomes(item, item', trace, n, id) && RecordsStarts(item, trace, n, a, id)
    ensures RecordsStarts(item', trace, n + 1, a, id)
  {
    forall t: Time
      ensures Held(item', t) <==> PassedSinceStarts(trace, n + 1, a, id, item.minimumInterval, t)
    {
      assert Held(item, t) <==> PassedSinceStarts(trace, n, a, id, item.minimumInterval, t);
      assert Held(item', t) <==>
        Held(item, t) && (StartedAt(trace, n, id) ==> trace[n].now + item.minimumInterval <= t);
    }
  }

  /** A request at event n counts, and so do those before it unless event n is a start or a clear. */
  lemma {:induction false} RequestGrows(trace: seq<Event>, n: nat, a: nat, id: Id, t: Time)
    requires a < n < |trace|
    ensures RequestDue(trace, n + 1, a, id, t) <==>
              || (RequestDue(trace, n, a, id, t) && !StartedAt(trace, n, id) && !ClearedAt(trace, n, id))
              || (trace[n].step.Schedule? && trace[n].step.id == id && Enlisted(trace, n, a, id)
                  && trace[n].now + trace[n].step.delay <= t)
  {
    forall k: nat | k < n
      ensures Counts(trace, n + 1, a, k, id) <==>
                Counts(trace, n, a, k, id) && !StartedAt(trace, n, id) && !ClearedAt(trace, n, id)
    {
    }
    assert Counts(trace, n + 1, a, n, id) <==>
        trace[n].step.Schedule? && trace[n].step.id == id && Enlisted(trace, n, a, id);
  }

  lemma {:induction false} RequestStep(item: Item, item': Item, trace: seq<Event>, n: nat, a: nat, id: Id)
    requires a < n < |trace| && Becomes(item, item', trace, n, id)
    requires RecordsSwitches(item, trace, n, a, id) && RecordsRequest(item, trace, n, a, id)
    ensures RecordsRequest(item', trace, n + 1, a, id)
  {
    forall t: Time | Held(item', t) && !item'.stopping
      ensures item'.pending && item'.deadline <= t <==> RequestDue(trace, n + 1, a, id, t)
    {
      RequestGrows(trace, n, a, id, t);
    }
  }

  /** An interval given at event n replaces the one before it. */
  lemma {:induction false} PeriodGrows(trace: seq<Event>, n: nat, a: nat, i: nat, id: Id)
    requires a < n < |trace|
    ensures i < n ==> (InForce(trace, n + 1, a, i, id) <==>
              InForce(trace, n, a, i, id) && !IntervalAt(trace, n, id) && !ClearedAt(trace, n, id))
    ensures InForce(trace, n + 1, a, n, id) <==> IntervalAt(trace, n, id) && trace[n].step.interval != 0
  {
  }

  lemma {:induction false} PassedGrows(trace: seq<Event>, n: nat, i: nat, id: Id, t: Time)
    requires i <= n < |trace| && IntervalAt(trace, i, id)
    ensures PassedSince(trace, n + 1, i, id, t) <==>
              && (if i < n then PassedSince(trace, n, i, id, t) else trace[i].now + trace[i].step.interval <= t)
              && (i < n && StartedAt(trace, n, id) ==> trace[n].now + trace[i].step.interval <= t)
  {
  }

  lemma {:induction false} BeatingStep(item: Item, item': Item, trace: seq<Event>, n: nat, a: nat, i: nat, id: Id)
    requires a < n < |trace| && Becomes(item, item', trace, n, id) && !item'.stopping
    requires InForce(trace, n + 1, a, i, id) && (i < n ==> Beating(item, trace, n, i, id))
    requires item.period != 0 ==> item.nextPeriodic <= trace[n].now + item.period
    ensures Beating(item', trace, n + 1, i, id)
  {
    var m := n + 1;
    PeriodGrows(trace, n, a, i, id);
    forall t: Time
      ensures item'.nextPeriodic <= t <==> PassedSince(trace, m, i, id, t)
    {
      PassedGrows(trace, n, i, id, t);
      assert i < n ==> (item.nextPeriodic <= t <==> PassedSince(trace, n, i, id, t));
    }
  }

  lemma {:induction false} PeriodStep(item: Item, item': Item, trace: seq<Event>, n: nat, a: nat, id: Id, clock: Time)
    requires a < n < |trace| && Becomes(item, item', trace, n, id) && clock <= trace[n].now
    requires RecordsSwitches(item, trace, n, a, id) && RecordsPeriod(item, trace, n, a, id, clock)
    ensures RecordsPeriod(item', trace, n + 1, a, id, trace[n].now)
  {
    var m := n + 1;
    forall i: nat | InForce(trace, m, a, i, id) && !item'.stopping
      ensures Beating(item', trace, m, i, id)
    {
      PeriodGrows(trace, n, a, i, id);
      BeatingStep(item, item', trace, n, a, i, id);
    }
    if item'.period != 0 && !item'.stopping {
      if IntervalAt(trace, n, id) {
        assert InForce(trace, n + 1, a, n, id);
      } else {
        var i: nat :| InForce(trace, n, a, i, id);
        PeriodGrows(trace, n, a, i, id);
      }
    }
  }

  /** What the item holds is what the events have told it. */
  ghost predicate Records(item: Item, trace: seq<Event>, n: nat, a: nat, id: Id, clock: Time)
    requires a < |trace| && trace[a].step.Attach?
  {
    && item.minimumInterval == trace[a].step.minimumInterval
    && RecordsSwitches(item, trace, n, a, id) && RecordsStarts(item, trace, n, a, id)
    && RecordsRequest(item, trace, n, a, id) && RecordsPeriod(item, trace, n, a, id, clock)
  }

  lemma {:induction false} RecordsAll(trace: seq<Event>, n: nat, a: nat, id: Id)
    requires Ordered(EMPTY.clock, trace) && n <= |trace| && AttachedSince(trace, n, a, id)
    ensures Records(Find(Until(trace, n).items, id), trace, n, a, id, Until(trace, n).clock)
    decreases n
  {
    if a + 1 < n {
      var m := n - 1;
      RecordsAll(trace, m, a, id);
      Advance(trace, m, a, id);
      Reached(trace, m);
      var item, item', clock := Find(Until(trace, m).items, id), Find(Until(trace, n).items, id), Until(trace, m).clock;
      SwitchesStep(item, item', trace, m, a, id);
      StartsStep(item, item', trace, m, a, id);
      RequestStep(item, item', trace, m, a, id);
      PeriodStep(item, item', trace, m, a, id, clock);
    } else {
      Begun(trace, a, id);
    }
  }

  // ---------------------------------------------------------------------------
  // When the item is due.
  // ---------------------------------------------------------------------------

  /** In every run from power-up an attached item is due by time t exactly when it has been given
      an interval and is not being detached, the minimum interval it was attached with has passed
      since its last start, and either a request since then says so, or its last interval has
      passed since it was given and since that start. */
  lemma {:induction false} DueExactly(trace: seq<Event>, a: nat, id: Id, t: Time)
    requires Ordered(EMPTY.clock, trace) && AttachedSince(trace, |trace|, a, id)
    ensures Has(Run(EMPTY, trace).items, id)
    ensures var n := |trace|;
            IsDue(Find(Run(EMPTY, trace).items, id), t) <==>
              && Enlisted(trace, n, a, id) && !Withdrawn(trace, n, a, id)
              && PassedSinceStarts(trace, n, a, id, trace[a].step.minimumInterval, t)
              && (RequestDue(trace, n, a, id, t) || PeriodDue(trace, n, a, id, t))
  {
    var n := |trace|;
    RecordsAll(trace, n, a, id);
    assert trace[..n] == trace;
    var item := Find(Run(EMPTY, trace).items, id);
    assert Held(item, t) <==> PassedSinceStarts(trace, n, a, id, item.minimumInterval, t);
    assert !item.stopping && Held(item, t) ==> (item.pending && item.deadline <= t <==> RequestDue(trace, n, a, id, t));
    if !item.stopping {
      PeriodMeans(item, trace, n, a, id, Run(EMPTY, trace).clock, t);
    }
    DueMeans(item, t);
  }

  lemma {:induction false} PeriodMeans(item: Item, trace: seq<Event>, n: nat, a: nat, id: Id, clock: Time, t: Time)
    requires RecordsPeriod(item, trace, n, a, id, clock) && !item.stopping
    ensures item.period != 0 && item.nextPeriodic <= t <==> PeriodDue(trace, n, a, id, t)
  {
    if item.period != 0 {
      var i: nat :| InForce(trace, n, a, i, id);
      assert Beating(item, trace, n, i, id);
      assert item.nextPeriodic <= t <==> PassedSince(trace, n, i, id, t);
      forall j: nat | InForce(trace, n, a, j, id)
        ensures j == i
      {
        assert !(i < j) && !(j < i);
      }
    }
  }

  lemma DueMeans(item: Item, t: Time)
    ensures IsDue(item, t) <==>
              && item.enabled && Held(item, t)
              && ((item.pending && item.deadline <= t) || (item.period != 0 && item.nextPeriodic <= t))
  {
  }

  /** Event i has given the item an interval other than zero, and it has been left alone since. */
  ghost predicate Periodic(trace: seq<Event>, a: nat, i: nat, id: Id)
  {
    InForce(trace, |trace|, a, i, id) && !Withdrawn(trace, |trace|, a, id)
  }

  /** The heartbeat an interval gives: the item is due again at the latest when the larger of that
      interval and its minimum interval has passed since it was given and since the last start. */
  lemma {:induction false} IntervalBeats(trace: seq<Event>, a: nat, i: nat, id: Id, since: Time)
    requires Ordered(EMPTY.clock, trace) && AttachedSince(trace, |trace|, a, id) && Periodic(trace, a, i, id)
    requires trace[i].now <= since && PassedSinceStarts(trace, |trace|, a, id, 0, since)
    ensures Has(Run(EMPTY, trace).items, id)
    ensures IsDue(Find(Run(EMPTY, trace).items, id),
                  since + Later(trace[i].step.interval, trace[a].step.minimumInterval))
  {
    var t := since + Later(trace[i].step.interval, trace[a].step.minimumInterval);
    DueExactly(trace, a, id, t);
    assert PassedSince(trace, |trace|, i, id, t);
  }

  /** And nothing else makes it due: without a request it is not due before the interval has
      passed since it was given and since every start that came after that. */
  lemma {:induction false} NotBeforeInterval(trace: seq<Event>, a: nat, i: nat, id: Id, t: Time)
    requires Ordered(EMPTY.clock, trace) && AttachedSince(trace, |trace|, a, id) && Periodic(trace, a, i, id)
    requires forall k :: a < k < |trace| ==> !(trace[k].step.Schedule? && trace[k].step.id == id)
    requires Has(Run(EMPTY, trace).items, id) && IsDue(Find(Run(EMPTY, trace).items, id), t)
    ensures trace[i].now + trace[i].step.interval <= t
    ensures forall s :: i < s < |trace| && StartedAt(trace, s, id) ==> trace[s].now + trace[i].step.interval <= t
  {
    DueExactly(trace, a, id, t);
    var j: nat :| InForce(trace, |trace|, a, j, id) && PassedSince(trace, |trace|, j, id, t);
    assert !(i < j) && !(j < i);
  }
}
