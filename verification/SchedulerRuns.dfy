/** Properties of every run of the work queue: rate limit, heartbeat, bounded bypass,
    and what a detach request guarantees. */
module SchedulerRuns {
  import opened Options
  import opened Scheduler

  datatype Event = Event(step: Step, now: Time)
  datatype Start = Start(id: Id, time: Time)

  /** The events happen at times that never go back. */
  ghost predicate Ordered(clock: Time, trace: seq<Event>)
    decreases trace
  {
    trace == [] || (clock <= trace[0].now && Ordered(trace[0].now, trace[1..]))
  }

  function Run(q: Queue, trace: seq<Event>): Queue
    decreases trace
  {
    if trace == [] then q else Run(Apply(q, trace[0].step, trace[0].now), trace[1..])
  }

  /** The item that the step makes the worker start. */
  function StartedBy(q: Queue, e: Event): Option<Id>
  {
    if e.step.Scan? && q.worker.Idle? && !q.exit then
      var k := Select(q.items, e.now);
      if k.Some? then Some(q.items[k.value].id) else None
    else None
  }

  /** Every start of a run, in order. */
  function Starts(q: Queue, trace: seq<Event>): seq<Start>
    decreases trace
  {
    if trace == [] then []
    else
      var s := StartedBy(q, trace[0]);
      var rest := Starts(Apply(q, trace[0].step, trace[0].now), trace[1..]);
      if s.Some? then [Start(s.value, trace[0].now)] + rest else rest
  }

  lemma {:induction false} RunKeepsInv(q: Queue, trace: seq<Event>)
    requires Inv(q) && Ordered(q.clock, trace)
    ensures Inv(Run(q, trace))
    decreases trace
  {
    if trace != [] {
      StepKeepsInv(q, trace[0].step, trace[0].now);
      RunKeepsInv(Apply(q, trace[0].step, trace[0].now), trace[1..]);
    }
  }

  lemma Sliced(trace: seq<Event>, i: nat)
    requires 0 < i <= |trace|
    ensures trace[..i][1..] == trace[1..][..i - 1] && trace[..i][0] == trace[0]
    ensures trace[1..][i - 1..] == trace[i..]
  {
  }

  /** A run cut in two. */
  lemma {:induction false} RunSplit(q: Queue, trace: seq<Event>, i: nat)
    requires Inv(q) && Ordered(q.clock, trace) && i <= |trace|
    ensures var m := Run(q, trace[..i]);
            Inv(m) && Ordered(m.clock, trace[i..]) && Run(q, trace) == Run(m, trace[i..])
    decreases trace
  {
    if i == 0 {
      assert trace[0..] == trace;
    } else {
      var q' := Apply(q, trace[0].step, trace[0].now);
      StepKeepsInv(q, trace[0].step, trace[0].now);
      RunFrom(q, trace, 0);
      assert trace[0..] == trace;
      RunSplit(q', trace[1..], i - 1);
      Sliced(trace, i);
    }
  }

  lemma {:induction false} OrderedPrefix(clock: Time, trace: seq<Event>, j: nat)
    requires Ordered(clock, trace) && j <= |trace|
    ensures Ordered(clock, trace[..j])
    decreases trace
  {
    if j != 0 {
      OrderedPrefix(trace[0].now, trace[1..], j - 1);
      assert trace[..j][1..] == trace[1..][..j - 1];
    }
  }

  lemma RunFrom(q: Queue, trace: seq<Event>, i: nat)
    requires i < |trace|
    ensures Run(q, trace[i..]) == Run(Apply(q, trace[i].step, trace[i].now), trace[i + 1..])
    ensures forall clock: Time :: Ordered(clock, trace[i..]) <==>
              clock <= trace[i].now && Ordered(trace[i].now, trace[i + 1..])
    ensures Apply(q, trace[i].step, trace[i].now).clock == trace[i].now
  {
    assert trace[i..][1..] == trace[i + 1..];
  }

  lemma Between(trace: seq<Event>, i: nat, j: nat)
    requires Ordered(EMPTY.clock, trace) && i < j <= |trace|
    ensures var q := Apply(Run(EMPTY, trace[..i]), trace[i].step, trace[i].now);
            Ordered(q.clock, trace[i + 1..j]) && Run(q, trace[i + 1..j]) == Run(EMPTY, trace[..j])
  {
    var first := trace[..j];
    EmptyInv();
    OrderedPrefix(EMPTY.clock, trace, j);
    RunSplit(EMPTY, first, i);
    RunFrom(Run(EMPTY, first[..i]), first, i);
    assert first[..i] == trace[..i] && first[i + 1..] == trace[i + 1..j];
  }

  /** In every reachable state a worker that is asleep, with no broadcast issued since it went
      to sleep, wakes no later than any item's effective deadline. */
  lemma NeverOversleeps(trace: seq<Event>, i: nat)
    requires Ordered(EMPTY.clock, trace)
    requires var q := Run(EMPTY, trace); i < |q.items| && q.worker.Sleeping? && !q.worker.signalled
    ensures var q := Run(EMPTY, trace); !Before(Effective(q.items[i]), q.worker.wake)
  {
    EmptyInv();
    RunKeepsInv(EMPTY, trace);
  }

  /** And it never sleeps for nothing: it goes to sleep only when nothing is due, until exactly
      the earliest effective deadline of all items. */
  lemma SleepsUntilEarliest(q: Queue, now: Time)
    requires Inv(q) && q.clock <= now && q.worker.Idle? && Apply(q, Scan, now).worker.Sleeping?
    ensures var wake := Apply(q, Scan, now).worker.wake;
            && !Apply(q, Scan, now).worker.signalled
            && (forall i :: 0 <= i < |q.items| ==> !Before(Effective(q.items[i]), wake))
            && (wake.At? ==> wake.time > now && exists k :: 0 <= k < |q.items| && Effective(q.items[k]) == wake)
  {
    NextWakeIsMinimum(q.items);
    SelectIsEarliest(q.items, now);
  }

  // ---------------------------------------------------------------------------
  // One step, item by item.
  // ---------------------------------------------------------------------------

  /** What the step does to an item that stays attached. */
  function After(q: Queue, item: Item, e: Event): (r: Item)
    ensures r.id == item.id && r.minimumInterval == item.minimumInterval
  {
    match e.step
    case DetachRequest(id) => if item.id == id then Disabled(item) else item
    case Schedule(id, delay) => if item.id == id then Requesting(item, delay, e.now) else item
    case SetInterval(id, interval) => if item.id == id then Activated(item, interval, e.now) else item
    case Clear(id) => if item.id == id then Cleared(item) else item
    case Scan => if StartedBy(q, e) == Some(item.id) then Starting(item, e.now) else item
    case FinishRun => if q.worker == Running(item.id) then item.(running := false) else item
    case _ => item
  }

  /** A step drops at most one item (at index `removed`) or appends at most one. */
  ghost predicate Moves(q: Queue, items': seq<Item>, e: Event, removed: Option<nat>)
  {
    match removed
    case Some(k) =>
      && e.step.DetachRemove? && k < |q.items| && q.items[k].id == e.step.id
      && items' == Drop(q.items, k)
    case None =>
      && |q.items| <= |items'| <= |q.items| + 1
      && (forall i :: 0 <= i < |q.items| ==> items'[i] == After(q, q.items[i], e))
      && (|items'| == |q.items| + 1 ==>
            && e.step.Attach? && !Has(q.items, e.step.item.id)
            && items'[|q.items|] == Attaching(e.step.item, e.step.minimumInterval))
  }

  lemma Follow(q: Queue, e: Event) returns (removed: Option<nat>)
    requires Inv(q) && q.clock <= e.now
    ensures Moves(q, Apply(q, e.step, e.now).items, e, removed)
  {
    removed := None;
    match e.step
    case DetachRemove(id) =>
      if Has(q.items, id) && !q.items[Position(q.items, id).value].running {
        removed := Position(q.items, id);
      }
    case Scan =>
      if StartedBy(q, e).Some? {
        PositionOf(q.items, Select(q.items, e.now).value);
      }
    case FinishRun =>
    case _ =>
  }

  function Find(items: seq<Item>, id: Id): (item: Item)
    requires Has(items, id)
    ensures item.id == id
  {
    items[Position(items, id).value]
  }

  /** The item with the given id after a step that does not take it off the list. */
  lemma FindAfter(q: Queue, e: Event, id: Id)
    requires Inv(q) && q.clock <= e.now && Has(q.items, id) && e.step != DetachRemove(id)
    ensures var q' := Apply(q, e.step, e.now);
            Has(q'.items, id) && Find(q'.items, id) == After(q, Find(q.items, id), e)
  {
    var removed := Follow(q, e);
    StepKeepsInv(q, e.step, e.now);
    FindMoved(q, Apply(q, e.step, e.now).items, e, removed, id);
  }

  lemma FindMoved(q: Queue, items': seq<Item>, e: Event, removed: Option<nat>, id: Id)
    requires Moves(q, items', e, removed) && UniqueIds(q.items) && UniqueIds(items')
    requires Has(q.items, id) && e.step != DetachRemove(id)
    ensures Has(items', id) && Find(items', id) == After(q, Find(q.items, id), e)
  {
    var i := Position(q.items, id).value;
    if removed.Some? {
      assert i != removed.value && After(q, q.items[i], e) == q.items[i];
      PositionOf(items', if i > removed.value then i - 1 else i);
    } else {
      PositionOf(items', i);
    }
  }

  lemma StartedIsDue(q: Queue, e: Event, id: Id)
    requires Inv(q) && StartedBy(q, e) == Some(id)
    ensures Has(q.items, id) && IsDue(Find(q.items, id), e.now)
  {
    PositionOf(q.items, Select(q.items, e.now).value);
  }

  lemma EffectiveBound(item: Item)
    requires Effective(item).At?
    ensures item.lastStart != 0 ==> item.lastStart + item.minimumInterval <= Effective(item).time
    ensures (item.pending && item.deadline <= Effective(item).time)
            || (item.period != 0 && item.nextPeriodic <= Effective(item).time)
  {
  }

  /** Requests coalesce: whatever was asked before, a request leaves the item due at the earlier
      of when it was due already and when this request, held back by the minimum interval,
      would have it start. */
  lemma RequestsCoalesce(item: Item, delay: Time, now: Time)
    requires item.enabled
    ensures var asked := if item.lastStart != 0 then Later(now + delay, item.lastStart + item.minimumInterval)
            else now + delay;
            Effective(Requesting(item, delay, now)) == Earlier(Effective(item), At(asked))
  {
    EffectiveCases(item);
    EffectiveCases(Requesting(item, delay, now));
  }

  lemma EffectiveCases(item: Item)
    requires item.enabled
    ensures Effective(item) == match Requested(item) {
              case Never => Never
              case At(t) => At(if item.lastStart != 0 then Later(t, item.lastStart + item.minimumInterval) else t)
            }
  {
  }

  // ---------------------------------------------------------------------------
  // Rate limit.
  // ---------------------------------------------------------------------------

  ghost predicate NeverRemoved(trace: seq<Event>, id: Id)
  {
    forall i :: 0 <= i < |trace| ==> trace[i].step != DetachRemove(id)
  }

  /** The item is attached with this interval, and started last at `last` or later. */
  ghost predicate StartedSince(q: Queue, id: Id, last: Time, interval: Time)
  {
    && Has(q.items, id)
    && var item := Find(q.items, id); item.lastStart >= last && item.minimumInterval == interval
  }

  lemma StartedSinceStep(q: Queue, e: Event, id: Id, last: Time, interval: Time)
    requires Inv(q) && q.clock <= e.now
    requires StartedSince(q, id, last, interval) && last > 0
    requires e.step != DetachRemove(id)
    ensures StartedSince(Apply(q, e.step, e.now), id, last, interval)
    ensures StartedBy(q, e) == Some(id) ==>
              && last + interval <= e.now
              && StartedSince(Apply(q, e.step, e.now), id, e.now, interval)
  {
    FindAfter(q, e, id);
    if StartedBy(q, e) == Some(id) {
      StartedIsDue(q, e, id);
      EffectiveBound(Find(q.items, id));
    }
    assert Find(q.items, id).lastStart <= q.clock;
  }

  lemma {:induction false} StartedSinceRun(q: Queue, trace: seq<Event>, id: Id, last: Time, interval: Time)
    requires Inv(q) && Ordered(q.clock, trace) && NeverRemoved(trace, id)
    requires StartedSince(q, id, last, interval) && last > 0
    ensures StartedSince(Run(q, trace), id, last, interval)
    decreases trace
  {
    if trace != [] {
      var e, tail := trace[0], trace[1..];
      StartedSinceStep(q, e, id, last, interval);
      StepKeepsInv(q, e.step, e.now);
      assert forall i :: 0 <= i < |tail| ==> tail[i] == trace[i + 1];
      StartedSinceRun(Apply(q, e.step, e.now), tail, id, last, interval);
    }
  }

  /** The state just before event i. */
  function Until(trace: seq<Event>, i: nat): Queue
    requires i <= |trace|
  {
    Run(EMPTY, trace[..i])
  }

  /** However many requests arrive, and whatever else happens from power-up on: two starts of an
      item with no removal of it in between are at least its minimum interval apart. */
  lemma {:induction false} RateLimit(trace: seq<Event>, i: nat, j: nat, id: Id)
    requires Ordered(EMPTY.clock, trace) && i < j < |trace|
    requires StartedBy(Until(trace, i), trace[i]) == Some(id) && StartedBy(Until(trace, j), trace[j]) == Some(id)
    requires forall k :: i < k < j ==> trace[k].step != DetachRemove(id)
    ensures var items := Until(trace, i).items;
            Has(items, id) && trace[i].now + Find(items, id).minimumInterval <= trace[j].now
  {
    EmptyInv();
    RunSplit(EMPTY, trace, i);
    RunSplit(EMPTY, trace, j);
    var q, e, between := Until(trace, i), trace[i], trace[i + 1..j];
    StartedIsDue(q, e, id);
    var interval := Find(q.items, id).minimumInterval;
    FindAfter(q, e, id);
    StepKeepsInv(q, e.step, e.now);
    Between(trace, i, j);
    StartedSinceRun(Apply(q, e.step, e.now), between, id, e.now, interval);
    StartedSinceStep(Until(trace, j), trace[j], id, e.now, interval);
  }

  // ---------------------------------------------------------------------------
  // Heartbeat.
  // ---------------------------------------------------------------------------

  /** The step is none of those by which the owner cancels, reconfigures or withdraws the item. */
  predicate LeavesAlone(step: Step, id: Id)
  {
    step != DetachRequest(id) && step != DetachRemove(id) && step != Clear(id)
    && !(step.SetInterval? && step.id == id)
  }

  ghost predicate LeftAlone(trace: seq<Event>, id: Id)
  {
    forall i :: 0 <= i < |trace| ==> LeavesAlone(trace[i].step, id)
  }

  function Later(a: Time, b: Time): Time { if a < b then b else a }

  /** An enabled periodic item that started at `start` is due again by `start` plus the larger
      of its period and its minimum interval. */
  ghost predicate Beats(item: Item, start: Time)
  {
    && item.enabled && item.period != 0
    && item.lastStart == start && item.nextPeriodic <= start + item.period
    && Effective(item).At? && Effective(item).time <= start + Later(item.period, item.minimumInterval)
  }

  ghost predicate BeatsWithin(q: Queue, id: Id, start: Time)
  {
    Has(q.items, id) && Beats(Find(q.items, id), start)
  }

  lemma RequestingBeats(item: Item, delay: Time, now: Time, start: Time)
    requires Beats(item, start)
    ensures Beats(Requesting(item, delay, now), start)
  {
  }

  lemma StartingBeats(item: Item, now: Time)
    requires item.enabled && item.period != 0
    ensures Beats(Starting(item, now), now)
  {
  }

  lemma BeatStep(q: Queue, e: Event, id: Id, start: Time)
    requires Inv(q) && q.clock <= e.now && LeavesAlone(e.step, id)
    requires BeatsWithin(q, id, start)
    ensures BeatsWithin(Apply(q, e.step, e.now), id, if StartedBy(q, e) == Some(id) then e.now else start)
  {
    FindAfter(q, e, id);
    var item := Find(q.items, id);
    match e.step
    case Schedule(_, delay) => RequestingBeats(item, delay, e.now, start);
    case Scan => StartingBeats(item, e.now);
    case _ =>
  }

  /** Starting an enabled periodic item establishes the heartbeat. */
  lemma StartBeats(q: Queue, e: Event, id: Id)
    requires Inv(q) && q.clock <= e.now
    requires StartedBy(q, e) == Some(id) && Has(q.items, id) && Find(q.items, id).period != 0
    ensures BeatsWithin(Apply(q, e.step, e.now), id, e.now)
  {
    StartedIsDue(q, e, id);
    FindAfter(q, e, id);
    StartingBeats(Find(q.items, id), e.now);
  }

  /** The last start of an item in a run that began with its start at `start`. */
  function LastStart(q: Queue, trace: seq<Event>, id: Id, start: Time): Time
    decreases trace
  {
    if trace == [] then start
    else
      var last := if StartedBy(q, trace[0]) == Some(id) then trace[0].now else start;
      LastStart(Apply(q, trace[0].step, trace[0].now), trace[1..], id, last)
  }

  /** Over every run that leaves the item alone, its next effective deadline never slips
      beyond its last start plus the larger of period and minimum interval. */
  lemma {:induction false} Heartbeat(q: Queue, trace: seq<Event>, id: Id, start: Time)
    requires Inv(q) && Ordered(q.clock, trace) && LeftAlone(trace, id)
    requires BeatsWithin(q, id, start)
    ensures BeatsWithin(Run(q, trace), id, LastStart(q, trace, id, start))
    decreases trace
  {
    if trace != [] {
      var e, tail := trace[0], trace[1..];
      var last := if StartedBy(q, e) == Some(id) then e.now else start;
      BeatStep(q, e, id, start);
      StepKeepsInv(q, e.step, e.now);
      Heartbeat(Apply(q, e.step, e.now), tail, id, last);
    }
  }

  // ---------------------------------------------------------------------------
  // Detach.
  // ---------------------------------------------------------------------------

  /** The item, if attached, is being stopped. */
  ghost predicate StoppingOrGone(q: Queue, id: Id)
  {
    forall i :: 0 <= i < |q.items| && q.items[i].id == id ==> q.items[i].stopping
  }

  ghost predicate NeverAttached(trace: seq<Event>, id: Id)
  {
    forall i :: 0 <= i < |trace| ==> trace[i].step.Attach? ==> trace[i].step.item.id != id
  }

  lemma StoppingStep(q: Queue, e: Event, id: Id)
    requires Inv(q) && q.clock <= e.now && StoppingOrGone(q, id)
    requires e.step.Attach? ==> e.step.item.id != id
    ensures StoppingOrGone(Apply(q, e.step, e.now), id)
    ensures StartedBy(q, e) != Some(id)
  {
    var removed := Follow(q, e);
  }

  lemma {:induction false} StoppingNeverStarts(q: Queue, trace: seq<Event>, id: Id)
    requires Inv(q) && Ordered(q.clock, trace)
    requires StoppingOrGone(q, id) && NeverAttached(trace, id)
    ensures forall i :: 0 <= i < |Starts(q, trace)| ==> Starts(q, trace)[i].id != id
    decreases trace
  {
    if trace != [] {
      var e, tail := trace[0], trace[1..];
      StoppingStep(q, e, id);
      StepKeepsInv(q, e.step, e.now);
      assert forall i :: 0 <= i < |tail| ==> tail[i] == trace[i + 1];
      StoppingNeverStarts(Apply(q, e.step, e.now), tail, id);
    }
  }

  /** After a detach request, timed out or not, the item never starts another Run until it
      has been taken off the list and attached again; requests and intervals change nothing. */
  lemma NoRunAfterDetach(q: Queue, id: Id, now: Time, trace: seq<Event>)
    requires Inv(q) && q.clock <= now && Ordered(now, trace) && NeverAttached(trace, id)
    ensures forall s :: s in Starts(Apply(q, DetachRequest(id), now), trace) ==> s.id != id
  {
    StepKeepsInv(q, DetachRequest(id), now);
    StoppingNeverStarts(Apply(q, DetachRequest(id), now), trace, id);
  }

  /** Nothing is requested of the item, now or periodically. */
  ghost predicate Unrequested(q: Queue, id: Id)
  {
    forall i :: 0 <= i < |q.items| && q.items[i].id == id ==> !q.items[i].pending && q.items[i].period == 0
  }

  ghost predicate NeverRequested(trace: seq<Event>, id: Id)
  {
    forall i :: 0 <= i < |trace| ==>
      !(trace[i].step.Schedule? && trace[i].step.id == id) && !(trace[i].step.SetInterval? && trace[i].step.id == id)
  }

  lemma UnrequestedStep(q: Queue, e: Event, id: Id)
    requires Inv(q) && q.clock <= e.now && Unrequested(q, id)
    requires !(e.step.Schedule? && e.step.id == id) && !(e.step.SetInterval? && e.step.id == id)
    ensures Unrequested(Apply(q, e.step, e.now), id)
    ensures StartedBy(q, e) != Some(id)
  {
    var removed := Follow(q, e);
  }

  lemma {:induction false} UnrequestedNeverStarts(q: Queue, trace: seq<Event>, id: Id)
    requires Inv(q) && Ordered(q.clock, trace)
    requires Unrequested(q, id) && NeverRequested(trace, id)
    ensures forall i :: 0 <= i < |Starts(q, trace)| ==> Starts(q, trace)[i].id != id
    decreases trace
  {
    if trace != [] {
      var e, tail := trace[0], trace[1..];
      UnrequestedStep(q, e, id);
      StepKeepsInv(q, e.step, e.now);
      assert forall i :: 0 <= i < |tail| ==> tail[i] == trace[i + 1];
      UnrequestedNeverStarts(Apply(q, e.step, e.now), tail, id);
    }
  }

  /** After a clear the item does not start until it is requested or given an interval again. */
  lemma NoRunAfterClear(q: Queue, id: Id, now: Time, trace: seq<Event>)
    requires Inv(q) && q.clock <= now && Ordered(now, trace) && NeverRequested(trace, id)
    ensures forall s :: s in Starts(Apply(q, Clear(id), now), trace) ==> s.id != id
  {
    StepKeepsInv(q, Clear(id), now);
    UnrequestedNeverStarts(Apply(q, Clear(id), now), trace, id);
  }

  /** A detach never takes an item off the list during its Run, and it does at any other time. */
  lemma DetachWaitsForRun(q: Queue, id: Id, now: Time)
    requires Inv(q) && q.clock <= now
    ensures q.worker == Running(id) ==> Has(Apply(q, DetachRemove(id), now).items, id)
    ensures q.worker != Running(id) ==> !Has(Apply(q, DetachRemove(id), now).items, id)
  {
  }

  // ---------------------------------------------------------------------------
  // Bounded bypass.
  // ---------------------------------------------------------------------------

  /** Item x at index i cannot be selected before the item at index a that is due by `mark`:
      it started since, or it stands behind with requests made since only. */
  ghost predicate Blocked(x: Item, i: nat, a: nat, mark: Time)
  {
    || (x.lastStart >= mark && x.minimumInterval > 0)
    || (a < i && (x.pending ==> x.deadline >= mark) && (x.period != 0 ==> x.nextPeriodic >= mark))
  }

  /** Only items in `allowed` may still start before the item at index a. */
  ghost predicate Overtakers(items: seq<Item>, a: nat, mark: Time, allowed: set<Id>)
  {
    && a < |items| && items[a].id !in allowed && IsDue(items[a], mark)
    && forall i :: 0 <= i < |items| ==>
         items[i].minimumInterval > 0 && (i != a && items[i].id !in allowed ==> Blocked(items[i], i, a, mark))
  }

  /** A start uses up the right to overtake, and so does attaching anew. */
  function Allowed(q: Queue, e: Event, allowed: set<Id>): set<Id>
  {
    var started := StartedBy(q, e);
    if started.Some? then allowed - {started.value}
    else if e.step.Attach? && !Has(q.items, e.step.item.id) then allowed - {e.step.item.id}
    else allowed
  }

  lemma BlockedStays(q: Queue, x: Item, i: nat, a: nat, e: Event, mark: Time)
    requires 0 < mark <= e.now
    requires Blocked(x, i, a, mark)
    ensures Blocked(After(q, x, e), i, a, mark)
  {
    var x' := After(q, x, e);
    if x.lastStart >= mark && x.minimumInterval > 0 {
      assert x'.lastStart >= mark && x'.minimumInterval > 0;
    }
  }

  lemma DueStays(q: Queue, x: Item, e: Event, mark: Time)
    requires IsDue(x, mark) && LeavesAlone(e.step, x.id) && StartedBy(q, e) != Some(x.id)
    ensures IsDue(After(q, x, e), mark)
  {
  }

  /** The worker selects a blocked item only after the item it must not overtake. */
  lemma SelectRespects(items: seq<Item>, a: nat, mark: Time, allowed: set<Id>, now: Time)
    requires 0 < mark <= now && Overtakers(items, a, mark, allowed)
    ensures Select(items, now).Some?
    ensures var k := Select(items, now).value; k == a || items[k].id in allowed
  {
    SelectIsEarliest(items, now);
    assert IsDue(items[a], now);
    var k := Select(items, now).value;
    if k != a {
      EffectiveBound(items[k]);
    }
  }

  lemma OvertakersStep(q: Queue, e: Event, a: nat, mark: Time, allowed: set<Id>) returns (a': nat)
    requires Inv(q) && q.clock <= e.now && 0 < mark <= q.clock
    requires Overtakers(q.items, a, mark, allowed) && LeavesAlone(e.step, q.items[a].id)
    requires e.step.Attach? ==> e.step.minimumInterval > 0
    requires StartedBy(q, e) != Some(q.items[a].id)
    ensures Overtakers(Apply(q, e.step, e.now).items, a', mark, Allowed(q, e, allowed))
    ensures Apply(q, e.step, e.now).items[a'].id == q.items[a].id
    ensures StartedBy(q, e).Some? ==> StartedBy(q, e).value in allowed
  {
    var removed := Follow(q, e);
    if StartedBy(q, e).Some? {
      SelectRespects(q.items, a, mark, allowed, e.now);
    }
    a' := OvertakersMoved(q, Apply(q, e.step, e.now).items, e, removed, a, mark, allowed);
  }

  lemma OvertakersMoved(q: Queue, items': seq<Item>, e: Event, removed: Option<nat>, a: nat, mark: Time,
                        allowed: set<Id>)
    returns (a': nat)
    requires Moves(q, items', e, removed) && 0 < mark <= e.now && UniqueIds(q.items)
    requires Overtakers(q.items, a, mark, allowed) && LeavesAlone(e.step, q.items[a].id)
    requires e.step.Attach? ==> e.step.minimumInterval > 0
    requires StartedBy(q, e) != Some(q.items[a].id)
    ensures Overtakers(items', a', mark, Allowed(q, e, allowed))
    ensures items'[a'].id == q.items[a].id
  {
    if removed.Some? {
      a' := if a < removed.value then a else a - 1;
    } else {
      a' := a;
      DueStays(q, q.items[a], e, mark);
      forall i | 0 <= i < |q.items| && i != a && q.items[i].id !in Allowed(q, e, allowed)
        ensures Blocked(items'[i], i, a, mark)
      {
        if q.items[i].id !in allowed {
          BlockedStays(q, q.items[i], i, a, e, mark);
        }
      }
    }
  }

  /** While an item is due and is left alone, every other item starts at most once before it,
      and items attached since do not start at all. */
  lemma {:induction false} BoundedBypass(q: Queue, trace: seq<Event>, a: nat, mark: Time, allowed: set<Id>)
    requires Inv(q) && Ordered(q.clock, trace) && 0 < mark <= q.clock
    requires Overtakers(q.items, a, mark, allowed) && LeftAlone(trace, q.items[a].id)
    requires forall i :: 0 <= i < |trace| && trace[i].step.Attach? ==> trace[i].step.minimumInterval > 0
    requires forall s :: s in Starts(q, trace) ==> s.id != q.items[a].id
    ensures OnceEach(Starts(q, trace), allowed)
    decreases trace
  {
    if trace != [] {
      var e, tail := trace[0], trace[1..];
      var q' := Apply(q, e.step, e.now);
      if StartedBy(q, e).Some? {
        assert Start(StartedBy(q, e).value, e.now) in Starts(q, trace);
      }
      var a' := OvertakersStep(q, e, a, mark, allowed);
      StepKeepsInv(q, e.step, e.now);
      assert forall i :: 0 <= i < |tail| ==> tail[i] == trace[i + 1];
      assert forall s :: s in Starts(q', tail) ==> s in Starts(q, trace);
      BoundedBypass(q', tail, a', mark, Allowed(q, e, allowed));
      OnceEachWeaken(Starts(q', tail), Allowed(q, e, allowed), allowed);
    }
  }

  /** Every start takes a different id out of `allowed`. */
  ghost predicate OnceEach(starts: seq<Start>, allowed: set<Id>)
    decreases starts
  {
    starts == [] || (starts[0].id in allowed && OnceEach(starts[1..], allowed - {starts[0].id}))
  }

  lemma {:induction false} OnceEachWeaken(starts: seq<Start>, small: set<Id>, large: set<Id>)
    requires OnceEach(starts, small) && small <= large
    ensures OnceEach(starts, large)
    decreases starts
  {
    if starts != [] {
      OnceEachWeaken(starts[1..], small - {starts[0].id}, large - {starts[0].id});
    }
  }

  lemma {:induction false} OnceEachMeans(starts: seq<Start>, allowed: set<Id>)
    requires OnceEach(starts, allowed)
    ensures forall i :: 0 <= i < |starts| ==> starts[i].id in allowed
    ensures forall i, j :: 0 <= i < j < |starts| ==> starts[i].id != starts[j].id
    ensures |starts| <= |allowed|
    decreases starts
  {
    if starts != [] {
      OnceEachMeans(starts[1..], allowed - {starts[0].id});
    }
  }

  function Ids(items: seq<Item>): set<Id> { set i | 0 <= i < |items| :: items[i].id }

  /** From any state with positive intervals in which the item at index a is due: before it
      starts, at most |items| - 1 other starts happen, all of distinct items attached now. */
  lemma DueItemWaitsAtMostOneRound(q: Queue, trace: seq<Event>, a: nat)
    requires Inv(q) && Ordered(q.clock, trace)
    requires a < |q.items| && IsDue(q.items[a], q.clock) && LeftAlone(trace, q.items[a].id)
    requires forall i :: 0 <= i < |q.items| ==> q.items[i].minimumInterval > 0
    requires forall i :: 0 <= i < |trace| && trace[i].step.Attach? ==> trace[i].step.minimumInterval > 0
    requires forall s :: s in Starts(q, trace) ==> s.id != q.items[a].id
    ensures var starts := Starts(q, trace);
            && (forall i :: 0 <= i < |starts| ==> starts[i].id in Ids(q.items))
            && (forall i, j :: 0 <= i < j < |starts| ==> starts[i].id != starts[j].id)
            && |starts| < |q.items|
  {
    var allowed := Ids(q.items) - {q.items[a].id};
    BoundedBypass(q, trace, a, q.clock, allowed);
    OnceEachMeans(Starts(q, trace), allowed);
    IdsCount(q.items);
    assert q.items[a].id in Ids(q.items);
  }

  lemma {:induction false} IdsCount(items: seq<Item>)
    ensures |Ids(items)| <= |items|
  {
    if items != [] {
      var n := |items| - 1;
      IdsCount(items[..n]);
      assert Ids(items) == Ids(items[..n]) + {items[n].id} by {
        forall x | x in Ids(items)
          ensures x in Ids(items[..n]) + {items[n].id}
        {
          var i :| 0 <= i < |items| && items[i].id == x;
          if i < n {
            assert items[..n][i].id == x;
          }
        }
        forall x | x in Ids(items[..n])
          ensures x in Ids(items)
        {
          var i :| 0 <= i < n && items[..n][i].id == x;
          assert items[i].id == x;
        }
      }
    }
  }

  /** And the worker does start something at every scan until then: it never sleeps. */
  lemma DueItemKeepsWorkerAwake(q: Queue, a: nat, now: Time)
    requires Inv(q) && q.clock <= now && q.worker.Idle?
    requires a < |q.items| && IsDue(q.items[a], now)
    ensures Apply(q, Scan, now).worker.Running?
  {
    SelectIsEarliest(q.items, now);
  }

  // ---------------------------------------------------------------------------
  // The worker.
  // ---------------------------------------------------------------------------

  /** What ends the worker's present sleep or Run. */
  function Ending(w: Worker): Step { if w.Sleeping? then Wake else FinishRun }

  /** Whatever the worker is at, with an item due it starts one at the scan that comes next. */
  lemma WorkerGetsToIt(q: Queue, a: nat, now: Time, later: Time)
    requires Inv(q) && q.started && q.clock <= now <= later && a < |q.items| && IsDue(q.items[a], later)
    ensures Apply(Apply(q, Ending(q.worker), now), Scan, later).worker.Running?
  {
    var q' := Apply(q, Ending(q.worker), now);
    StepKeepsInv(q, Ending(q.worker), now);
    assert IsDue(q'.items[a], later);
    SelectIsEarliest(q'.items, later);
  }

  /** Attached items have a worker exactly while the queue counts as started. */
  lemma AttachedHaveAWorker(trace: seq<Event>)
    requires Ordered(EMPTY.clock, trace) && Run(EMPTY, trace).items != []
    ensures var q := Run(EMPTY, trace); !q.exit && (q.started <==> !q.worker.Exited?)
  {
    EmptyInv();
    RunKeepsInv(EMPTY, trace);
  }

  /** An attach starts the worker in a region of its own. When a shutdown and a start that fails
      come before its second region, the item is attached without a worker. */
  lemma StrandedReachable(item: Item, interval: Time)
    requires !item.running
    ensures var trace := Stranding(item, interval);
            && Ordered(EMPTY.clock, trace)
            && Run(EMPTY, trace) == Queue([Attaching(item, interval)], Exited, false, false, 1)
  {
    var steps := Stranding(item, interval);
    var q := EMPTY;
    for i := 0 to 6
      invariant q ==
                [EMPTY, Queue([], Idle, true, false, 1), Queue([], Idle, true, true, 1),
                 Queue([], Exited, true, true, 1),
                      Queue([], Exited, false, true, 1), Queue([], Exited, false, false, 1),
                      Queue([Attaching(item, interval)], Exited, false, false, 1)][i]
      invariant Run(EMPTY, steps) == Run(q, steps[i..])
    {
      RunFrom(q, steps, i);
      q := Apply(q, steps[i].step, steps[i].now);
    }
    for i := 6 downto 0
      invariant Ordered(1, steps[i..])
    {
      RunFrom(EMPTY, steps, i);
    }
    assert steps[0..] == steps;
  }

  function Stranding(item: Item, interval: Time): seq<Event>
  {
    [Event(StartWorker(true), 1), Event(Shutdown, 1), Event(Scan, 1), Event(Join(true), 1),
     Event(StartWorker(false), 1), Event(Attach(item, interval), 1)]
  }
}
