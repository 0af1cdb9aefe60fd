/** Commands that nothing comes in between of: what a start sets up, that a stop or a failure takes
    all of it down again, and how a message gets to the object. */
module LifecycleTrips {
  import opened Options
  import opened Scheduler
  import opened SchedulerRuns
  import opened Lifecycle
  import opened LifecycleProofs

  /** The steps one after the other, all at the same time. */
  ghost function Do(s: System, steps: seq<Action>, now: Time): System
    decreases steps
  {
    if steps == [] then s else Do(Act(s, steps[0], now), steps[1..], now)
  }

  function Times(step: Action, n: nat): (steps: seq<Action>)
    ensures |steps| == n
  {
    if n == 0 then [] else Times(step, n - 1) + [step]
  }

  lemma {:induction false} DoAll(s: System, first: seq<Action>, second: seq<Action>, now: Time)
    ensures Do(s, first + second, now) == Do(Do(s, first, now), second, now)
    decreases first
  {
    if first == [] {
      assert first + second == second;
    } else {
      assert (first + second)[1..] == first[1..] + second;
      DoAll(Act(s, first[0], now), first[1..], second, now);
    }
  }

  lemma DoMore(s: System, steps: seq<Action>, step: Action, now: Time)
    ensures Do(s, steps + [step], now) == Act(Do(s, steps, now), step, now)
  {
    DoAll(s, steps, [step], now);
    assert [step][1..] == [];
  }

  lemma DoThree(s: System, a: Action, b: Action, c: Action, now: Time)
    ensures Do(s, [a, b], now) == Act(Act(s, a, now), b, now)
    ensures Do(s, [a, b, c], now) == Act(Act(Act(s, a, now), b, now), c, now)
  {
    assert [a, b, c][1..] == [b, c] && [a, b][1..] == [b] && [b, c][1..] == [c] && [b][1..] == [] && [c][1..] == [];
    var s1 := Act(s, a, now);
    assert Do(s1, [b], now) == Act(s1, b, now);
    assert Do(Act(s1, b, now), [c], now) == Act(Act(s1, b, now), c, now);
    assert Do(s1, [b, c], now) == Do(Act(s1, b, now), [c], now);
  }

  // ---------------------------------------------------------------------------
  // A start.
  // ---------------------------------------------------------------------------

  /** No command is at work, nothing is up, no publisher holds a callback lock, and id is new. */
  ghost predicate Ready(s: System, id: Id)
  {
    && s.starters == [] && s.stoppers == [] && s.published.None? && !s.stopInProgress && !s.queue.exit
    && id !in s.mine && !Has(s.queue.items, id) && Silent(s)
  }

  ghost predicate Silent(s: System) { forall t :: 0 <= t < |s.topics| ==> s.topics[t].notifying.None? }

  function Registers(id: Id, interval: Time, n: nat): seq<Action>
  {
    [Action.Start(StartBegin(id)), Action.Start(StartAttach(interval, true))]
    + Times(Action.Start(StartRegister(false)), n)
  }

  function Promotes(period: Time): seq<Action>
  {
    [Action.Start(StartPublish), Action.Start(StartActivate(period)), Action.Start(StartPrompt)]
  }

  function Starts(id: Id, interval: Time, period: Time, n: nat): seq<Action>
  {
    Registers(id, interval, n) + Promotes(period)
  }

  /** The topics with the object added to the first k of them. */
  ghost predicate Joined(before: seq<Topic>, after: seq<Topic>, id: Id, k: nat)
  {
    && |after| == |before|
    && forall t :: 0 <= t < |before| ==>
         after[t] == if t < k then before[t].(registered := before[t].registered + {id}) else before[t]
  }

  /** An object on its way up, registered with the first k topics. */
  ghost predicate OnItsWay(s: System, s': System, id: Id, interval: Time, k: nat)
  {
    && s'.starters == [Starter(id, Registering(k))] && s'.stoppers == [] && s'.published.None? && !s'.stopInProgress
    && s'.alive == s.alive + {id} && s'.mine == s.mine + {id} && Joined(s.topics, s'.topics, id, k)
    && s'.queue.items == s.queue.items + [Item(id, false, false, false, false, 0, 0, 0, 0, interval)]
    && s'.queue.started == s.queue.started && !s'.queue.exit && AllUnread(s')
  }

  /** Of whatever has been published so far, nothing has been read. */
  ghost predicate AllUnread(s: System)
  {
    |s.seen| == |s.topics| && forall t :: 0 <= t < |s.seen| ==> s.seen[t] == 0
  }

  lemma {:induction false} ZerosAreZero(n: nat)
    ensures forall t :: 0 <= t < n ==> Zeros(n)[t] == 0
  {
    if n != 0 {
      ZerosAreZero(n - 1);
    }
  }

  lemma Attached(s: System, id: Id, interval: Time, now: Time)
    requires Ready(s, id)
    ensures OnItsWay(s, Do(s, Registers(id, interval, 0), now), id, interval, 0)
  {
    var begin, attach := Action.Start(StartBegin(id)), Action.Start(StartAttach(interval, true));
    DoThree(s, begin, attach, attach, now);
    ZerosAreZero(|s.topics|);
  }

  lemma {:induction false} Registered(s: System, id: Id, interval: Time, k: nat, now: Time)
    requires Ready(s, id) && k <= |s.topics|
    ensures OnItsWay(s, Do(s, Registers(id, interval, k), now), id, interval, k)
  {
    if k == 0 {
      Attached(s, id, interval, now);
    } else {
      Registered(s, id, interval, k - 1, now);
      var steps := Registers(id, interval, k - 1);
      assert Registers(id, interval, k) == steps + [Action.Start(StartRegister(false))];
      DoMore(s, steps, Action.Start(StartRegister(false)), now);
    }
  }

  /** The object is up: published, alive and registered with every topic, and its item, the last on
      the list, is enabled, requested for now and has its interval from now on. */
  ghost predicate IsUp(s: System, s': System, id: Id, interval: Time, period: Time, now: Time)
  {
    && s'.starters == [] && s'.stoppers == [] && s'.published == Some(id) && !s'.stopInProgress
    && s'.alive == s.alive + {id} && s'.mine == s.mine + {id} && Joined(s.topics, s'.topics, id, |s.topics|)
    && s'.queue.items == s.queue.items + [Item(id, true, false, false, true, now, period, now + period, 0, interval)]
    && AllUnread(s')
  }

  lemma Promoted(s: System, s1: System, id: Id, interval: Time, period: Time, now: Time)
    requires OnItsWay(s, s1, id, interval, |s.topics|)
    ensures IsUp(s, Do(s1, Promotes(period), now), id, interval, period, now)
  {
    DoThree(s1, Action.Start(StartPublish), Action.Start(StartActivate(period)), Action.Start(StartPrompt), now);
    var k := |s.queue.items|;
    assert Position(s1.queue.items, id) == Some(k);
    var s2 := AfterStartActivate(AfterStartPublish(s1), period, now);
    assert s2.queue.items ==
        s.queue.items + [Item(id, true, false, false, false, 0, period, now + period, 0, interval)];
    assert Position(s2.queue.items, id) == Some(k);
  }

  /** What a start sets up. */
  lemma StartSetsUp(s: System, id: Id, interval: Time, period: Time, now: Time)
    requires Ready(s, id)
    ensures IsUp(s, Do(s, Starts(id, interval, period, |s.topics|), now), id, interval, period, now)
  {
    var steps := Registers(id, interval, |s.topics|);
    Registered(s, id, interval, |s.topics|, now);
    DoAll(s, steps, Promotes(period), now);
    Promoted(s, Do(s, steps, now), id, interval, period, now);
  }

  // ---------------------------------------------------------------------------
  // A stop.
  // ---------------------------------------------------------------------------

  /** The object is up, no command is at work, its item is on the list and not running. */
  ghost predicate Stoppable(s: System, id: Id)
  {
    Running(s, id) && !Find(s.queue.items, id).running
  }

  ghost predicate Running(s: System, id: Id)
  {
    && s.starters == [] && s.stoppers == [] && s.published == Some(id) && !s.stopInProgress
    && UniqueIds(s.queue.items) && Has(s.queue.items, id) && Silent(s)
  }

  function Unregisters(n: nat): seq<Action> { [Stop(StopBegin)] + Times(Stop(StopUnregister(0)), n) }

  function Withdraws(): seq<Action> { [Stop(StopDetach(0)), Stop(StopPoll(0, false)), Stop(StopFinish(0))] }

  /** The callbacks, one region each and one to find that there are no more, then the item, then the
      object. */
  function Stops(n: nat): seq<Action> { Unregisters(n + 1) + Withdraws() }

  /** The topics with the object taken off the first k of them. */
  ghost predicate Without(before: seq<Topic>, after: seq<Topic>, id: Id, k: nat)
  {
    && |after| == |before|
    && forall t :: 0 <= t < |before| ==>
         after[t] == if t < k then before[t].(registered := before[t].registered - {id}) else before[t]
  }

  ghost predicate GoingDown(s: System, s': System, id: Id, phase: StopPhase, k: nat)
  {
    && s'.starters == [] && s'.stoppers == [Stopper(id, phase)] && s'.published == Some(id) && s'.stopInProgress
    && s'.alive == s.alive && s'.mine == s.mine && Without(s.topics, s'.topics, id, k) && s'.queue == s.queue
  }

  lemma {:induction false} Unregistered(s: System, id: Id, k: nat, now: Time)
    requires Running(s, id) && k <= |s.topics|
    ensures GoingDown(s, Do(s, Unregisters(k), now), id, Unregistering(k), k)
  {
    if k == 0 {
      DoThree(s, Stop(StopBegin), Stop(StopBegin), Stop(StopBegin), now);
      DoMore(s, [], Stop(StopBegin), now);
      assert Unregisters(0) == [] + [Stop(StopBegin)];
    } else {
      Unregistered(s, id, k - 1, now);
      var steps := Unregisters(k - 1);
      assert Unregisters(k) == steps + [Stop(StopUnregister(0))];
      DoMore(s, steps, Stop(StopUnregister(0)), now);
    }
  }

  lemma Detaching(s: System, id: Id, now: Time)
    requires Running(s, id)
    ensures GoingDown(s, Do(s, Unregisters(|s.topics| + 1), now), id, StopPhase.Detaching, |s.topics|)
  {
    var steps := Unregisters(|s.topics|);
    Unregistered(s, id, |s.topics|, now);
    assert Unregisters(|s.topics| + 1) == steps + [Stop(StopUnregister(0))];
    DoMore(s, steps, Stop(StopUnregister(0)), now);
  }

  /** The object is gone: deleted, registered nowhere, and its item off the list. */
  ghost predicate IsDown(s: System, s': System, id: Id)
    requires Has(s.queue.items, id)
  {
    && s'.starters == [] && s'.stoppers == [] && s'.published.None? && !s'.stopInProgress
    && s'.alive == s.alive - {id} && s'.mine == s.mine && Without(s.topics, s'.topics, id, |s.topics|)
    && s'.queue.items == Drop(s.queue.items, Position(s.queue.items, id).value)
  }

  lemma Withdrawing(s: System, s1: System, id: Id, now: Time)
    requires Stoppable(s, id) && GoingDown(s, s1, id, StopPhase.Detaching, |s.topics|)
    ensures IsDown(s, Do(s1, Withdraws(), now), id)
  {
    DoThree(s1, Stop(StopDetach(0)), Stop(StopPoll(0, false)), Stop(StopFinish(0)), now);
    var k := Position(s.queue.items, id).value;
    var s2 := AfterStopDetach(s1, 0, now);
    assert s2.queue.items == s.queue.items[k := Scheduler.Disabled(s.queue.items[k])];
    UniqueReplace(s.queue.items, k, Scheduler.Disabled(s.queue.items[k]));
    PositionOf(s2.queue.items, k);
    var s3 := AfterStopPoll(s2, 0, false, now);
    assert s3.queue.items == Drop(s.queue.items, k);
  }

  /** What a stop takes down. */
  lemma StopTakesDown(s: System, id: Id, now: Time)
    requires Stoppable(s, id)
    ensures IsDown(s, Do(s, Stops(|s.topics|), now), id)
  {
    Detaching(s, id, now);
    DoAll(s, Unregisters(|s.topics| + 1), Withdraws(), now);
    Withdrawing(s, Do(s, Unregisters(|s.topics| + 1), now), id, now);
  }

  /** A stop that finds a Run under way when its time is over: the object stays published and alive, is
      registered nowhere, and its item stays on the list, disabled. */
  lemma StopGivesUp(s: System, id: Id, now: Time)
    requires Running(s, id) && Find(s.queue.items, id).running
    ensures var steps := Unregisters(|s.topics| + 1)
                         + [Stop(StopDetach(0)), Stop(StopPoll(0, true)), Stop(StopFinish(0))];
            var s' := Do(s, steps, now);
            && s'.starters == [] && s'.stoppers == [] && s'.published == Some(id) && !s'.stopInProgress
            && s'.alive == s.alive && Without(s.topics, s'.topics, id, |s.topics|)
            && Has(s'.queue.items, id)
            && Find(s'.queue.items, id) ==
               Find(s.queue.items, id).(enabled := false, stopping := true, pending := false, period := 0)
  {
    Detaching(s, id, now);
    var s1 := Do(s, Unregisters(|s.topics| + 1), now);
    DoAll(s, Unregisters(|s.topics| + 1), [Stop(StopDetach(0)), Stop(StopPoll(0, true)), Stop(StopFinish(0))], now);
    DoThree(s1, Stop(StopDetach(0)), Stop(StopPoll(0, true)), Stop(StopFinish(0)), now);
    var k := Position(s.queue.items, id).value;
    var s2 := AfterStopDetach(s1, 0, now);
    assert s2.queue.items == s.queue.items[k := Scheduler.Disabled(s.queue.items[k])];
    UniqueReplace(s.queue.items, k, Scheduler.Disabled(s.queue.items[k]));
    PositionOf(s2.queue.items, k);
  }

  /** Nobody knows the object yet. */
  ghost predicate Unknown(s: System, id: Id)
  {
    id !in s.alive && forall t :: 0 <= t < |s.topics| ==> id !in s.topics[t].registered
  }

  /** Nothing is left of a command: objects, topics and list are as they were. */
  ghost predicate Undone(s: System, s': System)
  {
    && s'.starters == [] && s'.stoppers == [] && s'.published.None? && !s'.stopInProgress
    && s'.alive == s.alive && s'.topics == s.topics && s'.queue.items == s.queue.items
  }

  /** A stop undoes a start. */
  lemma StopUndoesStart(s: System, id: Id, interval: Time, period: Time, now: Time, later: Time)
    requires Ready(s, id) && Unknown(s, id) && UniqueIds(s.queue.items)
    ensures var up := Do(s, Starts(id, interval, period, |s.topics|), now);
            |up.topics| == |s.topics| && Undone(s, Do(up, Stops(|s.topics|), later))
  {
    var up := Do(s, Starts(id, interval, period, |s.topics|), now);
    StartSetsUp(s, id, interval, period, now);
    var item := Item(id, true, false, false, true, now, period, now + period, 0, interval);
    AppendUnique(s.queue.items, item);
    PositionOf(up.queue.items, |s.queue.items|);
    StopTakesDown(up, id, later);
    var down := Do(up, Stops(|s.topics|), later);
    assert down.alive == s.alive;
    assert down.topics == s.topics;
    assert down.queue.items == s.queue.items;
  }

  // ---------------------------------------------------------------------------
  // A start that fails.
  // ---------------------------------------------------------------------------

  /** Topic k has no slot left; then the callbacks are taken back, one region each and one to find that
      there are no more, then the item, then the object. */
  function Fails(id: Id, interval: Time, k: nat, n: nat): seq<Action>
  {
    Undoes(id, interval, k, n + 1) + [Action.Start(StartUndoDetach), Action.Start(StartUndoRemove)]
  }

  function Undoes(id: Id, interval: Time, k: nat, j: nat): seq<Action>
  {
    Registers(id, interval, k) + [Action.Start(StartRegister(true))] + Times(Action.Start(StartUndo), j)
  }

  /** The topics with the object on the first k of them but taken off the first j again. */
  ghost predicate Between(before: seq<Topic>, after: seq<Topic>, id: Id, k: nat, j: nat)
  {
    && |after| == |before|
    && forall t :: 0 <= t < |before| ==>
         after[t] == if j <= t < k then before[t].(registered := before[t].registered + {id}) else before[t]
  }

  ghost predicate BackingOut(s: System, s': System, id: Id, interval: Time, phase: StartPhase, k: nat, j: nat)
  {
    && s'.starters == [Starter(id, phase)] && s'.stoppers == [] && s'.published.None? && !s'.stopInProgress
    && s'.alive == s.alive + {id} && Between(s.topics, s'.topics, id, k, j)
    && s'.queue.items == s.queue.items + [Item(id, false, false, false, false, 0, 0, 0, 0, interval)]
  }

  lemma {:induction false} TakenBack(s: System, id: Id, interval: Time, k: nat, j: nat, now: Time)
    requires Ready(s, id) && Unknown(s, id) && k < |s.topics| && j <= |s.topics|
    ensures BackingOut(s, Do(s, Undoes(id, interval, k, j), now), id, interval, Undoing(j), k, j)
  {
    if j == 0 {
      Registered(s, id, interval, k, now);
      assert Undoes(id, interval, k, 0) == Registers(id, interval, k) + [Action.Start(StartRegister(true))];
      DoMore(s, Registers(id, interval, k), Action.Start(StartRegister(true)), now);
    } else {
      TakenBack(s, id, interval, k, j - 1, now);
      var steps := Undoes(id, interval, k, j - 1);
      assert Undoes(id, interval, k, j) == steps + [Action.Start(StartUndo)];
      DoMore(s, steps, Action.Start(StartUndo), now);
      OneBack(s, Do(s, steps, now), id, interval, k, j - 1);
    }
  }

  lemma OneBack(s: System, s1: System, id: Id, interval: Time, k: nat, j: nat)
    requires Unknown(s, id) && Silent(s) && j < |s.topics| && BackingOut(s, s1, id, interval, Undoing(j), k, j)
    ensures BackingOut(s, AfterStartUndo(s1), id, interval, Undoing(j + 1), k, j + 1)
  {
    var t := s1.topics[j];
    assert Unregister(t, id) == s.topics[j];
  }

  lemma BackedOut(s: System, s1: System, id: Id, interval: Time, k: nat, now: Time)
    requires Ready(s, id) && Unknown(s, id) && UniqueIds(s.queue.items)
    requires BackingOut(s, s1, id, interval, UndoDetaching, k, |s.topics|)
    ensures Undone(s, Do(s1, [Action.Start(StartUndoDetach), Action.Start(StartUndoRemove)], now))
  {
    DoThree(s1, Action.Start(StartUndoDetach), Action.Start(StartUndoRemove), Action.Start(StartUndo), now);
    var n, s2 := |s.queue.items|, AfterStartUndoDetach(s1, now);
    assert Position(s1.queue.items, id) == Some(n);
    assert s2.queue.items == s.queue.items + [Scheduler.Disabled(s1.queue.items[n])];
    assert Position(s2.queue.items, id) == Some(n);
    var s3 := AfterStartUndoRemove(s2, now);
    assert s3.queue.items == s.queue.items;
    assert s3.topics == s.topics;
    assert s3.alive == s.alive;
  }

  /** A start that finds a topic with no slot left leaves nothing behind. */
  lemma FailureUndoesStart(s: System, id: Id, interval: Time, k: nat, now: Time)
    requires Ready(s, id) && Unknown(s, id) && UniqueIds(s.queue.items) && k < |s.topics|
    ensures Undone(s, Do(s, Fails(id, interval, k, |s.topics|), now))
  {
    var n := |s.topics|;
    TakenBack(s, id, interval, k, n, now);
    var steps := Undoes(id, interval, k, n);
    assert Undoes(id, interval, k, n + 1) == steps + [Action.Start(StartUndo)];
    DoMore(s, steps, Action.Start(StartUndo), now);
    DoAll(s, steps + [Action.Start(StartUndo)], [Action.Start(StartUndoDetach), Action.Start(StartUndoRemove)], now);
    BackedOut(s, Do(s, steps + [Action.Start(StartUndo)], now), id, interval, k, now);
  }

  // ---------------------------------------------------------------------------
  // A message.
  // ---------------------------------------------------------------------------

  function Publishes(t: nat, id: Id): seq<Action>
  {
    [Other(Store(t)), Other(NotifyBegin(t)), Other(NotifyOne(t, id))]
  }

  /** A message stored on a topic that no other publisher is at makes the registered object due as
      early as its minimum interval allows. */
  lemma MessageArrives(s: System, t: nat, id: Id, now: Time)
    requires t < |s.topics| && s.topics[t] == Topic(s.topics[t].generation, {id}, 0, None)
    requires UniqueIds(s.queue.items) && Has(s.queue.items, id) && Find(s.queue.items, id).enabled
    ensures var s' := Do(Do(s, Publishes(t, id), now), [Other(NotifyEnd(t))], now);
            && s'.topics == s.topics[t := Topic(s.topics[t].generation + 1, {id}, 0, None)]
            && Has(s'.queue.items, id)
            && var item := Find(s.queue.items, id);
               IsDue(Find(s'.queue.items, id),
                     if item.lastStart == 0 then now else Later(now, item.lastStart + item.minimumInterval))
  {
    DoThree(s, Other(Store(t)), Other(NotifyBegin(t)), Other(NotifyOne(t, id)), now);
    var k := Position(s.queue.items, id).value;
    var s1 := AfterNotifyBegin(AfterStore(s, t), t);
    assert s1.topics[t] == Topic(s.topics[t].generation + 1, {id}, 0, Some({id}));
    var s2 := AfterNotifyOne(s1, t, id, now);
    assert s1.topics[t].notifying.value - {id} == {};
    assert s2.queue.items == s.queue.items[k := Requesting(s.queue.items[k], 0, now)];
    UniqueReplace(s.queue.items, k, Requesting(s.queue.items[k], 0, now));
    PositionOf(s2.queue.items, k);
    RequestsCoalesce(s.queue.items[k], 0, now);
    DoMore(s2, [], Other(NotifyEnd(t)), now);
    assert [] + [Other(NotifyEnd(t))] == [Other(NotifyEnd(t))];
  }

  function Polls(n: nat): seq<Action> { if n == 0 then [] else Polls(n - 1) + [Other(Poll(n - 1))] }

  lemma {:induction false} PolledBelow(s: System, k: nat, now: Time)
    requires OwnRun(s) && |s.seen| == |s.topics| && k <= |s.topics|
    ensures var s' := Do(s, Polls(k), now);
            && s'.queue == s.queue && s'.topics == s.topics && s'.mine == s.mine && |s'.seen| == |s.topics|
            && forall t :: 0 <= t < k ==> t in s'.polled && s'.seen[t] == s.topics[t].generation
  {
    if k != 0 {
      PolledBelow(s, k - 1, now);
      DoMore(s, Polls(k - 1), Other(Poll(k - 1)), now);
    }
  }

  /** A Run that polls each topic has read all there is, and may return, which leaves the worker free. */
  lemma RunReadsAll(s: System, now: Time)
    requires OwnRun(s) && |s.seen| == |s.topics|
    ensures var s' := Do(s, Polls(|s.topics|) + [Other(Foreign(FinishRun))], now);
            && s'.topics == s.topics && |s'.seen| == |s.topics|
            && (forall t :: 0 <= t < |s.topics| ==> s'.seen[t] == s.topics[t].generation)
            && s'.queue.worker.Idle?
  {
    PolledBelow(s, |s.topics|, now);
    DoMore(s, Polls(|s.topics|), Other(Foreign(FinishRun)), now);
  }
}
