/** What every interleaving keeps: at most one object, deleted only when nothing can reach it;
    a stop that timed out leaves an object that never runs again; and no update is lost. */
module LifecycleProofs {
  import opened Options
  import opened Scheduler
  import opened SchedulerRuns
  import opened Lifecycle

  // ---------------------------------------------------------------------------
  // The item of an object, as the queue has it.
  // ---------------------------------------------------------------------------

  function View(q: Queue, id: Id): Option<Item>
  {
    if Has(q.items, id) then Some(Find(q.items, id)) else None
  }

  /** Not on the list. */
  predicate IsOff(v: Option<Item>) { v.None? }

  /** On the list, but never enabled so far. */
  predicate IsDormant(v: Option<Item>) { v.Some? && !v.value.enabled && !v.value.stopping && !v.value.running }

  predicate IsEnabled(v: Option<Item>) { v.Some? && v.value.enabled && !v.value.stopping }

  predicate IsStopping(v: Option<Item>) { v.Some? && v.value.stopping && !v.value.enabled }

  /** Nothing that the predicates above look at has changed. */
  predicate SameKind(v: Option<Item>, w: Option<Item>)
  {
    && (v.None? <==> w.None?)
    && (v.Some? ==>
          && v.value.enabled == w.value.enabled && v.value.stopping == w.value.stopping
          && (!v.value.enabled && !v.value.running ==> !w.value.running))
  }

  lemma AbsentAfter(q: Queue, e: Event, id: Id)
    requires Inv(q) && q.clock <= e.now && !Has(q.items, id)
    requires e.step.Attach? ==> e.step.item.id != id
    ensures !Has(Apply(q, e.step, e.now).items, id)
  {
    var removed := Follow(q, e);
    AbsentMoved(q, Apply(q, e.step, e.now).items, e, removed, id);
  }

  lemma AbsentMoved(q: Queue, items': seq<Item>, e: Event, removed: Option<nat>, id: Id)
    requires Moves(q, items', e, removed) && !Has(q.items, id)
    requires e.step.Attach? ==> e.step.item.id != id
    ensures !Has(items', id)
  {
    forall k | 0 <= k < |items'|
      ensures items'[k].id != id
    {
      if removed.Some? {
        assert items'[k] == q.items[if k < removed.value then k else k + 1];
      } else if k < |q.items| {
        assert items'[k] == After(q, q.items[k], e);
      }
    }
  }

  /** A step that is applied to another item, or only requests this one, changes nothing. */
  lemma ForeignKeepsKind(q: Queue, e: Event, id: Id)
    requires Inv(q) && q.clock <= e.now
    requires Target(e.step) == Some(id) ==> e.step.Schedule?
    ensures SameKind(View(q, id), View(Apply(q, e.step, e.now), id))
  {
    if Has(q.items, id) {
      FindAfter(q, e, id);
      if StartedBy(q, e) == Some(id) {
        StartedIsDue(q, e, id);
      }
    } else {
      AbsentAfter(q, e, id);
    }
  }

  // ---------------------------------------------------------------------------
  // The invariant.
  // ---------------------------------------------------------------------------

  ghost predicate RegisteredBelow(topics: seq<Topic>, id: Id, k: nat)
  {
    forall t :: 0 <= t < |topics| ==> (id in topics[t].registered <==> t < k)
  }

  ghost predicate UnregisteredBelow(topics: seq<Topic>, id: Id, k: nat)
  {
    forall t :: 0 <= t < |topics| && t < k ==> id !in topics[t].registered
  }

  ghost predicate StartInv(s: System, v: Option<Item>, id: Id, phase: StartPhase)
  {
    match phase
    case Created => IsOff(v) && RegisteredBelow(s.topics, id, 0)
    case Registering(k) => k <= |s.topics| && IsDormant(v) && RegisteredBelow(s.topics, id, k)
    case Undoing(k) => IsDormant(v) && UnregisteredBelow(s.topics, id, k)
    case UndoDetaching => IsDormant(v) && UnregisteredBelow(s.topics, id, |s.topics|)
    case UndoRemoving => IsStopping(v) && !v.value.running && UnregisteredBelow(s.topics, id, |s.topics|)
    case Activating => IsDormant(v) && RegisteredBelow(s.topics, id, |s.topics|)
    case Prompting => IsEnabled(v) && RegisteredBelow(s.topics, id, |s.topics|)
  }

  ghost predicate StopInv(s: System, v: Option<Item>, id: Id, phase: StopPhase)
  {
    match phase
    case Unregistering(k) => (IsEnabled(v) || IsStopping(v)) && UnregisteredBelow(s.topics, id, k)
    case Detaching => (IsEnabled(v) || IsStopping(v)) && UnregisteredBelow(s.topics, id, |s.topics|)
    case Waiting => IsStopping(v) && UnregisteredBelow(s.topics, id, |s.topics|)
    case Finishing(stopped) =>
      (if stopped then IsOff(v) else IsStopping(v)) && UnregisteredBelow(s.topics, id, |s.topics|)
  }

  /** Started and not being stopped, or stopped without success. */
  ghost predicate Started(s: System, v: Option<Item>, id: Id)
  {
    IsEnabled(v) && RegisteredBelow(s.topics, id, |s.topics|)
  }

  ghost predicate Halted(s: System, v: Option<Item>, id: Id)
  {
    IsStopping(v) && UnregisteredBelow(s.topics, id, |s.topics|)
  }

  /** What is known of the object with the given id, which is the only one alive. */
  ghost predicate ObjectInv(s: System, v: Option<Item>, id: Id)
  {
    && s.alive == {id}
    && (if s.starters != [] then
          && s.starters[0].id == id && StartInv(s, v, id, s.starters[0].phase)
          && s.published ==
              (if s.starters[0].phase.Activating? || s.starters[0].phase.Prompting? then Some(id) else None)
        else if s.stoppers != [] then
          s.stoppers[0].id == id && StopInv(s, v, id, s.stoppers[0].phase) && s.published == Some(id)
        else s.published == Some(id) && (Started(s, v, id) || Halted(s, v, id)))
  }

  /** The lock and the flag keep the commands apart. */
  ghost predicate Exclusive(s: System)
  {
    && |s.starters| + |s.stoppers| <= 1
    && s.stopInProgress == (s.stoppers != [])
    && |s.seen| == |s.topics|
    && s.alive <= s.mine
  }

  ghost predicate TopicInv(topic: Topic, alive: set<Id>)
  {
    && topic.registered <= alive
    && (topic.notifying.Some? ==> topic.notifying.value <= topic.registered)
  }

  /** Every reference to an object of the module is to one that is alive. */
  ghost predicate NoDangling(s: System)
  {
    && (forall t :: 0 <= t < |s.topics| ==> TopicInv(s.topics[t], s.alive))
    && (forall id :: id in s.mine && id !in s.alive ==> !Has(s.queue.items, id))
  }

  ghost predicate SystemInv(s: System)
  {
    && Inv(s.queue) && Exclusive(s) && NoDangling(s)
    && (s.alive == {} ==> s.starters == [] && s.stoppers == [] && s.published.None?)
    && (s.alive != {} ==> exists id :: ObjectInv(s, View(s.queue, id), id))
  }

  // ---------------------------------------------------------------------------
  // Steps that leave the commands where they are.
  // ---------------------------------------------------------------------------

  ghost predicate SameCommands(s: System, s': System)
  {
    && s'.alive == s.alive && s'.mine == s.mine && s'.published == s.published && s'.stopInProgress == s.stopInProgress
    && s'.starters == s.starters && s'.stoppers == s.stoppers
    && |s'.topics| == |s.topics| && |s'.seen| == |s.seen|
    && forall t :: 0 <= t < |s.topics| ==> s'.topics[t].registered == s.topics[t].registered
  }

  lemma KindKeepsObject(s: System, s': System, v: Option<Item>, v': Option<Item>, id: Id)
    requires SameCommands(s, s') && SameKind(v, v') && ObjectInv(s, v, id)
    ensures ObjectInv(s', v', id)
  {
  }

  ghost predicate Quiet(s: System, step: Step)
  {
    Target(step).Some? && Target(step).value in s.mine ==> step.Schedule?
  }

  lemma QueueStepKeeps(s: System, s': System, step: Step, now: Time)
    requires SystemInv(s) && s.queue.clock <= now
    requires SameCommands(s, s') && s'.queue == Apply(s.queue, step, now) && Quiet(s, step)
    requires forall t :: 0 <= t < |s.topics| ==> TopicInv(s'.topics[t], s.alive)
    ensures SystemInv(s')
  {
    StepKeepsInv(s.queue, step, now);
    forall id | id in s.mine && id !in s.alive
      ensures !Has(s'.queue.items, id)
    {
      AbsentAfter(s.queue, Event(step, now), id);
    }
    if s.alive != {} {
      var id :| ObjectInv(s, View(s.queue, id), id);
      ForeignKeepsKind(s.queue, Event(step, now), id);
      KindKeepsObject(s, s', View(s.queue, id), View(s'.queue, id), id);
    }
  }

  lemma TopicStepKeeps(s: System, s': System)
    requires SystemInv(s) && SameCommands(s, s') && s'.queue == s.queue
    requires forall t :: 0 <= t < |s.topics| ==> TopicInv(s'.topics[t], s.alive)
    ensures SystemInv(s')
  {
    if s.alive != {} {
      var id :| ObjectInv(s, View(s.queue, id), id);
      KindKeepsObject(s, s', View(s.queue, id), View(s'.queue, id), id);
    }
  }

  lemma ForeignKeeps(s: System, step: Step, now: Time)
    requires SystemInv(s) && s.queue.clock <= now && ForeignAllowed(s, step)
    ensures SystemInv(AfterForeign(s, step, now))
  {
    QueueStepKeeps(s, AfterForeign(s, step, now), step, now);
  }

  lemma PollKeeps(s: System, t: nat)
    requires SystemInv(s)
    ensures SystemInv(AfterPoll(s, t))
  {
    TopicStepKeeps(s, AfterPoll(s, t));
  }

  lemma StoreKeeps(s: System, t: nat)
    requires SystemInv(s) && t < |s.topics|
    ensures SystemInv(AfterStore(s, t))
  {
    TopicStepKeeps(s, AfterStore(s, t));
  }

  lemma NotifyBeginKeeps(s: System, t: nat)
    requires SystemInv(s) && t < |s.topics|
    ensures SystemInv(AfterNotifyBegin(s, t))
  {
    TopicStepKeeps(s, AfterNotifyBegin(s, t));
  }

  lemma NotifyOneKeeps(s: System, t: nat, id: Id, now: Time)
    requires SystemInv(s) && s.queue.clock <= now && t < |s.topics|
    ensures SystemInv(AfterNotifyOne(s, t, id, now))
  {
    if s.topics[t].notifying.Some? && id in s.topics[t].notifying.value {
      QueueStepKeeps(s, AfterNotifyOne(s, t, id, now), Schedule(id, 0), now);
    }
  }

  lemma NotifyEndKeeps(s: System, t: nat)
    requires SystemInv(s) && t < |s.topics|
    ensures SystemInv(AfterNotifyEnd(s, t))
  {
    TopicStepKeeps(s, AfterNotifyEnd(s, t));
  }

  // ---------------------------------------------------------------------------
  // The steps of the start command.
  // ---------------------------------------------------------------------------

  /** The one object alive during a start. */
  ghost predicate StartIs(s: System, id: Id, phase: StartPhase)
  {
    s.starters == [Starter(id, phase)] && s.stoppers == [] && ObjectInv(s, View(s.queue, id), id)
  }

  lemma TheStarter(s: System)
    requires SystemInv(s) && s.starters != []
    ensures StartIs(s, s.starters[0].id, s.starters[0].phase)
  {
    assert s.alive != {};
    assert s.starters == [s.starters[0]];
  }

  lemma StartBeginKeeps(s: System, id: Id)
    requires SystemInv(s)
    ensures SystemInv(AfterStartBegin(s, id))
  {
    var s' := AfterStartBegin(s, id);
    if s' != s {
      assert s.alive == {};
      assert s'.alive == {id};
      assert s'.starters[0] == Starter(id, Created);
      assert ObjectInv(s', View(s'.queue, id), id);
    }
  }

  lemma StartAttachKeeps(s: System, period: Time, spawned: bool, now: Time)
    requires SystemInv(s) && s.queue.clock <= now
    ensures SystemInv(AfterStartAttach(s, period, spawned, now))
  {
    if StarterIs(s, Created) {
      TheStarter(s);
      var id := s.starters[0].id;
      var e := Event(Attach(NewItem(id), period), now);
      StepKeepsInv(s.queue, e.step, now);
      AttachedView(s.queue, id, period, now);
      var s' := AfterStartAttach(s, period, spawned, now);
      forall other | other in s.mine && other != id
        ensures !Has(s'.queue.items, other)
      {
        AbsentAfter(s.queue, e, other);
      }
      if Has(s'.queue.items, id) {
        assert ObjectInv(s', View(s'.queue, id), id);
      }
    }
  }

  lemma AttachedView(q: Queue, id: Id, period: Time, now: Time)
    requires Inv(q) && q.clock <= now && !Has(q.items, id)
    ensures var v := View(Apply(q, Attach(NewItem(id), period), now), id);
            IsOff(v) || IsDormant(v)
  {
    var q' := Apply(q, Attach(NewItem(id), period), now);
    if Has(q'.items, id) {
      StepKeepsInv(q, Attach(NewItem(id), period), now);
      PositionOf(q'.items, |q.items|);
    }
  }

  /** A step on the item of the object alive. */
  lemma OwnStep(s: System, step: Step, now: Time)
    requires SystemInv(s) && s.queue.clock <= now
    requires Target(step).Some? && Target(step).value in s.alive
    ensures Inv(Apply(s.queue, step, now))
    ensures forall id :: id in s.mine && id !in s.alive ==> !Has(Apply(s.queue, step, now).items, id)
  {
    StepKeepsInv(s.queue, step, now);
    forall id | id in s.mine && id !in s.alive
      ensures !Has(Apply(s.queue, step, now).items, id)
    {
      AbsentAfter(s.queue, Event(step, now), id);
    }
  }

  lemma StartRegisterKeeps(s: System, full: bool)
    requires SystemInv(s)
    ensures SystemInv(AfterStartRegister(s, full))
  {
    if s.starters != [] && s.starters[0].phase.Registering? {
      TheStarter(s);
      var id := s.starters[0].id;
      assert ObjectInv(AfterStartRegister(s, full), View(s.queue, id), id);
    }
  }

  lemma StartUndoKeeps(s: System)
    requires SystemInv(s)
    ensures SystemInv(AfterStartUndo(s))
  {
    if s.starters != [] && s.starters[0].phase.Undoing? {
      TheStarter(s);
      var id := s.starters[0].id;
      assert ObjectInv(AfterStartUndo(s), View(s.queue, id), id);
    }
  }

  lemma StartUndoDetachKeeps(s: System, now: Time)
    requires SystemInv(s) && s.queue.clock <= now
    ensures SystemInv(AfterStartUndoDetach(s, now))
  {
    if StarterIs(s, UndoDetaching) {
      TheStarter(s);
      var id := s.starters[0].id;
      OwnStep(s, DetachRequest(id), now);
      FindAfter(s.queue, Event(DetachRequest(id), now), id);
      var s' := AfterStartUndoDetach(s, now);
      assert ObjectInv(s', View(s'.queue, id), id);
    }
  }

  lemma StartUndoRemoveKeeps(s: System, now: Time)
    requires SystemInv(s) && s.queue.clock <= now
    ensures SystemInv(AfterStartUndoRemove(s, now))
  {
    if StarterIs(s, UndoRemoving) {
      TheStarter(s);
      var id := s.starters[0].id;
      OwnStep(s, DetachRemove(id), now);
      DetachWaitsForRun(s.queue, id, now);
      Nowhere(s, id);
    }
  }

  /** An object without a registered callback has none under way either. */
  lemma Nowhere(s: System, id: Id)
    requires NoDangling(s) && s.alive == {id} && UnregisteredBelow(s.topics, id, |s.topics|)
    ensures forall t :: 0 <= t < |s.topics| ==> TopicInv(s.topics[t], {})
  {
    forall t | 0 <= t < |s.topics|
      ensures TopicInv(s.topics[t], {})
    {
      assert TopicInv(s.topics[t], s.alive) && id !in s.topics[t].registered;
      assert s.topics[t].registered == {};
    }
  }

  lemma StartPublishKeeps(s: System)
    requires SystemInv(s)
    ensures SystemInv(AfterStartPublish(s))
  {
    if StarterIs(s, Registering(|s.topics|)) {
      TheStarter(s);
      var id := s.starters[0].id;
      assert ObjectInv(AfterStartPublish(s), View(s.queue, id), id);
    }
  }

  lemma StartActivateKeeps(s: System, period: Time, now: Time)
    requires SystemInv(s) && s.queue.clock <= now
    ensures SystemInv(AfterStartActivate(s, period, now))
  {
    if StarterIs(s, Activating) {
      TheStarter(s);
      var id := s.starters[0].id;
      OwnStep(s, SetInterval(id, period), now);
      FindAfter(s.queue, Event(SetInterval(id, period), now), id);
      var s' := AfterStartActivate(s, period, now);
      assert ObjectInv(s', View(s'.queue, id), id);
    }
  }

  lemma StartPromptKeeps(s: System, now: Time)
    requires SystemInv(s) && s.queue.clock <= now
    ensures SystemInv(AfterStartPrompt(s, now))
  {
    if StarterIs(s, Prompting) {
      TheStarter(s);
      var id := s.starters[0].id;
      OwnStep(s, Schedule(id, 0), now);
      ForeignKeepsKind(s.queue, Event(Schedule(id, 0), now), id);
      var s' := AfterStartPrompt(s, now);
      assert ObjectInv(s', View(s'.queue, id), id);
    }
  }

  // ---------------------------------------------------------------------------
  // The steps of the stop command.
  // ---------------------------------------------------------------------------

  ghost predicate StopIs(s: System, id: Id, phase: StopPhase)
  {
    s.stoppers == [Stopper(id, phase)] && s.starters == [] && ObjectInv(s, View(s.queue, id), id)
  }

  lemma TheStopper(s: System, i: nat)
    requires SystemInv(s) && i < |s.stoppers|
    ensures i == 0 && StopIs(s, s.stoppers[0].id, s.stoppers[0].phase)
  {
    assert s.alive != {};
    assert s.stoppers == [s.stoppers[0]];
  }

  lemma StopBeginKeeps(s: System)
    requires SystemInv(s)
    ensures SystemInv(AfterStopBegin(s))
  {
    var s' := AfterStopBegin(s);
    if s' != s {
      assert s.alive != {};
      var id :| ObjectInv(s, View(s.queue, id), id);
      assert ObjectInv(s', View(s'.queue, id), id);
    }
  }

  lemma StopUnregisterKeeps(s: System, i: nat)
    requires SystemInv(s)
    ensures SystemInv(AfterStopUnregister(s, i))
  {
    if i < |s.stoppers| && s.stoppers[i].phase.Unregistering? {
      TheStopper(s, i);
      var id := s.stoppers[0].id;
      assert ObjectInv(AfterStopUnregister(s, i), View(s.queue, id), id);
    }
  }

  lemma StopDetachKeeps(s: System, i: nat, now: Time)
    requires SystemInv(s) && s.queue.clock <= now
    ensures SystemInv(AfterStopDetach(s, i, now))
  {
    if i < |s.stoppers| && s.stoppers[i].phase.Detaching? {
      TheStopper(s, i);
      var id := s.stoppers[0].id;
      OwnStep(s, DetachRequest(id), now);
      FindAfter(s.queue, Event(DetachRequest(id), now), id);
      var s' := AfterStopDetach(s, i, now);
      assert ObjectInv(s', View(s'.queue, id), id);
    }
  }

  lemma StopPollKeeps(s: System, i: nat, timedOut: bool, now: Time)
    requires SystemInv(s) && s.queue.clock <= now
    ensures SystemInv(AfterStopPoll(s, i, timedOut, now))
  {
    if i < |s.stoppers| && s.stoppers[i].phase.Waiting? {
      TheStopper(s, i);
      var id := s.stoppers[0].id;
      OwnStep(s, DetachRemove(id), now);
      DetachWaitsForRun(s.queue, id, now);
      var s' := AfterStopPoll(s, i, timedOut, now);
      assert ObjectInv(s', View(s'.queue, id), id);
    }
  }

  lemma StopFinishKeeps(s: System, i: nat)
    requires SystemInv(s)
    ensures SystemInv(AfterStopFinish(s, i))
  {
    if s.starters == [] && i < |s.stoppers| && s.stoppers[i].phase.Finishing? {
      TheStopper(s, i);
      var id := s.stoppers[0].id;
      if s.stoppers[0].phase.stopped {
        Nowhere(s, id);
      } else {
        assert ObjectInv(AfterStopFinish(s, i), View(s.queue, id), id);
      }
    }
  }

  // ---------------------------------------------------------------------------
  // Every run.
  // ---------------------------------------------------------------------------

  lemma BackgroundKeeps(s: System, a: Background, now: Time)
    requires SystemInv(s) && s.queue.clock <= now
    ensures SystemInv(AfterBackground(s, a, now))
  {
    match a
    case Foreign(step) => if ForeignAllowed(s, step) { ForeignKeeps(s, step, now); }
    case Poll(t) => PollKeeps(s, t);
    case Store(t) => if t < |s.topics| { StoreKeeps(s, t); }
    case NotifyBegin(t) => if t < |s.topics| { NotifyBeginKeeps(s, t); }
    case NotifyOne(t, id) => if t < |s.topics| { NotifyOneKeeps(s, t, id, now); }
    case NotifyEnd(t) => if t < |s.topics| { NotifyEndKeeps(s, t); }
  }

  lemma StartKeeps(s: System, a: StartStep, now: Time)
    requires SystemInv(s) && s.queue.clock <= now
    ensures SystemInv(AfterStart(s, a, now))
  {
    match a
    case StartBegin(id) => StartBeginKeeps(s, id);
    case StartAttach(period, spawned) => StartAttachKeeps(s, period, spawned, now);
    case StartRegister(full) => StartRegisterKeeps(s, full);
    case StartUndo => StartUndoKeeps(s);
    case StartUndoDetach => StartUndoDetachKeeps(s, now);
    case StartUndoRemove => StartUndoRemoveKeeps(s, now);
    case StartPublish => StartPublishKeeps(s);
    case StartActivate(period) => StartActivateKeeps(s, period, now);
    case StartPrompt => StartPromptKeeps(s, now);
  }

  lemma StopKeeps(s: System, a: StopStep, now: Time)
    requires SystemInv(s) && s.queue.clock <= now
    ensures SystemInv(AfterStop(s, a, now))
  {
    match a
    case StopBegin => StopBeginKeeps(s);
    case StopUnregister(i) => StopUnregisterKeeps(s, i);
    case StopDetach(i) => StopDetachKeeps(s, i, now);
    case StopPoll(i, timedOut) => StopPollKeeps(s, i, timedOut, now);
    case StopFinish(i) => StopFinishKeeps(s, i);
  }

  lemma ActionKeepsInv(s: System, a: Action, now: Time)
    requires SystemInv(s) && s.queue.clock <= now
    ensures SystemInv(Act(s, a, now))
  {
    match a
    case Other(background) => BackgroundKeeps(s, background, now);
    case Start(start) => StartKeeps(s, start, now);
    case Stop(stop) => StopKeeps(s, stop, now);
  }
}
