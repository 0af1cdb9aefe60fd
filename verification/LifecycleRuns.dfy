/** The guarantees of the module lifecycle over every run from power-up. */
module LifecycleRuns {
  import opened Options
  import opened Scheduler
  import opened SchedulerRuns
  import opened Lifecycle
  import opened LifecycleProofs

  datatype Moment = Moment(action: Action, now: Time)

  function Fresh(n: nat): seq<Topic>
  {
    if n == 0 then [] else Fresh(n - 1) + [Topic(0, {}, 0, None)]
  }

  /** Nothing on the queue, no object, nothing published. */
  function PowerUp(topics: nat): System
  {
    System(EMPTY, Fresh(topics), {}, {}, None, false, [], [], Zeros(|Fresh(topics)|), {})
  }

  ghost predicate InOrder(clock: Time, trace: seq<Moment>)
    decreases trace
  {
    trace == [] || (clock <= trace[0].now && InOrder(trace[0].now, trace[1..]))
  }

  ghost function Run(s: System, trace: seq<Moment>): System
    decreases trace
  {
    if trace == [] then s else Run(Act(s, trace[0].action, trace[0].now), trace[1..])
  }

  lemma {:induction false} FreshTopics(n: nat)
    ensures forall t :: 0 <= t < |Fresh(n)| ==> TopicInv(Fresh(n)[t], {})
  {
    if n != 0 {
      FreshTopics(n - 1);
    }
  }

  lemma PowerUpInv(topics: nat)
    ensures SystemInv(PowerUp(topics))
  {
    EmptyInv();
    FreshTopics(topics);
  }

  lemma QueueClock(q: Queue, step: Step, now: Time)
    ensures Apply(q, step, now).clock == now
  {
  }

  lemma BackgroundClock(s: System, a: Background, now: Time)
    requires s.queue.clock <= now
    ensures AfterBackground(s, a, now).queue.clock <= now
  {
    match a
    case Foreign(step) => QueueClock(s.queue, step, now);
    case NotifyOne(_, id) => QueueClock(s.queue, Schedule(id, 0), now);
    case _ =>
  }

  lemma CommandClock(s: System, a: Action, now: Time)
    requires s.queue.clock <= now && !a.Other?
    ensures Act(s, a, now).queue.clock <= now
  {
    forall step: Step
      ensures Apply(s.queue, step, now).clock == now
    {
      QueueClock(s.queue, step, now);
    }
  }

  lemma ActClock(s: System, a: Action, now: Time)
    requires s.queue.clock <= now
    ensures Act(s, a, now).queue.clock <= now
  {
    if a.Other? {
      BackgroundClock(s, a.background, now);
    } else {
      CommandClock(s, a, now);
    }
  }

  /** The invariant does not need the exact time of the last region, only that time goes on. */
  lemma {:induction false} RunKeepsInv(s: System, trace: seq<Moment>, clock: Time)
    requires SystemInv(s) && s.queue.clock <= clock && InOrder(clock, trace)
    ensures SystemInv(Run(s, trace))
    decreases trace
  {
    if trace != [] {
      ActionKeepsInv(s, trace[0].action, trace[0].now);
      ActClock(s, trace[0].action, trace[0].now);
      RunKeepsInv(Act(s, trace[0].action, trace[0].now), trace[1..], trace[0].now);
    }
  }

  /** However many commands run at once, there is never more than one object, and what the
      status command and the worker and the publishers can reach is that object, undeleted. */
  lemma AtMostOneObject(topics: nat, trace: seq<Moment>)
    requires InOrder(EMPTY.clock, trace)
    ensures var s := Run(PowerUp(topics), trace);
            && (forall a, b :: a in s.alive && b in s.alive ==> a == b)
            && (s.published.Some? ==> s.published.value in s.alive)
            && (OwnRun(s) ==> s.queue.worker.id in s.alive)
            && (forall t :: 0 <= t < |s.topics| && s.topics[t].notifying.Some? ==>
              s.topics[t].notifying.value <= s.alive)
  {
    PowerUpInv(topics);
    RunKeepsInv(PowerUp(topics), trace, EMPTY.clock);
    var s := Run(PowerUp(topics), trace);
    if OwnRun(s) {
      assert Has(s.queue.items, s.queue.worker.id);
    }
    forall t | 0 <= t < |s.topics| && s.topics[t].notifying.Some?
      ensures s.topics[t].notifying.value <= s.alive
    {
      assert TopicInv(s.topics[t], s.alive);
    }
  }

  /** Whenever an object is deleted it is off the queue's list, not running, not registered
      with any topic, and no publisher is about to call it. */
  lemma DeletedOnlyWhenUnreachable(topics: nat, trace: seq<Moment>, m: Moment, id: Id)
    requires InOrder(EMPTY.clock, trace) && Run(PowerUp(topics), trace).queue.clock <= m.now
    requires id in Run(PowerUp(topics), trace).alive && id !in Act(Run(PowerUp(topics), trace), m.action, m.now).alive
    ensures var s := Act(Run(PowerUp(topics), trace), m.action, m.now);
            && !Has(s.queue.items, id) && s.queue.worker != Running(id)
            && forall t :: 0 <= t < |s.topics| ==>
                 id !in s.topics[t].registered && (s.topics[t].notifying.Some? ==> id !in s.topics[t].notifying.value)
  {
    PowerUpInv(topics);
    RunKeepsInv(PowerUp(topics), trace, EMPTY.clock);
    var s := Run(PowerUp(topics), trace);
    ActionKeepsInv(s, m.action, m.now);
    var s' := Act(s, m.action, m.now);
    OnceMine(s, m.action, m.now, id);
    forall t | 0 <= t < |s'.topics|
      ensures id !in s'.topics[t].registered && (s'.topics[t].notifying.Some? ==> id !in s'.topics[t].notifying.value)
    {
      assert TopicInv(s'.topics[t], s'.alive);
    }
  }

  lemma OnceMine(s: System, a: Action, now: Time, id: Id)
    requires id in s.mine
    ensures id in Act(s, a, now).mine
  {
  }

  // ---------------------------------------------------------------------------
  // A stop that timed out.
  // ---------------------------------------------------------------------------

  /** The object is deleted, or no start works on it and its item is stopping or gone. */
  ghost predicate Retired(s: System, id: Id)
  {
    && id in s.mine
    && (id in s.alive ==> s.starters == [] && (IsStopping(View(s.queue, id)) || IsOff(View(s.queue, id))))
  }

  lemma BackgroundRetired(s: System, a: Background, now: Time, id: Id)
    requires SystemInv(s) && s.queue.clock <= now && Retired(s, id)
    ensures Retired(AfterBackground(s, a, now), id)
  {
    match a
    case Foreign(step) =>
      if ForeignAllowed(s, step) {
        ForeignKeepsKind(s.queue, Event(step, now), id);
      }
    case NotifyOne(_, other) => ForeignKeepsKind(s.queue, Event(Schedule(other, 0), now), id);
    case _ =>
  }

  lemma StartRetired(s: System, a: StartStep, now: Time, id: Id)
    requires SystemInv(s) && s.queue.clock <= now && Retired(s, id)
    ensures Retired(AfterStart(s, a, now), id)
  {
    if s.starters == [] {
      assert !a.StartBegin? ==> AfterStart(s, a, now) == s;
    } else {
      TheStarter(s);
      assert id !in s.alive;
    }
  }

  lemma StopRetired(s: System, a: StopStep, now: Time, id: Id)
    requires SystemInv(s) && s.queue.clock <= now && Retired(s, id)
    ensures Retired(AfterStop(s, a, now), id)
  {
    if id in s.alive && s.stoppers != [] {
      TheStopper(s, 0);
      var i := s.stoppers[0].id;
      match a
      case StopDetach(_) => if s.stoppers[0].phase.Detaching? { FindAfterDetach(s.queue, i, now); }
      case StopPoll(_, _) => DetachWaitsForRun(s.queue, i, now);
      case _ =>
    }
  }

  lemma FindAfterDetach(q: Queue, id: Id, now: Time)
    requires Inv(q) && q.clock <= now && Has(q.items, id)
    ensures IsStopping(View(Apply(q, DetachRequest(id), now), id))
  {
    FindAfter(q, Event(DetachRequest(id), now), id);
  }

  /** The moment makes the worker start a Run of the object. */
  ghost predicate StartsRunOf(s: System, m: Moment, id: Id)
  {
    && m.action.Other? && m.action.background.Foreign?
    && ForeignAllowed(s, m.action.background.step)
    && StartedBy(s.queue, Event(m.action.background.step, m.now)) == Some(id)
  }

  lemma RetiredDoesNotStart(s: System, m: Moment, id: Id)
    requires SystemInv(s) && Retired(s, id)
    ensures !StartsRunOf(s, m, id)
  {
    if StartsRunOf(s, m, id) {
      StartedIsDue(s.queue, Event(m.action.background.step, m.now), id);
    }
  }

  /** A stop that timed out keeps the object published and alive, and retires it. */
  lemma TimedOutStopRetires(s: System, i: nat, now: Time)
    requires SystemInv(s) && s.starters == [] && i < |s.stoppers| && s.stoppers[i].phase == Finishing(false)
    ensures var id := s.stoppers[i].id;
            var s' := AfterStopFinish(s, i);
            s'.published == Some(id) && id in s'.alive && Retired(s', id) && !s'.stopInProgress
  {
    TheStopper(s, i);
  }

  /** A retired object never runs again, in any continuation, whatever is requested of it. */
  lemma {:induction false} RetiredForever(s: System, trace: seq<Moment>, clock: Time, id: Id, next: Moment)
    requires SystemInv(s) && s.queue.clock <= clock && InOrder(clock, trace) && Retired(s, id)
    ensures Retired(Run(s, trace), id) && !StartsRunOf(Run(s, trace), next, id)
    decreases trace
  {
    if trace == [] {
      RetiredDoesNotStart(s, next, id);
    } else {
      var m := trace[0];
      match m.action {
        case Other(background) => BackgroundRetired(s, background, m.now, id);
        case Start(start) => StartRetired(s, start, m.now, id);
        case Stop(stop) => StopRetired(s, stop, m.now, id);
      }
      ActionKeepsInv(s, m.action, m.now);
      ActClock(s, m.action, m.now);
      RetiredForever(Act(s, m.action, m.now), trace[1..], m.now, id, next);
    }
  }

  // ---------------------------------------------------------------------------
  // No lost update.
  // ---------------------------------------------------------------------------

  /** A publisher has stored a message and not yet called the object back. */
  predicate InFlight(topic: Topic, id: Id)
  {
    topic.stored > 0 || (topic.notifying.Some? && id in topic.notifying.value)
  }

  /** Unread data means that a Run is requested, or under way and yet to poll the topic, or
      that a publisher has still to ask for one, or the start command, which has just enabled
      the item. */
  ghost predicate Announced(s: System, v: Option<Item>, id: Id, t: nat)
    requires t < |s.topics| && |s.seen| == |s.topics|
  {
    s.seen[t] == s.topics[t].generation
    || (v.Some? && v.value.pending)
    || (s.queue.worker == Running(id) && t !in s.polled)
    || InFlight(s.topics[t], id)
    || StarterIs(s, Prompting)
  }

  ghost predicate AllAnnounced(s: System, v: Option<Item>, id: Id)
    requires |s.seen| == |s.topics|
  {
    forall t :: 0 <= t < |s.topics| && id in s.topics[t].registered ==> Announced(s, v, id, t)
  }

  /** The module's object may run: its item is enabled, whatever commands are at work. */
  ghost predicate Up(s: System, id: Id)
  {
    id in s.alive && IsEnabled(View(s.queue, id))
  }

  ghost predicate NothingLost(s: System)
  {
    && |s.seen| == |s.topics|
    && forall id :: Up(s, id) ==> AllAnnounced(s, View(s.queue, id), id)
  }

  /** What a step of the queue does to the item and the worker, as far as this matters. */
  lemma PendingAfter(q: Queue, step: Step, now: Time, id: Id)
    requires Inv(q) && q.clock <= now && Has(q.items, id) && Find(q.items, id).enabled
    requires Target(step) == Some(id) ==> step.Schedule?
    ensures var q' := Apply(q, step, now);
            && Has(q'.items, id)
            && (StartedBy(q, Event(step, now)) == Some(id) ==> q'.worker == Running(id))
            && (StartedBy(q, Event(step, now)) != Some(id) && Find(q.items, id).pending ==> Find(q'.items, id).pending)
            && (step == Schedule(id, 0) ==> Find(q'.items, id).pending)
            && (q.worker == Running(id) && !step.FinishRun? ==> q'.worker == Running(id))
  {
    FindAfter(q, Event(step, now), id);
  }

  lemma ForeignAnnounces(s: System, step: Step, now: Time, id: Id)
    requires SystemInv(s) && s.queue.clock <= now && ForeignAllowed(s, step)
    requires Up(s, id) && AllAnnounced(s, View(s.queue, id), id)
    ensures var s' := AfterForeign(s, step, now); AllAnnounced(s', View(s'.queue, id), id)
  {
    PendingAfter(s.queue, step, now, id);
    var s' := AfterForeign(s, step, now);
    forall t | 0 <= t < |s.topics| && id in s.topics[t].registered
      ensures Announced(s', View(s'.queue, id), id, t)
    {
      assert Announced(s, View(s.queue, id), id, t);
    }
  }

  lemma NotifyAnnounces(s: System, t: nat, other: Id, now: Time, id: Id)
    requires SystemInv(s) && s.queue.clock <= now && t < |s.topics|
    requires Up(s, id) && AllAnnounced(s, View(s.queue, id), id)
    ensures var s' := AfterNotifyOne(s, t, other, now); AllAnnounced(s', View(s'.queue, id), id)
  {
    var s' := AfterNotifyOne(s, t, other, now);
    if s' != s {
      assert TopicInv(s.topics[t], s.alive);
      assert other == id;
      PendingAfter(s.queue, Schedule(id, 0), now, id);
    }
  }

  lemma TopicAnnounces(s: System, a: Background, now: Time, id: Id)
    requires SystemInv(s) && (a.Poll? || a.Store? || a.NotifyBegin? || a.NotifyEnd?)
    requires Up(s, id) && AllAnnounced(s, View(s.queue, id), id)
    ensures var s' := AfterBackground(s, a, now); |s'.seen| == |s'.topics| && AllAnnounced(s', View(s'.queue, id), id)
  {
    var s' := AfterBackground(s, a, now);
    forall t | 0 <= t < |s.topics| && id in s'.topics[t].registered
      ensures Announced(s', View(s'.queue, id), id, t)
    {
      assert id in s.topics[t].registered && Announced(s, View(s.queue, id), id, t);
    }
  }

  lemma BackgroundLosesNothing(s: System, a: Background, now: Time)
    requires SystemInv(s) && s.queue.clock <= now && NothingLost(s)
    ensures NothingLost(AfterBackground(s, a, now))
  {
    var s' := AfterBackground(s, a, now);
    BackgroundKeeps(s, a, now);
    forall id | Up(s', id)
      ensures AllAnnounced(s', View(s'.queue, id), id)
    {
      StillUp(s, a, now, id);
      match a
      case Foreign(step) => if ForeignAllowed(s, step) { ForeignAnnounces(s, step, now, id); }
      case NotifyOne(t, other) => if t < |s.topics| { NotifyAnnounces(s, t, other, now, id); }
      case _ => TopicAnnounces(s, a, now, id);
    }
  }

  /** Background steps do not bring a module up. */
  lemma StillUp(s: System, a: Background, now: Time, id: Id)
    requires SystemInv(s) && s.queue.clock <= now && Up(AfterBackground(s, a, now), id)
    ensures Up(s, id)
  {
    var s' := AfterBackground(s, a, now);
    assert s.alive != {};
    var own :| ObjectInv(s, View(s.queue, own), own);
    match a
    case Foreign(step) =>
      if ForeignAllowed(s, step) {
        ForeignKeepsKind(s.queue, Event(step, now), id);
      }
    case NotifyOne(_, other) => ForeignKeepsKind(s.queue, Event(Schedule(other, 0), now), id);
    case _ =>
  }

  lemma PromptAnnounces(s: System, now: Time)
    requires SystemInv(s) && s.queue.clock <= now && StarterIs(s, Prompting)
    ensures NothingLost(AfterStartPrompt(s, now))
  {
    TheStarter(s);
    var id := s.starters[0].id;
    PendingAfter(s.queue, Schedule(id, 0), now, id);
  }

  /** The step leaves the item disabled, or changes nothing, or is one of the last two of a start. */
  lemma StartLosesNothing(s: System, a: StartStep, now: Time)
    requires SystemInv(s) && s.queue.clock <= now && NothingLost(s)
    ensures NothingLost(AfterStart(s, a, now))
  {
    StartKeeps(s, a, now);
    var s' := AfterStart(s, a, now);
    if StarterIs(s, Prompting) && a.StartPrompt? {
      PromptAnnounces(s, now);
    } else if s'.starters != [] {
      TheStarter(s');
    } else {
      assert s' == s || s'.alive == {};
    }
  }

  lemma StopLosesNothing(s: System, a: StopStep, now: Time)
    requires SystemInv(s) && s.queue.clock <= now && NothingLost(s)
    ensures NothingLost(AfterStop(s, a, now))
  {
    StopKeeps(s, a, now);
    var s' := AfterStop(s, a, now);
    forall id | Up(s', id)
      ensures AllAnnounced(s', View(s'.queue, id), id)
    {
      StopOnlyUnregisters(s, a, now, id);
      forall t | 0 <= t < |s.topics| && id in s'.topics[t].registered
        ensures Announced(s', View(s'.queue, id), id, t)
      {
        assert Announced(s, View(s.queue, id), id, t);
      }
    }
  }

  /** A step of a stop that leaves the item enabled takes callbacks out of slots and nothing else. */
  lemma StopOnlyUnregisters(s: System, a: StopStep, now: Time, id: Id)
    requires SystemInv(s) && s.queue.clock <= now && Up(AfterStop(s, a, now), id)
    ensures var s' := AfterStop(s, a, now);
            && Up(s, id) && s'.queue == s.queue && s'.starters == s.starters
            && s'.seen == s.seen && s'.polled == s.polled && |s'.topics| == |s.topics|
            && forall t :: 0 <= t < |s.topics| ==>
                 s'.topics[t].registered <= s.topics[t].registered
                 && s'.topics[t] == s.topics[t].(registered := s'.topics[t].registered)
  {
    if s.stoppers != [] {
      TheStopper(s, 0);
      var own := s.stoppers[0].id;
      match a
      case StopDetach(_) => if s.stoppers[0].phase.Detaching? { FindAfterDetach(s.queue, own, now); }
      case StopPoll(_, _) => DetachWaitsForRun(s.queue, own, now);
      case _ =>
    }
  }

  lemma ActLosesNothing(s: System, a: Action, now: Time)
    requires SystemInv(s) && s.queue.clock <= now && NothingLost(s)
    ensures NothingLost(Act(s, a, now))
  {
    match a
    case Other(background) => BackgroundLosesNothing(s, background, now);
    case Start(start) => StartLosesNothing(s, start, now);
    case Stop(stop) => StopLosesNothing(s, stop, now);
  }

  lemma {:induction false} RunLosesNothing(s: System, trace: seq<Moment>, clock: Time)
    requires SystemInv(s) && NothingLost(s) && s.queue.clock <= clock && InOrder(clock, trace)
    ensures SystemInv(Run(s, trace)) && NothingLost(Run(s, trace))
    decreases trace
  {
    if trace != [] {
      var m := trace[0];
      ActionKeepsInv(s, m.action, m.now);
      ActLosesNothing(s, m.action, m.now);
      ActClock(s, m.action, m.now);
      RunLosesNothing(Act(s, m.action, m.now), trace[1..], m.now);
    }
  }

  /** In every reachable state in which the object's item is enabled, whatever commands are at
      work: a topic it is registered with and has not read the latest data of is one for which a
      Run is requested, or under way and yet to poll it, or about to be requested by a publisher
      that has stored the message, or by the start command itself. */
  lemma NoLostUpdate(topics: nat, trace: seq<Moment>, id: Id, t: nat)
    requires InOrder(EMPTY.clock, trace)
    requires Up(Run(PowerUp(topics), trace), id) && t < |Run(PowerUp(topics), trace).topics|
    requires id in Run(PowerUp(topics), trace).topics[t].registered
    ensures var s := Run(PowerUp(topics), trace);
            && |s.seen| == |s.topics| && Has(s.queue.items, id)
            && (s.seen[t] != s.topics[t].generation ==>
                  || Find(s.queue.items, id).pending
                  || (s.queue.worker == Running(id) && t !in s.polled)
                  || InFlight(s.topics[t], id)
                  || StarterIs(s, Prompting))
  {
    PowerUpInv(topics);
    RunLosesNothing(PowerUp(topics), trace, EMPTY.clock);
    var s := Run(PowerUp(topics), trace);
    assert Announced(s, View(s.queue, id), id, t);
  }

  /** Every topic of the module is one of these while no command is at work. */
  lemma UpIsRegistered(topics: nat, trace: seq<Moment>, id: Id, t: nat)
    requires InOrder(EMPTY.clock, trace)
    requires var s := Run(PowerUp(topics), trace); Up(s, id) && s.starters == [] && s.stoppers == [] && t < |s.topics|
    ensures id in Run(PowerUp(topics), trace).topics[t].registered
  {
    PowerUpInv(topics);
    RunKeepsInv(PowerUp(topics), trace, EMPTY.clock);
  }
}
