/** One module on a shared work queue: its start and stop commands, the publishers of the
    topics it subscribes to, the worker, and everything else on the queue, interleaved lock
    region by lock region. */
module Lifecycle {
  import opened Options
  import opened Scheduler
  import opened SchedulerRuns

  /** A topic: how often it was published, which objects of the module have a callback in a
      slot, how many publishers have stored a message and wait for the callback lock, and the
      callbacks its holder has still to make. */
  datatype Topic = Topic(generation: nat, registered: set<Id>, stored: nat, notifying: Option<set<Id>>)

  /** Where a start command is; it holds the module lock throughout. */
  datatype StartPhase =
    | Created
    | Registering(next: nat)
    | Undoing(next: nat)
    | UndoDetaching
    | UndoRemoving
    | Activating
    | Prompting

  /** Where a stop command is, between its two regions under the module lock. */
  datatype StopPhase = Unregistering(next: nat) | Detaching | Waiting | Finishing(stopped: bool)

  datatype Starter = Starter(id: Id, phase: StartPhase)
  datatype Stopper = Stopper(id: Id, phase: StopPhase)

  /** `alive` are the module's objects not yet deleted, `mine` all it ever had; `seen` and
      `polled` belong to the object: the generations it has read and the topics its current
      Run has polled. The module counts as running when an object is published. */
  datatype System = System(
    queue: Queue, topics: seq<Topic>,
    alive: set<Id>, mine: set<Id>,
    published: Option<Id>, stopInProgress: bool,
    starters: seq<Starter>, stoppers: seq<Stopper>,
    seen: seq<nat>, polled: set<nat>)

  /** The worker, others on the queue, a Run of the module, and publishers. */
  datatype Background =
    | Foreign(step: Step)
    | Poll(topic: nat)
    | Store(topic: nat)
    | NotifyBegin(topic: nat)
    | NotifyOne(topic: nat, id: Id)
    | NotifyEnd(topic: nat)

  datatype StartStep =
    | StartBegin(id: Id)
    | StartAttach(period: Time, spawned: bool)
    | StartRegister(full: bool)
    | StartUndo
    | StartUndoDetach
    | StartUndoRemove
    | StartPublish
    | StartActivate(period: Time)
    | StartPrompt

  datatype StopStep =
    | StopBegin
    | StopUnregister(i: nat)
    | StopDetach(i: nat)
    | StopPoll(i: nat, timedOut: bool)
    | StopFinish(i: nat)

  datatype Action = Other(background: Background) | Start(start: StartStep) | Stop(stop: StopStep)

  function NewItem(id: Id): Item { Item(id, false, false, false, false, 0, 0, 0, 0, 0) }

  // ---------------------------------------------------------------------------
  // The queue: what the worker does and what others do to their own items.
  // ---------------------------------------------------------------------------

  /** The item that the step is applied to, if any. */
  function Target(step: Step): Option<Id>
  {
    match step
    case Attach(item, _) => Some(item.id)
    case DetachRequest(id) => Some(id)
    case DetachRemove(id) => Some(id)
    case Schedule(id, _) => Some(id)
    case SetInterval(id, _) => Some(id)
    case Clear(id) => Some(id)
    case _ => None
  }

  predicate OwnRun(s: System) { s.queue.worker.Running? && s.queue.worker.id in s.mine }

  ghost predicate AllPolled(s: System) { forall t :: 0 <= t < |s.topics| ==> t in s.polled }

  /** A Run of the module returns only after it has polled every topic. */
  ghost predicate ForeignAllowed(s: System, step: Step)
  {
    && (Target(step).Some? ==> Target(step).value !in s.mine)
    && (step.FinishRun? && OwnRun(s) ==> AllPolled(s))
  }

  function AfterForeign(s: System, step: Step, now: Time): System
  {
    s.(queue := Apply(s.queue, step, now),
       polled := if StartedBy(s.queue, Event(step, now)).Some? then {} else s.polled)
  }

  /** Part of a Run of the module: takes the latest message of a topic. */
  function AfterPoll(s: System, t: nat): System
  {
    if OwnRun(s) && t < |s.topics| && |s.seen| == |s.topics| then
      s.(seen := s.seen[t := s.topics[t].generation], polled := s.polled + {t})
    else s
  }

  // ---------------------------------------------------------------------------
  // Publishers.
  // ---------------------------------------------------------------------------

  function Stored(topic: Topic): Topic { topic.(generation := topic.generation + 1, stored := topic.stored + 1) }

  /** A publisher that has stored a message gets the callback lock. */
  function Begun(topic: Topic): Topic
  {
    if topic.stored == 0 || topic.notifying.Some? then topic
    else topic.(stored := topic.stored - 1, notifying := Some(topic.registered))
  }

  predicate IsCalling(topic: Topic, id: Id) { topic.notifying.Some? && id in topic.notifying.value }

  function Called(topic: Topic, id: Id): Topic
    requires IsCalling(topic, id)
  {
    topic.(notifying := Some(topic.notifying.value - {id}))
  }

  function Ended(topic: Topic): Topic { if topic.notifying != Some({}) then topic else topic.(notifying := None) }

  function Register(t: Topic, id: Id): Topic { t.(registered := t.registered + {id}) }

  function Unregister(t: Topic, id: Id): Topic { t.(registered := t.registered - {id}) }

  function AfterStore(s: System, t: nat): System
    requires t < |s.topics|
  {
    s.(topics := s.topics[t := Stored(s.topics[t])])
  }

  function AfterNotifyBegin(s: System, t: nat): System
    requires t < |s.topics|
  {
    s.(topics := s.topics[t := Begun(s.topics[t])])
  }

  function AfterNotifyOne(s: System, t: nat, id: Id, now: Time): System
    requires t < |s.topics|
  {
    if !IsCalling(s.topics[t], id) then s
    else s.(queue := Apply(s.queue, Schedule(id, 0), now), topics := s.topics[t := Called(s.topics[t], id)])
  }

  function AfterNotifyEnd(s: System, t: nat): System
    requires t < |s.topics|
  {
    s.(topics := s.topics[t := Ended(s.topics[t])])
  }

  // ---------------------------------------------------------------------------
  // The start command.
  // ---------------------------------------------------------------------------

  function Zeros(n: nat): (z: seq<nat>)
    ensures |z| == n
  {
    if n == 0 then [] else Zeros(n - 1) + [0]
  }

  /** Needs the module lock; refused while running or stopping. */
  function AfterStartBegin(s: System, id: Id): System
  {
    if s.starters != [] || s.published.Some? || s.stopInProgress || id in s.mine || Has(s.queue.items, id) then s
    else s.(alive := s.alive + {id}, mine := s.mine + {id}, starters := s.starters + [Starter(id, Created)],
            seen := Zeros(|s.topics|), polled := {})
  }

  predicate StarterIs(s: System, phase: StartPhase) { s.starters != [] && s.starters[0].phase == phase }

  function Move(s: System, phase: StartPhase): System
    requires s.starters != []
  {
    s.(starters := [Starter(s.starters[0].id, phase)])
  }

  /** Deletes the object of the failed start and releases the lock. */
  function Abandon(s: System): System
    requires s.starters != []
  {
    s.(alive := s.alive - {s.starters[0].id}, starters := [])
  }

  /** Fails if the worker cannot be started, or the queue is being shut down. */
  function AfterStartAttach(s: System, period: Time, spawned: bool, now: Time): System
  {
    if !StarterIs(s, Created) then s
    else if !spawned then Abandon(s)
    else
      var id := s.starters[0].id;
      var s' := s.(queue := Apply(s.queue, Attach(NewItem(id), period), now));
      if Has(s'.queue.items, id) then Move(s', Registering(0)) else Abandon(s')
  }

  /** Waits for the callback lock; fails if all slots are taken. */
  function AfterStartRegister(s: System, full: bool): System
  {
    if s.starters == [] || !s.starters[0].phase.Registering? then s
    else
      var Starter(id, phase) := s.starters[0];
      var k := phase.next;
      if k >= |s.topics| || s.topics[k].notifying.Some? then s
      else if full then Move(s, Undoing(0))
      else Move(s.(topics := s.topics[k := Register(s.topics[k], id)]), Registering(k + 1))
  }

  function AfterStartUndo(s: System): System
  {
    if s.starters == [] || !s.starters[0].phase.Undoing? then s
    else
      var Starter(id, phase) := s.starters[0];
      var k := phase.next;
      if k >= |s.topics| then Move(s, UndoDetaching)
      else if s.topics[k].notifying.Some? then s
      else Move(s.(topics := s.topics[k := Unregister(s.topics[k], id)]), Undoing(k + 1))
  }

  function AfterStartUndoDetach(s: System, now: Time): System
  {
    if !StarterIs(s, UndoDetaching) then s
    else Move(s.(queue := Apply(s.queue, DetachRequest(s.starters[0].id), now)), UndoRemoving)
  }

  /** The result of the detach is not looked at. */
  function AfterStartUndoRemove(s: System, now: Time): System
  {
    if !StarterIs(s, UndoRemoving) then s
    else Abandon(s.(queue := Apply(s.queue, DetachRemove(s.starters[0].id), now)))
  }

  function AfterStartPublish(s: System): System
  {
    if !StarterIs(s, Registering(|s.topics|)) then s
    else Move(s.(published := Some(s.starters[0].id)), Activating)
  }

  function AfterStartActivate(s: System, period: Time, now: Time): System
  {
    if !StarterIs(s, Activating) then s
    else Move(s.(queue := Apply(s.queue, SetInterval(s.starters[0].id, period), now)), Prompting)
  }

  /** The first request; then the lock is released. */
  function AfterStartPrompt(s: System, now: Time): System
  {
    if !StarterIs(s, Prompting) then s
    else s.(queue := Apply(s.queue, Schedule(s.starters[0].id, 0), now), starters := [])
  }

  // ---------------------------------------------------------------------------
  // The stop command.
  // ---------------------------------------------------------------------------

  /** Needs the module lock; refused while another stop is in progress or nothing runs. */
  function AfterStopBegin(s: System): System
  {
    if s.starters != [] || s.stopInProgress || s.published.None? then s
    else s.(stopInProgress := true, stoppers := s.stoppers + [Stopper(s.published.value, Unregistering(0))])
  }

  function MoveStop(s: System, i: nat, phase: StopPhase): System
    requires i < |s.stoppers|
  {
    s.(stoppers := s.stoppers[i := Stopper(s.stoppers[i].id, phase)])
  }

  function AfterStopUnregister(s: System, i: nat): System
  {
    if i >= |s.stoppers| || !s.stoppers[i].phase.Unregistering? then s
    else
      var Stopper(id, phase) := s.stoppers[i];
      var k := phase.next;
      if k >= |s.topics| then MoveStop(s, i, Detaching)
      else if s.topics[k].notifying.Some? then s
      else MoveStop(s.(topics := s.topics[k := Unregister(s.topics[k], id)]), i, Unregistering(k + 1))
  }

  function AfterStopDetach(s: System, i: nat, now: Time): System
  {
    if i >= |s.stoppers| || !s.stoppers[i].phase.Detaching? then s
    else MoveStop(s.(queue := Apply(s.queue, DetachRequest(s.stoppers[i].id), now)), i, Waiting)
  }

  /** Keeps waiting for a Run to end, gives up, or takes the item off the list. */
  function AfterStopPoll(s: System, i: nat, timedOut: bool, now: Time): System
  {
    if i >= |s.stoppers| || !s.stoppers[i].phase.Waiting? then s
    else
      var id := s.stoppers[i].id;
      if Has(s.queue.items, id) && Find(s.queue.items, id).running then
        if timedOut then MoveStop(s, i, Finishing(false)) else s
      else MoveStop(s.(queue := Apply(s.queue, DetachRemove(id), now)), i, Finishing(true))
  }

  /** Needs the module lock: deletes the object if it was stopped; if not, keeps it. */
  function AfterStopFinish(s: System, i: nat): System
  {
    if s.starters != [] || i >= |s.stoppers| || !s.stoppers[i].phase.Finishing? then s
    else
      var Stopper(id, phase) := s.stoppers[i];
      var s' := s.(stopInProgress := false, stoppers := s.stoppers[..i] + s.stoppers[i + 1..]);
      if phase.stopped then s'.(alive := s.alive - {id}, published := None) else s'
  }

  ghost function AfterBackground(s: System, a: Background, now: Time): System
  {
    match a
    case Foreign(step) => if ForeignAllowed(s, step) then AfterForeign(s, step, now) else s
    case Poll(t) => AfterPoll(s, t)
    case Store(t) => if t < |s.topics| then AfterStore(s, t) else s
    case NotifyBegin(t) => if t < |s.topics| then AfterNotifyBegin(s, t) else s
    case NotifyOne(t, id) => if t < |s.topics| then AfterNotifyOne(s, t, id, now) else s
    case NotifyEnd(t) => if t < |s.topics| then AfterNotifyEnd(s, t) else s
  }

  function AfterStart(s: System, a: StartStep, now: Time): System
  {
    match a
    case StartBegin(id) => AfterStartBegin(s, id)
    case StartAttach(period, spawned) => AfterStartAttach(s, period, spawned, now)
    case StartRegister(full) => AfterStartRegister(s, full)
    case StartUndo => AfterStartUndo(s)
    case StartUndoDetach => AfterStartUndoDetach(s, now)
    case StartUndoRemove => AfterStartUndoRemove(s, now)
    case StartPublish => AfterStartPublish(s)
    case StartActivate(period) => AfterStartActivate(s, period, now)
    case StartPrompt => AfterStartPrompt(s, now)
  }

  function AfterStop(s: System, a: StopStep, now: Time): System
  {
    match a
    case StopBegin => AfterStopBegin(s)
    case StopUnregister(i) => AfterStopUnregister(s, i)
    case StopDetach(i) => AfterStopDetach(s, i, now)
    case StopPoll(i, timedOut) => AfterStopPoll(s, i, timedOut, now)
    case StopFinish(i) => AfterStopFinish(s, i)
  }

  ghost function Act(s: System, a: Action, now: Time): System
  {
    match a
    case Other(background) => AfterBackground(s, background, now)
    case Start(start) => AfterStart(s, start, now)
    case Stop(stop) => AfterStop(s, stop, now)
  }
}
