/** The work queue as a state machine over its lock regions. Times are microseconds of a
    positive monotone clock. */
module Scheduler {
  import opened Options

  type Id = nat
  type Time = nat

  /** A time, or never (the largest 64-bit value in the sources). */
  datatype Due = Never | At(time: Time)

  datatype Item = Item(
    id: Id, enabled: bool, stopping: bool, running: bool, pending: bool,
    deadline: Time, period: Time, nextPeriodic: Time, lastStart: Time, minimumInterval: Time)

  /** The single worker: about to scan, asleep on the condition variable, inside Run, or gone. */
  datatype Worker = Idle | Sleeping(wake: Due, signalled: bool) | Running(id: Id) | Exited

  /** The attached items in attach order; whether a worker has been started and not been waited
      for since, and whether it has been asked to leave. */
  datatype Queue = Queue(items: seq<Item>, worker: Worker, started: bool, exit: bool, clock: Time)

  predicate Before(a: Due, b: Due)
  {
    a.At? && (b.Never? || a.time < b.time)
  }

  function Earlier(a: Due, b: Due): Due { if Before(b, a) then b else a }

  /** The request and the periodic fallback, whichever comes first. */
  function Requested(item: Item): Due
  {
    var due := if item.pending then At(item.deadline) else Never;
    if item.period != 0 then Earlier(due, At(item.nextPeriodic)) else due
  }

  /** The effective deadline: never before the minimum interval since the last start. */
  function Effective(item: Item): Due
  {
    if !item.enabled then Never
    else
      var due := Requested(item);
      if due.At? && item.lastStart != 0 && due.time < item.lastStart + item.minimumInterval then
        At(item.lastStart + item.minimumInterval)
      else due
  }

  function NextWake(items: seq<Item>): Due
  {
    if items == [] then Never
    else Earlier(NextWake(items[..|items| - 1]), Effective(items[|items| - 1]))
  }

  predicate IsDue(item: Item, now: Time)
  {
    Effective(item).At? && Effective(item).time <= now
  }

  /** The index of the earliest due item, the first in attach order among equals. */
  function Select(items: seq<Item>, now: Time): (k: Option<nat>)
    ensures k.Some? ==> k.value < |items| && IsDue(items[k.value], now)
  {
    if items == [] then None
    else
      var n := |items| - 1;
      var k := Select(items[..n], now);
      if IsDue(items[n], now) && (k.None? || Before(Effective(items[n]), Effective(items[k.value]))) then Some(n) else k
  }

  /** What Select chooses, without the scan order. */
  lemma {:induction false} SelectIsEarliest(items: seq<Item>, now: Time)
    ensures Select(items, now).None? <==> forall i :: 0 <= i < |items| ==> !IsDue(items[i], now)
    ensures Select(items, now).Some? ==>
              var k := Select(items, now).value;
              forall i :: 0 <= i < |items| ==>
                !Before(Effective(items[i]), Effective(items[k])) &&
                (Effective(items[i]) == Effective(items[k]) ==> k <= i)
  {
    if items != [] {
      var n := |items| - 1;
      SelectIsEarliest(items[..n], now);
      assert forall i :: 0 <= i < n ==> items[..n][i] == items[i];
      if Select(items, now).None? {
        assert !IsDue(items[n], now);
      } else if Select(items, now) == Some(n) && Select(items[..n], now).None? {
        forall i | 0 <= i < n
          ensures !Before(Effective(items[i]), Effective(items[n]))
        {
          assert !IsDue(items[..n][i], now);
        }
      }
    }
  }

  /** The wake-up time is the earliest effective deadline of all items. */
  lemma {:induction false} NextWakeIsMinimum(items: seq<Item>)
    ensures forall i :: 0 <= i < |items| ==> !Before(Effective(items[i]), NextWake(items))
    ensures NextWake(items).At? ==> exists i :: 0 <= i < |items| && Effective(items[i]) == NextWake(items)
  {
    if items != [] {
      var n := |items| - 1;
      NextWakeIsMinimum(items[..n]);
      forall i | 0 <= i < |items|
        ensures !Before(Effective(items[i]), NextWake(items))
      {
        if i < n {
          assert items[..n][i] == items[i];
        }
      }
      if NextWake(items).At? {
        if NextWake(items) == Effective(items[n]) {
        } else {
          var i :| 0 <= i < n && Effective(items[..n][i]) == NextWake(items[..n]);
          assert Effective(items[i]) == NextWake(items);
        }
      }
    }
  }

  // ---------------------------------------------------------------------------
  // The lock regions.
  // ---------------------------------------------------------------------------

  function Requesting(item: Item, delay: Time, now: Time): Item
  {
    if !item.enabled then item
    else
      var asked := now + delay;
      var earliest := item.lastStart + item.minimumInterval;
      var deadline := if item.lastStart != 0 && asked < earliest then earliest else asked;
      item.(deadline := if !item.pending || deadline < item.deadline then deadline else item.deadline, pending := true)
  }

  function Activated(item: Item, interval: Time, now: Time): Item
  {
    if item.stopping then item
    else item.(enabled := true, period := interval, nextPeriodic := now + interval)
  }

  function Cleared(item: Item): Item { item.(pending := false, period := 0) }

  function Disabled(item: Item): Item
  {
    item.(enabled := false, stopping := true, pending := false, period := 0)
  }

  function Starting(item: Item, now: Time): Item
  {
    item.(pending := false, lastStart := now,
          nextPeriodic := if item.period != 0 then now + item.period else item.nextPeriodic,
          running := true)
  }

  function Attaching(item: Item, minimumInterval: Time): Item
  {
    item.(minimumInterval := minimumInterval, lastStart := 0, pending := false, period := 0, enabled := false,
          stopping := false)
  }

  /** Where the item with the given id stands on the list. */
  function Position(items: seq<Item>, id: Id): (k: Option<nat>)
    ensures k.Some? ==> k.value < |items| && items[k.value].id == id
    ensures k.None? ==> forall i :: 0 <= i < |items| ==> items[i].id != id
  {
    if items == [] then None
    else if items[|items| - 1].id == id then Some(|items| - 1)
    else Position(items[..|items| - 1], id)
  }

  predicate Has(items: seq<Item>, id: Id) { Position(items, id).Some? }

  /** The items without the one at index k. */
  function Drop(items: seq<Item>, k: nat): (r: seq<Item>)
    requires k < |items|
    ensures |r| == |items| - 1
    ensures forall i :: 0 <= i < |r| ==> r[i] == items[if i < k then i else i + 1]
  {
    items[..k] + items[k + 1..]
  }

  function Signal(w: Worker): Worker { if w.Sleeping? then w.(signalled := true) else w }

  datatype Step =
    | StartWorker(spawned: bool)
    | Attach(item: Item, minimumInterval: Time)
    | DetachRequest(id: Id)
    | DetachRemove(id: Id)
    | Schedule(id: Id, delay: Time)
    | SetInterval(id: Id, interval: Time)
    | Clear(id: Id)
    | Scan
    | Wake
    | FinishRun
    | Shutdown
    | Join(joined: bool)

  /** Starts the worker unless it has been started; the operating system may refuse. */
  function StartWorkerStep(q: Queue, spawned: bool, now: Time): Queue
  {
    if q.started then q.(clock := now)
    else q.(exit := false, started := spawned, worker := if spawned then Idle else q.worker, clock := now)
  }

  function AttachStep(q: Queue, item: Item, minimumInterval: Time, now: Time): Queue
  {
    if Has(q.items, item.id) || item.running || q.exit then q.(clock := now)
    else q.(items := q.items + [Attaching(item, minimumInterval)], clock := now)
  }

  function DetachRequestStep(q: Queue, id: Id, now: Time): Queue
  {
    match Position(q.items, id)
    case None => q.(clock := now)
    case Some(k) => q.(items := q.items[k := Disabled(q.items[k])], worker := Signal(q.worker), clock := now)
  }

  function DetachRemoveStep(q: Queue, id: Id, now: Time): Queue
  {
    match Position(q.items, id)
    case None => q.(clock := now)
    case Some(k) =>
      if q.items[k].running then q.(clock := now)
      else q.(items := Drop(q.items, k), clock := now)
  }

  function ScheduleStep(q: Queue, id: Id, delay: Time, now: Time): Queue
  {
    match Position(q.items, id)
    case None => q.(clock := now)
    case Some(k) =>
      if !q.items[k].enabled then q.(clock := now)
      else q.(items := q.items[k := Requesting(q.items[k], delay, now)], worker := Signal(q.worker), clock := now)
  }

  function SetIntervalStep(q: Queue, id: Id, interval: Time, now: Time): Queue
  {
    match Position(q.items, id)
    case None => q.(clock := now)
    case Some(k) =>
      if q.items[k].stopping then q.(clock := now)
      else q.(items := q.items[k := Activated(q.items[k], interval, now)], worker := Signal(q.worker), clock := now)
  }

  /** The one region that broadcasts even when it has nothing to change. */
  function ClearStep(q: Queue, id: Id, now: Time): Queue
  {
    match Position(q.items, id)
    case None => q.(worker := Signal(q.worker), clock := now)
    case Some(k) => q.(items := q.items[k := Cleared(q.items[k])], worker := Signal(q.worker), clock := now)
  }

  /** The scan at the head of the worker loop: start the selected item or go to sleep. */
  function ScanStep(q: Queue, now: Time): Queue
  {
    if !q.worker.Idle? then q.(clock := now)
    else if q.exit then q.(worker := Exited, clock := now)
    else
      match Select(q.items, now)
      case None => q.(worker := Sleeping(NextWake(q.items), false), clock := now)
      case Some(k) =>
        q.(items := q.items[k := Starting(q.items[k], now)], worker := Running(q.items[k].id), clock := now)
  }

  function FinishRunStep(q: Queue, now: Time): Queue
  {
    if !q.worker.Running? then q.(clock := now)
    else
      match Position(q.items, q.worker.id)
      case None => q.(worker := Idle, clock := now)
      case Some(k) => q.(items := q.items[k := q.items[k].(running := false)], worker := Idle, clock := now)
  }

  function ShutdownStep(q: Queue, now: Time): Queue
  {
    if q.items != [] || !q.started then q.(clock := now)
    else q.(exit := true, worker := Signal(q.worker), clock := now)
  }

  /** The end of a shutdown, once the worker has left; waiting for it may fail. */
  function JoinStep(q: Queue, joined: bool, now: Time): Queue
  {
    if q.worker.Exited? && joined then q.(started := false, clock := now) else q.(clock := now)
  }

  /** One lock region at time `now`; a region whose guard fails changes nothing. */
  function Apply(q: Queue, step: Step, now: Time): Queue
  {
    match step
    case StartWorker(spawned) => StartWorkerStep(q, spawned, now)
    case Attach(item, minimumInterval) => AttachStep(q, item, minimumInterval, now)
    case DetachRequest(id) => DetachRequestStep(q, id, now)
    case DetachRemove(id) => DetachRemoveStep(q, id, now)
    case Schedule(id, delay) => ScheduleStep(q, id, delay, now)
    case SetInterval(id, interval) => SetIntervalStep(q, id, interval, now)
    case Clear(id) => ClearStep(q, id, now)
    case Scan => ScanStep(q, now)
    case Wake => if q.worker.Sleeping? then q.(worker := Idle, clock := now) else q.(clock := now)
    case FinishRun => FinishRunStep(q, now)
    case Shutdown => ShutdownStep(q, now)
    case Join(joined) => JoinStep(q, joined, now)
  }

  // ---------------------------------------------------------------------------
  // What every step keeps.
  // ---------------------------------------------------------------------------

  ghost predicate UniqueIds(items: seq<Item>)
  {
    forall i, j :: 0 <= i < j < |items| ==> items[i].id != items[j].id
  }

  ghost predicate ItemInv(item: Item, clock: Time)
  {
    && (item.stopping ==> !item.enabled && !item.pending && item.period == 0)
    && item.lastStart <= clock
  }

  ghost predicate RunningInv(q: Queue)
  {
    && (q.worker.Running? ==> Has(q.items, q.worker.id) && q.items[Position(q.items, q.worker.id).value].running)
    && (forall i :: 0 <= i < |q.items| && q.items[i].running ==> q.worker == Running(q.items[i].id))
  }

  /** A worker that sleeps without a pending broadcast wakes before any effective deadline. */
  ghost predicate NoOversleep(q: Queue)
  {
    q.worker.Sleeping? && !q.worker.signalled ==>
      forall i :: 0 <= i < |q.items| ==> !Before(Effective(q.items[i]), q.worker.wake)
  }

  /** There is no worker before the start; a started one leaves only when asked to, which
      happens only while nothing is attached. */
  ghost predicate WorkerInv(q: Queue)
  {
    && (!q.started ==> q.worker.Exited?)
    && (q.started && q.worker.Exited? ==> q.exit)
    && (q.items != [] ==> !q.exit)
  }

  ghost predicate Inv(q: Queue)
  {
    && UniqueIds(q.items)
    && (forall i :: 0 <= i < |q.items| ==> ItemInv(q.items[i], q.clock))
    && RunningInv(q)
    && WorkerInv(q)
    && NoOversleep(q)
    && q.clock > 0
  }

  const EMPTY := Queue([], Exited, false, false, 1)

  lemma EmptyInv()
    ensures Inv(EMPTY)
  {
  }

  lemma PositionOf(items: seq<Item>, k: nat)
    requires UniqueIds(items) && k < |items|
    ensures Position(items, items[k].id) == Some(k)
  {
  }

  lemma UniqueReplace(items: seq<Item>, k: nat, item: Item)
    requires UniqueIds(items) && k < |items| && item.id == items[k].id
    ensures UniqueIds(items[k := item])
  {
  }

  lemma ReplaceKeeps(q: Queue, k: nat, item: Item, now: Time)
    requires Inv(q) && q.clock <= now && k < |q.items|
    requires item.id == q.items[k].id && item.running == q.items[k].running && ItemInv(item, now)
    ensures Inv(q.(items := q.items[k := item], worker := Signal(q.worker), clock := now))
  {
    var items := q.items[k := item];
    if q.worker.Running? {
      PositionOf(items, Position(q.items, q.worker.id).value);
    }
  }

  lemma ClockKeeps(q: Queue, now: Time)
    requires Inv(q) && q.clock <= now
    ensures Inv(q.(clock := now))
  {
  }

  lemma AppendUnique(items: seq<Item>, item: Item)
    requires UniqueIds(items) && !Has(items, item.id)
    ensures UniqueIds(items + [item])
  {
  }

  lemma AppendKeeps(q: Queue, item: Item, now: Time)
    requires Inv(q) && q.clock <= now
    requires !Has(q.items, item.id) && !item.running && !item.enabled && ItemInv(item, now) && !q.exit
    ensures Inv(q.(items := q.items + [item], clock := now))
  {
    var items := q.items + [item];
    AppendUnique(q.items, item);
    if q.worker.Running? {
      var k := Position(q.items, q.worker.id).value;
      assert items[k] == q.items[k];
      PositionOf(items, k);
    }
  }

  lemma AttachKeeps(q: Queue, item: Item, minimumInterval: Time, now: Time)
    requires Inv(q) && q.clock <= now
    ensures Inv(AttachStep(q, item, minimumInterval, now))
  {
    ClockKeeps(q, now);
    if !Has(q.items, item.id) && !item.running && !q.exit {
      AppendKeeps(q, Attaching(item, minimumInterval), now);
    }
  }

  lemma DropUnique(items: seq<Item>, k: nat)
    requires UniqueIds(items) && k < |items|
    ensures UniqueIds(Drop(items, k)) && !Has(Drop(items, k), items[k].id)
  {
  }

  lemma DropKeeps(q: Queue, k: nat, now: Time)
    requires Inv(q) && q.clock <= now
    requires k < |q.items| && !q.items[k].running
    ensures Inv(q.(items := Drop(q.items, k), clock := now))
  {
    var items := Drop(q.items, k);
    DropUnique(q.items, k);
    if q.worker.Running? {
      var i := Position(q.items, q.worker.id).value;
      PositionOf(items, if i < k then i else i - 1);
    }
  }

  lemma ScanKeeps(q: Queue, now: Time)
    requires Inv(q) && q.clock <= now
    ensures Inv(ScanStep(q, now))
  {
    ClockKeeps(q, now);
    if q.worker.Idle? && !q.exit {
      NextWakeIsMinimum(q.items);
      if Select(q.items, now).Some? {
        var k := Select(q.items, now).value;
        var items := q.items[k := Starting(q.items[k], now)];
        assert UniqueIds(items);
        PositionOf(items, k);
      }
    }
  }

  lemma FinishRunKeeps(q: Queue, now: Time)
    requires Inv(q) && q.clock <= now
    ensures Inv(FinishRunStep(q, now))
  {
    ClockKeeps(q, now);
  }

  lemma StepKeepsInv(q: Queue, step: Step, now: Time)
    requires Inv(q) && q.clock <= now
    ensures Inv(Apply(q, step, now))
  {
    ClockKeeps(q, now);
    match step
    case Attach(item, minimumInterval) => AttachKeeps(q, item, minimumInterval, now);
    case DetachRemove(id) =>
      if Has(q.items, id) && !q.items[Position(q.items, id).value].running {
        DropKeeps(q, Position(q.items, id).value, now);
      }
    case Scan => ScanKeeps(q, now);
    case FinishRun => FinishRunKeeps(q, now);
    case Wake =>
    case Shutdown =>
    case StartWorker(_) =>
    case Join(_) =>
    case Schedule(id, delay) =>
      if Has(q.items, id) {
        var k := Position(q.items, id).value;
        ReplaceKeeps(q, k, Requesting(q.items[k], delay, now), now);
      }
    case SetInterval(id, interval) =>
      if Has(q.items, id) {
        var k := Position(q.items, id).value;
        ReplaceKeeps(q, k, Activated(q.items[k], interval, now), now);
      }
    case Clear(id) =>
      if Has(q.items, id) {
        var k := Position(q.items, id).value;
        ReplaceKeeps(q, k, Cleared(q.items[k]), now);
      }
    case DetachRequest(id) =>
      if Has(q.items, id) {
        var k := Position(q.items, id).value;
        ReplaceKeeps(q, k, Disabled(q.items[k]), now);
      }
  }
}
