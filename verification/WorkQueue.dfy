/** The work queue object and its items, linked through the items themselves. Each method is one
    mutex-held region and does to the queue what the state machine in Scheduler says; `now` is
    what the region reads from the clock. */
module WorkQueues {
  import opened Options
  import opened Scheduler

  /** A 64-bit unsigned value. */
  function Unsigned(x: int): nat { x % 0x1_0000_0000_0000_0000 }

  /** It stays in range by whole turns of 2^64. */
  lemma UnsignedWraps(x: int)
    ensures 0 <= Unsigned(x) < 0x1_0000_0000_0000_0000
    ensures Unsigned(x + 0x1_0000_0000_0000_0000) == Unsigned(x)
    ensures 0 <= x < 0x1_0000_0000_0000_0000 ==> Unsigned(x) == x
  {
  }

  class WorkItem {
    const id: Id
    var next: WorkItem?
    var attached: bool
    var enabled: bool
    var stopping: bool
    var running: bool
    var pending: bool
    var deadline: Time
    var period: Time
    var nextPeriodic: Time
    var lastStart: Time
    var minimumInterval: Time

    constructor (id: Id)
      ensures State() == Item(id, false, false, false, false, 0, 0, 0, 0, 0) && !attached && next == null
    {
      this.id, next := id, null;
      attached, enabled, stopping, running, pending := false, false, false, false, false;
      deadline, period, nextPeriodic, lastStart, minimumInterval := 0, 0, 0, 0, 0;
    }

    function State(): Item
      reads this
    {
      Item(id, enabled, stopping, running, pending, deadline, period, nextPeriodic, lastStart, minimumInterval)
    }

    /** Records a request for `delay` from now, honouring the minimum interval. */
    method Request(delay: Time, now: Time)
      requires enabled
      modifies this`deadline, this`pending
      ensures State() == Requesting(old(State()), delay, now)
    {
      var asked := now + delay;
      var earliest := lastStart + minimumInterval;
      if lastStart != 0 && asked < earliest {
        asked := earliest;
      }
      if !pending || asked < deadline {
        deadline := asked;
      }
      pending := true;
    }

    method Activate(interval: Time, now: Time)
      requires !stopping
      modifies this`enabled, this`period, this`nextPeriodic
      ensures State() == Activated(old(State()), interval, now)
    {
      enabled, period, nextPeriodic := true, interval, now + interval;
    }

    method ClearRequests()
      modifies this`pending, this`period
      ensures State() == Cleared(old(State()))
    {
      pending, period := false, 0;
    }

    method Disable()
      modifies this`enabled, this`stopping, this`pending, this`period
      ensures State() == Disabled(old(State()))
    {
      enabled, stopping, pending, period := false, true, false, 0;
    }

    method Enroll(interval: Time)
      modifies this`minimumInterval, this`lastStart, this`pending, this`period, this`attached, this`enabled
      modifies this`stopping
      ensures attached && State() == Attaching(old(State()), interval)
    {
      minimumInterval, lastStart := interval, 0;
      pending, period := false, 0;
      attached, enabled, stopping := true, false, false;
    }

    method BeginRun(now: Time)
      modifies this`pending, this`lastStart, this`nextPeriodic, this`running
      ensures State() == Starting(old(State()), now)
    {
      pending, lastStart := false, now;
      if period != 0 {
        nextPeriodic := now + period;
      }
      running := true;
    }

    method EndRun()
      modifies this`running
      ensures State() == old(State()).(running := false)
    {
      running := false;
    }
  }

  class WorkQueue {
    var head: WorkItem?
    var started: bool
    var exit: bool
    /** Runs finished and the longest of them, in 64-bit counters. */
    var runs: nat
    var maxRunUs: nat
    /** What the worker thread is doing. */
    var worker: Worker
    /** The attached items, head first. */
    ghost var items: seq<WorkItem>
    /** The time of the last region. */
    ghost var clock: Time
    /** The states of the items. */
    ghost var states: seq<Item>

    ghost function NodeAt(i: nat): WorkItem?
      reads `items
    {
      if i < |items| then items[i] else null
    }

    ghost predicate Linked()
      reads `head, `items, items`next
    {
      head == NodeAt(0) && forall i {:trigger items[i].next} :: 0 <= i < |items| ==> items[i].next == NodeAt(i + 1)
    }

    ghost function Rest(k: nat): set<WorkItem>
      reads `items
    {
      set i | 0 <= i < |items| && i != k :: items[i]
    }

    ghost predicate Tracks(i: nat)
      reads `items, `states, if i < |items| then {items[i]} else {}
    {
      i < |items| && i < |states| && items[i].State() == states[i] && items[i].attached
    }

    /** The items, all but the one at index k, are attached and their states are known. */
    ghost predicate TrackedBut(k: nat)
      reads `items, `states, Rest(k)
    {
      |states| == |items| && forall i :: 0 <= i < |items| && i != k ==> Tracks(i)
    }

    ghost predicate Distinct()
      reads `items
    {
      forall i, j :: 0 <= i < j < |items| ==> items[i] != items[j]
    }

    ghost predicate Valid()
      reads `head, `items, `states, items
    {
      Linked() && TrackedBut(|items|) && UniqueIds(states)
    }

    ghost function Abs(): Queue
      reads this
    {
      Queue(states, worker, started, exit, clock)
    }

    /** The item's own flag says whether it is on the list, and ids tell items apart. */
    ghost predicate Known(item: WorkItem)
      reads this, item
    {
      && (item.attached <==> item in items)
      && (item !in items ==> !item.enabled && !item.running && !Has(states, item.id))
    }

    constructor ()
      ensures Valid() && Abs() == EMPTY && runs == 0 == maxRunUs
    {
      head, started, exit, runs, maxRunUs, worker := null, false, false, 0, 0, Exited;
      items, clock, states := [], 1, [];
    }

    lemma IndexOf(item: WorkItem) returns (k: nat)
      requires Valid() && item in items
      ensures k < |items| && items[k] == item && Position(states, item.id) == Some(k)
      ensures item !in Rest(k) && TrackedBut(k) && item.State() == states[k] && item.attached
    {
      k :| 0 <= k < |items| && items[k] == item;
      assert Tracks(k);
      PositionOf(states, k);
      forall i | 0 <= i < |items| && i != k
        ensures items[i] != item
      {
        assert Tracks(i);
      }
    }

    lemma AllDistinct()
      requires Valid()
      ensures Distinct()
    {
      forall i, j | 0 <= i < j < |items|
        ensures items[i] != items[j]
      {
        assert Tracks(i) && Tracks(j);
      }
    }

    /** Takes over the new state of the item at index k. */
    ghost method Refresh(k: nat)
      requires Linked() && TrackedBut(k) && UniqueIds(states)
      requires k < |items| && items[k].attached && items[k].id == states[k].id
      modifies this`states
      ensures Valid() && states == old(states)[k := items[k].State()]
    {
      UniqueReplace(states, k, items[k].State());
      ghost var before := states;
      assert forall i :: 0 <= i < |items| && i != k ==> Tracks(i);
      label L: states := states[k := items[k].State()];
      forall i | 0 <= i < |items|
        ensures Tracks(i)
      {
        assert i != k ==> old@L(Tracks(i));
      }
    }

    method Broadcast()
      modifies this`worker
      ensures worker == Signal(old(worker))
    {
      if worker.Sleeping? {
        worker := Sleeping(worker.wake, true);
      }
    }

    method Schedule(item: WorkItem, delay: Time, now: Time)
      requires Valid() && Known(item)
      modifies this, item
      ensures Valid() && Known(item) && items == old(items)
      ensures Abs() == ScheduleStep(old(Abs()), item.id, delay, now)
    {
      clock := now;
      if item.enabled {
        ghost var k := IndexOf(item);
        item.Request(delay, now);
        Refresh(k);
        Broadcast();
      } else if item.attached {
        ghost var k := IndexOf(item);
      }
    }

    method SetInterval(item: WorkItem, interval: Time, now: Time)
      requires Valid() && Known(item)
      modifies this, item
      ensures Valid() && Known(item) && items == old(items)
      ensures Abs() == SetIntervalStep(old(Abs()), item.id, interval, now)
    {
      clock := now;
      if item.attached {
        ghost var k := IndexOf(item);
        if !item.stopping {
          item.Activate(interval, now);
          Refresh(k);
          Broadcast();
        }
      }
    }

    method Clear(item: WorkItem, now: Time)
      requires Valid() && Known(item)
      modifies this, item
      ensures Valid() && Known(item) && items == old(items)
      ensures Abs() == ClearStep(old(Abs()), item.id, now)
    {
      clock := now;
      if item.attached {
        ghost var k := IndexOf(item);
        item.ClearRequests();
        Refresh(k);
        Broadcast();
      } else {
        item.ClearRequests();
        Broadcast();
      }
    }

    /** The first region of an attach; `spawned` is whether the operating system gives a thread. */
    method Start(spawned: bool, now: Time) returns (ok: bool)
      requires Valid()
      modifies this
      ensures Valid() && items == old(items)
      ensures Abs() == StartWorkerStep(old(Abs()), spawned, now)
      ensures ok == started
    {
      clock := now;
      if started {
        return true;
      }
      exit, started := false, spawned;
      if spawned {
        worker := Idle;
      }
      ok := spawned;
    }

    /** The second region, after a successful start: puts the item at the tail. */
    method Attach(item: WorkItem, minimumInterval: Time, now: Time) returns (ok: bool)
      requires Valid() && Known(item)
      modifies this, items, item
      ensures Valid() && Known(item)
      ensures Abs() == AttachStep(old(Abs()), old(item.State()), minimumInterval, now)
      ensures ok == (item !in old(items) && !old(exit))
      ensures items == if ok then old(items) + [item] else old(items)
    {
      clock := now;
      if item.attached {
        ghost var k := IndexOf(item);
        return false;
      }
      if exit {
        return false;
      }
      AllDistinct();
      item.Enroll(minimumInterval);
      Append(item);
      forall i | 0 <= i < |states|
        ensures Tracks(i)
      {
        assert old(Tracks(i));
      }
      Enter(item);
      ok := true;
    }

    /** Walks to the end of the list and links the item there. */
    method Append(item: WorkItem)
      requires Linked() && Distinct() && item !in items
      modifies `head, `items, items`next, item`next
      ensures Linked() && items == old(items) + [item]
    {
      var last: WorkItem?, cursor := null, head;
      ghost var i := 0;
      while cursor != null
        invariant i <= |items| && cursor == NodeAt(i)
        invariant last == if i == 0 then null else items[i - 1]
        decreases |items| - i
      {
        last, cursor, i := cursor, cursor.next, i + 1;
      }
      if last == null {
        head := item;
      } else {
        last.next := item;
      }
      item.next := null;
      items := items + [item];
    }

    ghost method Enter(item: WorkItem)
      requires |items| == |states| + 1 && items[|states|] == item && item.attached
      requires UniqueIds(states) && !Has(states, item.id) && Linked()
      requires forall i :: 0 <= i < |states| ==> Tracks(i)
      modifies `states
      ensures Valid() && states == old(states) + [item.State()]
    {
      AppendUnique(states, item.State());
      label before: states := states + [item.State()];
      forall i | 0 <= i < |items|
        ensures Tracks(i)
      {
        assert i < |states| - 1 ==> old@before(Tracks(i));
      }
    }

    /** The first region of a detach: disables the item unless there is nothing to wait for. */
    method DetachBegin(item: WorkItem, onWorkerThread: bool, now: Time) returns (done: Option<bool>)
      requires Valid() && Known(item)
      modifies this, item
      ensures Valid() && Known(item) && items == old(items)
      ensures done == if item !in items then Some(true) else if onWorkerThread then Some(false) else None
      ensures Abs() == if done.None? then DetachRequestStep(old(Abs()), item.id, now) else old(Abs()).(clock := now)
    {
      clock := now;
      if !item.attached {
        return Some(true);
      }
      if onWorkerThread {
        return Some(false);
      }
      ghost var k := IndexOf(item);
      item.Disable();
      Refresh(k);
      Broadcast();
      done := None;
    }

    /** Each later region of a detach: gives up, waits on, or takes the item off the list. */
    method DetachPoll(item: WorkItem, deadline: Time, now: Time) returns (done: Option<bool>)
      requires Valid() && Known(item) && item in items && !item.enabled
      modifies this, items
      ensures Valid() && Known(item)
      ensures done == if !old(item.running) then Some(true) else if now >= deadline then Some(false) else None
      ensures Abs() == DetachRemoveStep(old(Abs()), item.id, now)
    {
      clock := now;
      ghost var k := IndexOf(item);
      if item.running {
        return if now >= deadline then Some(false) else None;
      }
      Withdraw(item, k);
      done := Some(true);
    }

    /** Walks to the item and links its neighbours. */
    method Remove(item: WorkItem, ghost k: nat)
      requires Linked() && Distinct() && k < |items| && items[k] == item
      modifies `head, `items, items`next
      ensures Linked() && items == old(items)[..k] + old(items)[k + 1..] && item.next == null
    {
      var last: WorkItem?, cursor := null, head;
      ghost var i := 0;
      while cursor != null && cursor != item
        invariant i <= k && cursor == NodeAt(i)
        invariant last == if i == 0 then null else items[i - 1]
        decreases |items| - i
      {
        last, cursor, i := cursor, cursor.next, i + 1;
      }
      if cursor == item {
        if last == null {
          head := item.next;
        } else {
          last.next := item.next;
        }
      }
      item.next := null;
      items := items[..k] + items[k + 1..];
    }

    ghost method Leave(k: nat)
      requires k < |states| == |items| + 1 && UniqueIds(states) && Linked()
      requires forall i :: 0 <= i < |items| ==>
                 items[i].State() == states[if i < k then i else i + 1] && items[i].attached
      modifies `states
      ensures Valid() && states == Drop(old(states), k)
    {
      DropUnique(states, k);
      states := Drop(states, k);
    }

    method Withdraw(item: WorkItem, ghost k: nat)
      requires Valid() && k < |items| && items[k] == item
      modifies `head, `items, `states, items
      ensures Valid() && item !in items && !item.attached && !Has(states, item.id)
      ensures states == Drop(old(states), k) && item.State() == old(item.State())
    {
      AllDistinct();
      DropUnique(states, k);
      assert Tracks(k);
      Remove(item, k);
      item.attached := false;
      forall i | 0 <= i < |items|
        ensures items[i].State() == states[if i < k then i else i + 1] && items[i].attached
      {
        assert old(Tracks(if i < k then i else i + 1));
      }
      Leave(k);
    }

    /** The head of the worker loop: starts the selected item, sleeps, or leaves. */
    method Scan(now: Time) returns (selected: Option<WorkItem>)
      requires Valid() && worker.Idle?
      modifies this, items
      ensures Valid() && items == old(items)
      ensures Abs() == ScanStep(old(Abs()), now)
      ensures selected.Some? <==> worker.Running?
      ensures selected.Some? ==> selected.value in items && worker == Running(selected.value.id)
    {
      clock := now;
      if exit {
        worker := Exited;
        return None;
      }
      var item, nextWake := Choose(now);
      if item == null {
        worker := Sleeping(nextWake, false);
        return None;
      }
      BeginSelected(item, Select(states, now).value, now);
      worker := Running(item.id);
      selected := Some(item);
    }

    method BeginSelected(item: WorkItem, ghost k: nat, now: Time)
      requires Valid() && k < |items| && items[k] == item
      modifies `states, item
      ensures Valid() && item.id == states[k].id && states == old(states)[k := Starting(old(states)[k], now)]
    {
      AllDistinct();
      ghost var j := IndexOf(item);
      item.BeginRun(now);
      Refresh(k);
    }

    method EndSelected(item: WorkItem) returns (ghost k: nat)
      requires Valid() && item in items
      modifies `states, item
      ensures Valid() && k < |items| && Position(old(states), item.id) == Some(k)
      ensures states == old(states)[k := old(states)[k].(running := false)]
    {
      k := IndexOf(item);
      item.EndRun();
      Refresh(k);
    }

    /** The scan over the list. */
    method Choose(now: Time) returns (selected: WorkItem?, nextWake: Due)
      requires Valid()
      ensures nextWake == NextWake(states)
      ensures selected == match Select(states, now) case None => null case Some(k) => items[k]
    {
      selected, nextWake := null, Never;
      var selectedDeadline := Never;
      var item := head;
      ghost var i, k := 0, None;
      while item != null
        invariant i <= |items| && item == NodeAt(i)
        invariant k == Select(states[..i], now) && nextWake == NextWake(states[..i])
        invariant selected == match k case None => null case Some(k) => items[k]
        invariant selectedDeadline == match k case None => Never case Some(k) => Effective(states[k])
        decreases |items| - i
      {
        assert states[..i + 1][..i] == states[..i] && Tracks(i);
        var due := DueOf(item);
        if Before(due, nextWake) {
          nextWake := due;
        }
        if due.At? && due.time <= now && Before(due, selectedDeadline) {
          selected, selectedDeadline, k := item, due, Some(i);
        }
        item, i := item.next, i + 1;
      }
      assert states[..|items|] == states;
    }

    /** When one item is due. */
    method DueOf(item: WorkItem) returns (due: Due)
      ensures due == Effective(item.State())
    {
      if !item.enabled {
        return Never;
      }
      due := if item.pending then At(item.deadline) else Never;
      if item.period != 0 && Before(At(item.nextPeriodic), due) {
        due := At(item.nextPeriodic);
      }
      if due.At? {
        var earliest := item.lastStart + item.minimumInterval;
        if item.lastStart != 0 && due.time < earliest {
          due := At(earliest);
        }
      }
    }

    method CountRun(elapsed: int)
      modifies this`runs, this`maxRunUs
      ensures runs == Unsigned(old(runs) + 1)
      ensures maxRunUs >= old(maxRunUs) && maxRunUs >= Unsigned(elapsed)
      ensures maxRunUs in {old(maxRunUs), Unsigned(elapsed)}
    {
      runs := Unsigned(runs + 1);
      if Unsigned(elapsed) > maxRunUs {
        maxRunUs := Unsigned(elapsed);
      }
    }

    /** The region after Run returns; `begun` is when the scan selected the item and `ended` what
        the clock said before the region. */
    method FinishRun(item: WorkItem, begun: Time, ended: Time, now: Time)
      requires Valid() && item in items && worker == Running(item.id)
      modifies this, item
      ensures Valid() && items == old(items)
      ensures Abs() == FinishRunStep(old(Abs()), now)
      ensures runs == Unsigned(old(runs) + 1)
      ensures maxRunUs >= old(maxRunUs) && maxRunUs >= Unsigned(ended - begun)
      ensures maxRunUs in {old(maxRunUs), Unsigned(ended - begun)}
    {
      clock := now;
      ghost var k := EndSelected(item);
      CountRun(ended - begun);
      worker := Idle;
      Broadcast();
    }

    /** A wait on the condition variable ends: by a broadcast, by its deadline or spuriously. */
    method Wake(now: Time)
      requires Valid() && worker.Sleeping?
      modifies this
      ensures Valid() && items == old(items)
      ensures Abs() == Apply(old(Abs()), Step.Wake, now)
    {
      worker, clock := Idle, now;
    }

    /** The first region of a shutdown: refused, nothing to do, or the worker is asked to leave. */
    method Shutdown(now: Time) returns (done: Option<bool>)
      requires Valid()
      modifies this
      ensures Valid() && items == old(items)
      ensures done == if items != [] then Some(false) else if !started then Some(true) else None
      ensures Abs() == ShutdownStep(old(Abs()), now)
    {
      clock := now;
      if head != null {
        return Some(false);
      }
      if !started {
        return Some(true);
      }
      exit := true;
      Broadcast();
      done := None;
    }

    /** The last region, when the worker has left. */
    method Join(joined: bool, now: Time) returns (ok: bool)
      requires Valid() && worker.Exited?
      modifies this
      ensures Valid() && items == old(items) && ok == joined
      ensures Abs() == JoinStep(old(Abs()), joined, now)
    {
      clock := now;
      if joined {
        started := false;
      }
      ok := joined;
    }
  }
}
