/** Every run of saves, failures, power losses and reboots of the parameter storage. */
module FlashRuns {
  import opened Options
  import Bits
  import opened Counters
  import opened FlashPages
  import opened FlashStorage

  datatype Try = Try(snapshot: Snapshot, outcome: Outcome)

  /** The pages and the sequence number the owner holds; and, since power-up, the snapshot last
      acknowledged, those attempted since and the latest of them, the snapshot last acknowledged
      or loaded, and the tries since that. */
  datatype Machine = Machine(
    pages: Pages, sequence: nat,
    acked: Option<Snapshot>, attempted: set<Snapshot>, latest: Option<Snapshot>,
    known: Option<Snapshot>, tries: seq<Try>)

  const START := Machine(Pages(None, None, None), 0, None, {}, None, None, [])

  /** A power loss is a save that fails followed by a reboot. */
  datatype Step = Save(count: nat, payload: seq<Bits.Byte>, outcome: Outcome) | Reload | Reboot

  function NextSnapshot(m: Machine, count: nat, payload: seq<Bits.Byte>): Snapshot
  {
    Snapshot(Increment(m.sequence), count, payload)
  }

  function Saving(m: Machine, s: Snapshot, o: Outcome): Machine
  {
    if o == Written(true) then Machine(Saved(m.pages, s, o), s.sequence, Some(s), {}, None, Some(s), [])
    else m.(pages := Saved(m.pages, s, o), attempted := m.attempted + {s}, latest := Some(s),
            tries := m.tries + [Try(s, o)])
  }

  function Reloading(m: Machine): Machine
  {
    var r := m.pages.Current();
    if r.Some? then m.(pages := Loaded(m.pages), sequence := r.value.sequence, known := r, tries := [])
    else m.(pages := Loaded(m.pages))
  }

  /** A rebooted owner starts from sequence number zero, with no active page. */
  function Apply(m: Machine, step: Step): Machine
  {
    match step
    case Save(count, payload, outcome) => Saving(m, NextSnapshot(m, count, payload), outcome)
    case Reload => Reloading(m)
    case Reboot => Reloading(m.(pages := m.pages.(active := None), sequence := 0))
  }

  function Run(m: Machine, trace: seq<Step>): Machine
    decreases trace
  {
    if trace == [] then m else Run(Apply(m, trace[0]), trace[1..])
  }

  function Last(tries: seq<Try>): Try
    requires tries != []
  {
    tries[|tries| - 1]
  }

  /** The snapshot of the latest try that was completed but not acknowledged, unless a later
      try has wiped it. */
  function Survivor(tries: seq<Try>): Option<Snapshot>
  {
    if tries == [] then None
    else
      var t := tries[|tries| - 1];
      match t.outcome
      case Kept => Survivor(tries[..|tries| - 1])
      case Wiped => None
      case Written(_) => Some(t.snapshot)
  }

  lemma SurvivorSnoc(tries: seq<Try>, t: Try)
    ensures Survivor(tries + [t]) ==
            match t.outcome { case Kept => Survivor(tries) case Wiped => None case Written(_) => Some(t.snapshot) }
  {
    assert (tries + [t])[..|tries|] == tries;
  }

  /** The page that the next save will not touch holds what is known, the other one the
      survivor, or else nothing or the snapshot before. */
  ghost predicate Agree(m: Machine)
  {
    match m.pages.active
    case None =>
      m.known.None? && m.sequence == 0 && m.pages.b.None? && m.pages.a == Survivor(m.tries)
    case Some(x) =>
      && m.known.Some? && m.pages.At(x) == m.known && m.sequence == m.known.value.sequence
      && var other := m.pages.At(Other(x));
         if Survivor(m.tries).Some? then other == Survivor(m.tries)
         else other.None? || Increment(other.value.sequence) == m.sequence
  }

  ghost predicate Inv(m: Machine)
  {
    && Agree(m)
    && m.sequence < 0x1_0000_0000
    && (Survivor(m.tries).Some? ==>
      Survivor(m.tries).value.sequence == Increment(m.sequence) && Survivor(m.tries).value in m.attempted)
    && (m.tries != [] ==>
      m.latest == Some(Last(m.tries).snapshot) && Last(m.tries).snapshot.sequence == Increment(m.sequence))
    && (m.acked.Some? ==> m.known.Some?)
    && (m.known.Some? ==> m.known == m.acked || m.known.value in m.attempted)
    && (m.pages.a.Some? ==> m.pages.a.value.sequence < 0x1_0000_0000)
    && (m.pages.b.Some? ==> m.pages.b.value.sequence < 0x1_0000_0000)
  }

  lemma NewerNext(n: nat)
    requires n < 0x1_0000_0000
    ensures SequenceNewer(Increment(n), n) && !SequenceNewer(n, Increment(n))
  {
  }

  /** Generally, a counter k steps ahead is newer exactly while k is not zero and less than half of
      what a counter can say. */
  lemma NewerAhead(n: nat, k: nat)
    requires n < 0x1_0000_0000 && k < 0x1_0000_0000
    ensures SequenceNewer(Wrap(n + k), n) <==> 0 < k < 0x8000_0000
  {
    if n + k >= 0x1_0000_0000 {
      assert Wrap(n + k) == n + k - 0x1_0000_0000;
    }
  }

  /** What a load returns, by the invariant. */
  lemma CurrentIs(m: Machine)
    requires Inv(m)
    ensures m.pages.Current() == if Survivor(m.tries).Some? then Survivor(m.tries) else m.known
  {
    if m.pages.active.Some? {
      var other := m.pages.At(Other(m.pages.active.value));
      NewerNext(m.sequence);
      if other.Some? {
        NewerNext(other.value.sequence);
      }
    }
  }

  lemma SavingKeeps(m: Machine, s: Snapshot, o: Outcome)
    requires Inv(m) && s.sequence == Increment(m.sequence)
    ensures Inv(Saving(m, s, o))
  {
    SurvivorSnoc(m.tries, Try(s, o));
  }

  lemma ReloadingKeeps(m: Machine)
    requires Inv(m)
    ensures Inv(Reloading(m))
  {
    CurrentIs(m);
  }

  /** Forgetting the active page and the sequence number makes no difference to a load. */
  lemma RebootKeeps(m: Machine)
    requires Inv(m)
    ensures Inv(Apply(m, Reboot))
  {
    CurrentIs(m);
    ReloadingKeeps(m);
    assert m.pages.Current().Some? ==> Apply(m, Reboot) == Reloading(m);
  }

  lemma {:induction false} RunKeepsInv(m: Machine, trace: seq<Step>)
    requires Inv(m)
    ensures Inv(Run(m, trace))
    decreases trace
  {
    if trace != [] {
      match trace[0] {
        case Save(count, payload, outcome) => SavingKeeps(m, NextSnapshot(m, count, payload), outcome);
        case Reload => ReloadingKeeps(m);
        case Reboot => RebootKeeps(m);
      }
      RunKeepsInv(Apply(m, trace[0]), trace[1..]);
    }
  }

  /** After any run a load returns exactly this: the latest completed try that has not been
      wiped since, and if there is none, what was last acknowledged or loaded. */
  lemma LoadReturnsSurvivor(trace: seq<Step>)
    ensures var m := Run(START, trace);
            m.pages.Current() == if Survivor(m.tries).Some? then Survivor(m.tries) else m.known
  {
    RunKeepsInv(START, trace);
    CurrentIs(Run(START, trace));
  }

  /** So it is the last acknowledged snapshot or one attempted since, never a mixture; and
      once a save has been acknowledged it is never nothing. */
  lemma PowerLossSafe(trace: seq<Step>)
    ensures var m := Run(START, trace);
            var r := m.pages.Current();
            && (r.Some? ==> r == m.acked || r.value in m.attempted)
            && (r.None? ==> m.acked.None?)
  {
    RunKeepsInv(START, trace);
    CurrentIs(Run(START, trace));
  }

  /** When both pages are valid their sequence numbers are neighbours, also at the wrap, and
      the later one is loaded. */
  lemma BothValid(trace: seq<Step>)
    requires var m := Run(START, trace); m.pages.a.Some? && m.pages.b.Some?
    ensures var m := Run(START, trace);
            var a, b := m.pages.a.value.sequence, m.pages.b.value.sequence;
            || (Increment(a) == b && m.pages.Current() == m.pages.b)
            || (Increment(b) == a && m.pages.Current() == m.pages.a)
  {
    RunKeepsInv(START, trace);
    var m := Run(START, trace);
    NewerNext(m.pages.a.value.sequence);
    NewerNext(m.pages.b.value.sequence);
  }

  /** The narrower promise, the last known snapshot or the one just being attempted, holds
      exactly when the attempt got past its erase or found no completed try on its page. */
  lemma LastAttemptOnly(trace: seq<Step>)
    requires Run(START, trace).tries != []
    ensures var m := Run(START, trace);
            var n := |m.tries| - 1;
            var stale := Survivor(m.tries[..n]);
            (m.pages.Current() == m.known || m.pages.Current() == Some(m.tries[n].snapshot))
            <==> (m.tries[n].outcome != Kept || stale.None? || stale == Some(m.tries[n].snapshot))
  {
    RunKeepsInv(START, trace);
    CurrentIs(Run(START, trace));
  }

  /** The promise without what was loaded in between, the last acknowledged snapshot or the
      last attempted one, holds exactly in these cases: it also fails once a reboot has loaded
      an earlier unacknowledged try and nothing has been completed since. */
  ghost predicate Promised(m: Machine)
  {
    if m.tries == [] then m.known == m.acked || m.known == m.latest
    else
      var stale := Survivor(m.tries[..|m.tries| - 1]);
      match Last(m.tries).outcome
      case Written(_) => true
      case Wiped => m.known == m.acked
      case Kept => if stale.None? then m.known == m.acked else stale == m.latest || stale == m.acked
  }

  ghost predicate LoadsAckedOrLatest(m: Machine)
  {
    m.pages.Current() == m.acked || (m.latest.Some? && m.pages.Current() == m.latest)
  }

  lemma PromisedMeans(m: Machine)
    requires Inv(m)
    ensures LoadsAckedOrLatest(m) <==> Promised(m)
  {
    CurrentIs(m);
  }

  /** A load neither breaks the promise nor restores it: what is loaded stays what is loaded. */
  lemma LastAckedOrAttempted(trace: seq<Step>)
    ensures var m := Run(START, trace);
            && (LoadsAckedOrLatest(m) <==> Promised(m))
            && (Promised(Apply(m, Reload)) <==> Promised(m))
            && (Promised(Apply(m, Reboot)) <==> Promised(m))
  {
    RunKeepsInv(START, trace);
    var m := Run(START, trace);
    PromisedMeans(m);
    LoadKeepsCurrent(m);
    PromisedMeans(Apply(m, Reload));
    PromisedMeans(Apply(m, Reboot));
  }

  lemma LoadKeepsCurrent(m: Machine)
    requires Inv(m)
    ensures forall step :: step in {Reload, Reboot} ==>
              Inv(Apply(m, step)) && Apply(m, step).pages.Current() == m.pages.Current()
              && Apply(m, step).acked == m.acked && Apply(m, step).latest == m.latest
  {
    CurrentIs(m);
    ReloadingKeeps(m);
    RebootKeeps(m);
    CurrentIs(Apply(m, Reload));
    CurrentIs(Apply(m, Reboot));
  }

  function Interrupted(image: seq<Bits.Byte>): seq<Step>
  {
    [Save(0, [], Written(true)), Save(1, image, Written(false)), Save(2, image + image, Kept)]
  }

  /** It can fail: a save that completed but was reported failed comes back when the erase of
      the next one is interrupted. */
  lemma EarlierAttemptReturns(image: seq<Bits.Byte>)
    requires |image| == 24
    ensures var m := Run(START, Interrupted(image));
            && m.acked == Some(Snapshot(1, 0, []))
            && m.tries == [Try(Snapshot(2, 1, image), Written(false)), Try(Snapshot(2, 2, image + image), Kept)]
            && m.pages.Current() == Some(Snapshot(2, 1, image))
  {
    var steps := Interrupted(image);
    var m1 := Apply(START, steps[0]);
    var m2 := Apply(m1, steps[1]);
    var m3 := Apply(m2, steps[2]);
    assert steps[1..] == [steps[1], steps[2]] && steps[1..][1..] == [steps[2]];
    assert Run(m2, [steps[2]]) == Run(m3, []);
  }
}
