/** A topic: the latest message, a 32-bit generation, and eight callback slots. Its regions do to
    it what the state machine in Lifecycle says. */
module Orb {
  import opened Counters
  import opened Options
  import opened Scheduler
  import Lifecycle

  /** The exact condition for a reader to miss data: it is behind by a multiple of 2^32. */
  lemma MissesOnlyWholeWraps(read: nat, published: nat)
    requires read <= published
    ensures Wrap(read) == Wrap(published) <==> (published - read) % 0x1_0000_0000 == 0
  {
  }

  function Members(ids: seq<Id>): set<Id> { set id | id in ids }

  class Topic<Message(0)> {
    var message: Message
    var generation: nat
    var advertised: bool
    const callbacks: array<Option<Id>>
    /** How often the topic has been published. */
    ghost var published: nat
    /** The publishers between their two regions, and the calls the one in the second has yet to
        make. */
    ghost var stored: nat
    ghost var notifying: Option<set<Id>>

    ghost predicate Valid()
      reads this, callbacks
    {
      && callbacks.Length == 8
      && generation == Wrap(published)
      && advertised == (published > 0)
      && NoRepeats()
    }

    /** No callback is in two slots. */
    ghost predicate NoRepeats()
      reads callbacks
    {
      forall i, j :: 0 <= i < j < callbacks.Length && callbacks[i].Some? ==> callbacks[i] != callbacks[j]
    }

    ghost predicate Registered(id: Id)
      reads callbacks
    {
      exists i :: 0 <= i < callbacks.Length && callbacks[i] == Some(id)
    }

    ghost function Ids(): set<Id>
      reads callbacks
    {
      set i | 0 <= i < callbacks.Length && callbacks[i].Some? :: callbacks[i].value
    }

    ghost function Abs(): Lifecycle.Topic
      reads this, callbacks
    {
      Lifecycle.Topic(published, Ids(), stored, notifying)
    }

    ghost predicate Full()
      reads callbacks
    {
      forall i :: 0 <= i < callbacks.Length ==> callbacks[i].Some?
    }

    constructor (initial: Message)
      ensures Valid() && fresh(callbacks) && Abs() == Lifecycle.Topic(0, {}, 0, None) && message == initial
    {
      message, generation, advertised, published, stored, notifying := initial, 0, false, 0, 0, None;
      callbacks := new Option<Id>[8](_ => None);
    }

    /** The region under the data lock. */
    method Store(m: Message)
      requires Valid()
      modifies this
      ensures Valid() && message == m && Abs() == Lifecycle.Stored(old(Abs()))
      ensures published == old(published) + 1 && stored == old(stored) + 1 && Ids() == old(Ids())
    {
      message := m;
      WrapNext(published);
      generation := Increment(generation);
      advertised := true;
      published, stored := published + 1, stored + 1;
    }

    /** The region under the callback lock: every registered callback is called once. */
    method Notify() returns (called: seq<Id>)
      requires Valid() && stored > 0 && notifying.None?
      modifies this`stored, this`notifying
      ensures Valid() && forall i, j :: 0 <= i < j < |called| ==> called[i] != called[j]
      ensures Lifecycle.Begun(old(Abs())).notifying == Some(Members(called))
      ensures Abs() == Lifecycle.Ended(Lifecycle.Begun(old(Abs())).(notifying := Some({})))
    {
      called := [];
      stored, notifying := stored - 1, Some(Ids());
      assert Ids() - Members(called) == Ids();
      for i := 0 to 8
        invariant Valid() && stored == old(stored) - 1 && notifying == Some(Ids() - Members(called))
        invariant forall id :: id in called <==> exists k :: 0 <= k < i && callbacks[k] == Some(id)
        invariant forall k, l :: 0 <= k < l < |called| ==> called[k] != called[l]
      {
        if callbacks[i].Some? {
          var id := callbacks[i].value;
          assert Lifecycle.IsCalling(Abs(), id);
          notifying := Lifecycle.Called(Abs(), id).notifying;
          assert Ids() - Members(called) - {id} == Ids() - Members(called + [id]);
          called := called + [id];
        }
      }
      assert Members(called) == Ids();
      notifying := None;
    }

    method RegisterCallback(id: Id) returns (ok: bool)
      requires Valid()
      modifies callbacks
      ensures Valid() && (ok <==> old(Registered(id)) || !old(Full()))
      ensures Abs() == if ok then Lifecycle.Register(old(Abs()), id) else old(Abs())
    {
      for i := 0 to 8
        invariant forall k :: 0 <= k < i ==> callbacks[k] != Some(id)
      {
        if callbacks[i] == Some(id) {
          return true;
        }
      }
      for i := 0 to 8
        invariant forall k :: 0 <= k < i ==> callbacks[k].Some?
        invariant callbacks[..] == old(callbacks[..])
      {
        if callbacks[i].None? {
          callbacks[i] := Some(id);
          assert forall k :: 0 <= k < 8 && k != i ==> callbacks[k] == old(callbacks[k]);
          assert callbacks[i] == Some(id);
          return true;
        }
      }
      ok := false;
    }

    method UnregisterCallback(id: Id)
      requires Valid()
      modifies callbacks
      ensures Valid() && Abs() == Lifecycle.Unregister(old(Abs()), id)
    {
      for i := 0 to 8
        invariant forall k :: 0 <= k < 8 ==>
                    callbacks[k] == if k < i && old(callbacks[k]) == Some(id) then None else old(callbacks[k])
      {
        if callbacks[i] == Some(id) {
          callbacks[i] := None;
        }
      }
      forall other
        ensures Registered(other) <==> old(Registered(other)) && other != id
      {
        if old(Registered(other)) && other != id {
          var k :| 0 <= k < 8 && old(callbacks[k]) == Some(other);
          assert callbacks[k] == Some(other);
        }
      }
    }

    /** A read by a subscriber that last read after `read` publications. */
    method Update(subscriber: nat, ghost read: nat) returns (data: Option<Message>, generation': nat)
      requires Valid() && subscriber == Wrap(read) && read <= published < read + 0x1_0000_0000
      ensures data == if read < published then Some(message) else None
      ensures generation' == Wrap(published)
    {
      WrapTells(read, published);
      if !advertised || subscriber == generation {
        return None, subscriber;
      }
      data, generation' := Some(message), generation;
    }
  }
}
