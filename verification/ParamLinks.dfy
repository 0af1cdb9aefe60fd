/** Intrusive lists: an owner points to the first object on its list and each object to the next
    one, as a parameter owner does to its children and to its parameters. */
module ParamLinks {
  import opened Options

  type Id = nat

  ghost predicate NoRepeats(s: seq<Id>) { forall i, j :: 0 <= i < j < |s| ==> s[i] != s[j] }

  /** The list without the first occurrence of x. */
  function Without(s: seq<Id>, x: Id): (r: seq<Id>)
  {
    if s == [] then [] else if s[0] == x then s[1..] else [s[0]] + Without(s[1..], x)
  }

  lemma {:induction false} WithoutMeans(s: seq<Id>, x: Id)
    requires NoRepeats(s)
    ensures NoRepeats(Without(s, x)) && forall y :: y in Without(s, x) <==> y in s && y != x
  {
    if s != [] {
      assert s == [s[0]] + s[1..];
      assert s[0] !in s[1..];
      if s[0] != x {
        WithoutMeans(s[1..], x);
      }
    }
  }

  lemma {:induction false} WithoutAt(s: seq<Id>, x: Id, i: nat)
    requires i <= |s| && (forall j :: 0 <= j < i ==> s[j] != x) && (i < |s| ==> s[i] == x)
    ensures Without(s, x) == if i < |s| then s[..i] + s[i + 1..] else s
  {
    if i == 0 {
      assert s != [] ==> s[..0] + s[1..] == s[1..];
    } else {
      WithoutAt(s[1..], x, i - 1);
      assert [s[0]] + s[1..] == s;
      if i < |s| {
        assert s[1..][i..] == s[i + 1..];
        assert [s[0]] + s[1..][..i - 1] == s[..i];
        assert s[..i] + s[i + 1..] == [s[0]] + (s[1..][..i - 1] + s[i + 1..]);
      }
    }
  }

  // ---------------------------------------------------------------------------
  // Links.
  // ---------------------------------------------------------------------------

  /** Pointer fields; None, and no entry, are null. */
  type Links = map<Id, Option<Id>>

  function Deref(links: Links, x: Id): Option<Id> { if x in links then links[x] else None }

  function Nth(s: seq<Id>, i: nat): Option<Id> { if i < |s| then Some(s[i]) else None }

  ghost predicate PointsOn(next: Links, s: seq<Id>, i: nat)
    requires i < |s|
  {
    Deref(next, s[i]) == Nth(s, i + 1)
  }

  /** Following the pointers from the head gives the list. */
  ghost predicate Chain(head: Option<Id>, next: Links, s: seq<Id>)
  {
    head == Nth(s, 0) && forall i :: 0 <= i < |s| ==> PointsOn(next, s, i)
  }

  lemma ChainPush(head: Option<Id>, next: Links, s: seq<Id>, x: Id)
    requires Chain(head, next, s) && x !in s
    ensures Chain(Some(x), next[x := head], [x] + s)
  {
    var next', s' := next[x := head], [x] + s;
    forall i | 0 <= i < |s'|
      ensures PointsOn(next', s', i)
    {
      assert 0 < i ==> PointsOn(next, s, i - 1);
    }
  }

  lemma ChainElsewhere(head: Option<Id>, next: Links, s: seq<Id>, x: Id, v: Option<Id>)
    requires Chain(head, next, s) && x !in s
    ensures Chain(head, next[x := v], s)
  {
    var next' := next[x := v];
    forall i | 0 <= i < |s|
      ensures PointsOn(next', s, i)
    {
      assert PointsOn(next, s, i);
    }
  }

  /** The neighbours of the object at index i are linked, and its own pointer is cleared. */
  function Bypass(next: Links, s: seq<Id>, i: nat): Links
    requires i < |s|
  {
    (if i == 0 then next else next[s[i - 1] := Deref(next, s[i])])[s[i] := None]
  }

  lemma ChainCut(head: Option<Id>, next: Links, s: seq<Id>, i: nat)
    requires Chain(head, next, s) && NoRepeats(s) && i < |s|
    ensures Chain(if i == 0 then Deref(next, s[0]) else head, Bypass(next, s, i), s[..i] + s[i + 1..])
  {
    var rest := s[..i] + s[i + 1..];
    assert PointsOn(next, s, i);
    forall j | 0 <= j < |rest|
      ensures PointsOn(Bypass(next, s, i), rest, j)
    {
      assert rest[j] == s[if j < i then j else j + 1];
      assert PointsOn(next, s, if j < i then j else j + 1);
    }
  }

  lemma ChainCutElsewhere(head: Option<Id>, next: Links, other: seq<Id>, s: seq<Id>, i: nat)
    requires Chain(head, next, other) && i < |s| && forall x :: x in s ==> x !in other
    ensures Chain(head, Bypass(next, s, i), other)
  {
    if 0 < i {
      ChainElsewhere(head, next, other, s[i - 1], Deref(next, s[i]));
    }
    ChainElsewhere(head, if i == 0 then next else next[s[i - 1] := Deref(next, s[i])], other, s[i], None);
  }

  // ---------------------------------------------------------------------------
  // The lists of all owners.
  // ---------------------------------------------------------------------------

  type Lists = map<Id, seq<Id>>

  /** An object is on at most one list, at most once. */
  ghost predicate OnOne(lists: Lists)
  {
    && (forall o {:trigger Once(lists, o)} :: o in lists ==> Once(lists, o))
    && (forall a, b {:trigger Apart(lists, a, b)} :: a in lists && b in lists && a != b ==> Apart(lists, a, b))
  }

  ghost predicate Once(lists: Lists, o: Id)
    requires o in lists
  {
    NoRepeats(lists[o])
  }

  ghost predicate Apart(lists: Lists, a: Id, b: Id)
    requires a in lists && b in lists
  {
    forall x :: x in lists[a] ==> x !in lists[b]
  }

  ghost predicate Chained(first: Links, next: Links, lists: Lists)
  {
    forall o {:trigger IsChained(first, next, lists, o)} :: o in lists ==> IsChained(first, next, lists, o)
  }

  ghost predicate IsChained(first: Links, next: Links, lists: Lists, o: Id)
    requires o in lists
  {
    Chain(Deref(first, o), next, lists[o])
  }

  /** A list replaced by one with no objects but its own and perhaps one that is on no list. */
  lemma ReplaceOnOne(lists: Lists, o: Id, s: seq<Id>, x: Id)
    requires OnOne(lists) && o in lists && NoRepeats(s) && (forall y :: y in s ==> y in lists[o] || y == x)
    requires forall p :: p in lists && p != o ==> x !in lists[p] || x !in s
    ensures OnOne(lists[o := s])
  {
    var lists' := lists[o := s];
    forall a | a in lists'
      ensures Once(lists', a)
    {
      assert Once(lists, a);
    }
    forall a, b | a in lists' && b in lists' && a != b
      ensures Apart(lists', a, b)
    {
      assert Apart(lists, a, b);
    }
  }

  lemma PushChained(first: Links, next: Links, lists: Lists, o: Id, x: Id)
    requires OnOne(lists) && Chained(first, next, lists) && o in lists && forall p :: p in lists ==> x !in lists[p]
    ensures OnOne(lists[o := [x] + lists[o]])
    ensures Chained(first[o := Some(x)], next[x := Deref(first, o)], lists[o := [x] + lists[o]])
  {
    var first', next', lists' := first[o := Some(x)], next[x := Deref(first, o)], lists[o := [x] + lists[o]];
    assert Once(lists, o);
    ReplaceOnOne(lists, o, [x] + lists[o], x);
    forall p | p in lists'
      ensures IsChained(first', next', lists', p)
    {
      assert IsChained(first, next, lists, p);
      if p == o {
        ChainPush(Deref(first, o), next, lists[o], x);
      } else {
        ChainElsewhere(Deref(first, p), next, lists[p], x, Deref(first, o));
      }
    }
  }

  lemma CutChained(first: Links, next: Links, lists: Lists, o: Id, i: nat)
    requires OnOne(lists) && Chained(first, next, lists) && o in lists && i < |lists[o]|
    ensures var s := lists[o];
            var lists' := lists[o := s[..i] + s[i + 1..]];
            OnOne(lists')
                && Chained(if i == 0 then first[o := Deref(next, s[0])] else first, Bypass(next, s, i), lists')
  {
    var s := lists[o];
    var first', next' := if i == 0 then first[o := Deref(next, s[0])] else first, Bypass(next, s, i);
    var lists' := lists[o := s[..i] + s[i + 1..]];
    assert Once(lists, o);
    ReplaceOnOne(lists, o, s[..i] + s[i + 1..], s[i]);
    forall p | p in lists'
      ensures IsChained(first', next', lists', p)
    {
      assert IsChained(first, next, lists, p);
      if p == o {
        ChainCut(Deref(first, o), next, s, i);
      } else {
        assert Apart(lists, o, p);
        ChainCutElsewhere(Deref(first, p), next, lists[p], s, i);
      }
    }
  }

  lemma AddChained(first: Links, next: Links, lists: Lists, o: Id)
    requires OnOne(lists) && Chained(first, next, lists) && o !in lists
    ensures OnOne(lists[o := []]) && Chained(first[o := None], next, lists[o := []])
  {
    var first', lists' := first[o := None], lists[o := []];
    forall a | a in lists'
      ensures Once(lists', a) && IsChained(first', next, lists', a)
    {
      assert a != o ==> Once(lists, a) && IsChained(first, next, lists, a);
    }
    forall a, b | a in lists' && b in lists' && a != b
      ensures Apart(lists', a, b)
    {
      assert a != o && b != o ==> Apart(lists, a, b);
    }
  }

  lemma DropChained(first: Links, next: Links, lists: Lists, o: Id)
    requires OnOne(lists) && Chained(first, next, lists)
    ensures OnOne(lists - {o}) && Chained(first, next, lists - {o})
  {
    var lists' := lists - {o};
    forall a | a in lists'
      ensures Once(lists', a) && IsChained(first, next, lists', a)
    {
      assert Once(lists, a) && IsChained(first, next, lists, a);
    }
    forall a, b | a in lists' && b in lists' && a != b
      ensures Apart(lists', a, b)
    {
      assert Apart(lists, a, b);
    }
  }

  class LinkTable {
    var first: Links
    var next: Links
    /** The lists that the pointers stand for. */
    ghost var lists: Lists

    ghost predicate Valid()
      reads this
    {
      OnOne(lists) && Chained(first, next, lists)
    }

    constructor ()
      ensures Valid() && lists == map[]
    {
      first, next, lists := map[], map[], map[];
    }

    method AddOwner(o: Id)
      requires Valid() && o !in lists
      modifies this
      ensures Valid() && lists == old(lists)[o := []]
    {
      AddChained(first, next, lists, o);
      first, lists := first[o := None], lists[o := []];
    }

    ghost method DropOwner(o: Id)
      requires Valid()
      modifies this`lists
      ensures Valid() && lists == old(lists) - {o}
    {
      DropChained(first, next, lists, o);
      lists := lists - {o};
    }

    /** Links an object before all others on the owner's list. */
    method Insert(o: Id, x: Id)
      requires Valid() && o in lists && forall p :: p in lists ==> x !in lists[p]
      modifies this
      ensures Valid() && lists == old(lists)[o := [x] + old(lists)[o]]
    {
      PushChained(first, next, lists, o, x);
      next := next[x := Deref(first, o)];
      first := first[o := Some(x)];
      lists := lists[o := [x] + lists[o]];
    }

    /** Walks to the object and links its neighbours; nothing if it is not on the list. */
    method Remove(o: Id, x: Id)
      requires Valid() && o in lists
      modifies this
      ensures Valid() && lists == old(lists)[o := Without(old(lists)[o], x)]
    {
      ghost var s, i := lists[o], 0;
      assert IsChained(first, next, lists, o);
      var last: Option<Id>, current := None, Deref(first, o);
      while current.Some? && current.value != x
        invariant i <= |s| && current == Nth(s, i) && last == if i == 0 then None else Some(s[i - 1])
        invariant forall j :: 0 <= j < i ==> s[j] != x
        decreases |s| - i
      {
        assert PointsOn(next, s, i);
        last, current, i := current, Deref(next, current.value), i + 1;
      }
      WithoutAt(s, x, i);
      if current.Some? {
        CutChained(first, next, lists, o, i);
        if last.None? {
          first := first[o := Deref(next, x)];
        } else {
          next := next[last.value := Deref(next, x)];
        }
        next := next[x := None];
        lists := lists[o := s[..i] + s[i + 1..]];
      }
    }
  }
}
