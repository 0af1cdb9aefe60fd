/** The tree of parameter owners. Nodes are linked to their parents and parameters to their
    owners; an update reaches every parameter below a node exactly once. */
module ModuleParams {
  import opened Options
  import opened ParamLinks

  /** Children and parameters are in list order, the last one added first. */
  datatype Node = Node(parent: Option<Id>, children: seq<Id>, params: seq<Id>)

  type Forest = map<Id, Node>

  /** A node is on exactly its parent's list, exactly once. */
  ghost predicate Linked(f: Forest)
  {
    && (forall id, c :: id in f && c in f[id].children ==> c in f && f[c].parent == Some(id))
    && (forall c :: c in f && f[c].parent.Some? ==> f[c].parent.value in f && c in f[f[c].parent.value].children)
    && (forall id :: id in f ==> NoRepeats(f[id].children))
  }

  /** A parameter is on at most one list, at most once. */
  ghost predicate Owned(f: Forest)
  {
    && (forall id :: id in f ==> NoRepeats(f[id].params))
    && (forall a, b, p :: a in f && b in f && p in f[a].params && p in f[b].params ==> a == b)
  }

  /** Ranks grow towards the root, so there is no cycle. */
  ghost predicate Ranked(f: Forest, rank: map<Id, nat>)
  {
    && rank.Keys == f.Keys
    && forall c :: c in f && f[c].parent.Some? && f[c].parent.value in f ==> rank[c] < rank[f[c].parent.value]
  }

  ghost predicate Sound(f: Forest, rank: map<Id, nat>) { Linked(f) && Owned(f) && Ranked(f, rank) }

  // ---------------------------------------------------------------------------
  // Linking.
  // ---------------------------------------------------------------------------

  function Push(f: Forest, id: Id, parent: Id): Forest
    requires id in f && parent in f && id != parent
  {
    f[parent := f[parent].(children := [id] + f[parent].children)][id := f[id].(parent := Some(parent))]
  }

  /** The node is not its own parent. */
  predicate CanPull(f: Forest, id: Id)
    requires id in f
  {
    f[id].parent.Some? ==> f[id].parent.value in f && f[id].parent.value != id
  }

  function Pull(f: Forest, id: Id): Forest
    requires id in f && CanPull(f, id)
  {
    if f[id].parent.None? then f
    else
      var p := f[id].parent.value;
      f[p := f[p].(children := Without(f[p].children, id))][id := f[id].(parent := None)]
  }

  /** Three conditions that make up Linked and Owned, one node or pair at a time. */
  ghost predicate ChildrenPoint(f: Forest, id: Id)
    requires id in f
  {
    NoRepeats(f[id].children) && forall c :: c in f[id].children ==> c in f && f[c].parent == Some(id)
  }

  ghost predicate IsListed(f: Forest, c: Id)
    requires c in f
  {
    f[c].parent.Some? ==> f[c].parent.value in f && c in f[f[c].parent.value].children
  }

  lemma LinkedBy(f: Forest)
    requires forall id :: id in f ==> ChildrenPoint(f, id) && IsListed(f, id)
    ensures Linked(f)
  {
    forall id, c | id in f && c in f[id].children
      ensures c in f && f[c].parent == Some(id)
    {
      assert ChildrenPoint(f, id);
    }
    forall c | c in f && f[c].parent.Some?
      ensures f[c].parent.value in f && c in f[f[c].parent.value].children
    {
      assert IsListed(f, c);
    }
    forall id | id in f
      ensures NoRepeats(f[id].children)
    {
      assert ChildrenPoint(f, id);
    }
  }

  ghost predicate SameParams(f: Forest, g: Forest)
  {
    g.Keys == f.Keys && forall id :: id in f ==> g[id].params == f[id].params
  }

  lemma OwnedBy(f: Forest, g: Forest)
    requires Owned(f) && SameParams(f, g)
    ensures Owned(g)
  {
  }

  lemma PushChildren(f: Forest, id: Id, parent: Id, x: Id)
    requires Linked(f) && id in f && parent in f && id != parent && f[id].parent.None? && x in f
    ensures ChildrenPoint(Push(f, id, parent), x)
  {
    var g := Push(f, id, parent);
    assert id !in f[parent].children;
    assert g[x].children == if x == parent then [id] + f[parent].children else f[x].children;
    forall c | c in g[x].children
      ensures c in g && g[c].parent == Some(x)
    {
      assert c == id || c in f[x].children;
    }
  }

  lemma PushListed(f: Forest, id: Id, parent: Id, x: Id)
    requires Linked(f) && id in f && parent in f && id != parent && f[id].parent.None? && x in f
    ensures IsListed(Push(f, id, parent), x)
  {
    var g := Push(f, id, parent);
    assert g[parent].children == [id] + f[parent].children;
    assert g[x].parent == if x == id then Some(parent) else f[x].parent;
  }

  lemma PushLinked(f: Forest, id: Id, parent: Id)
    requires Linked(f) && id in f && parent in f && id != parent && f[id].parent.None?
    ensures Linked(Push(f, id, parent)) && SameParams(f, Push(f, id, parent))
  {
    var g := Push(f, id, parent);
    forall x | x in g
      ensures ChildrenPoint(g, x) && IsListed(g, x)
    {
      PushChildren(f, id, parent, x);
      PushListed(f, id, parent, x);
    }
    LinkedBy(g);
  }

  lemma PullChildren(f: Forest, id: Id, x: Id)
    requires Linked(f) && id in f && CanPull(f, id) && f[id].parent.Some? && x in f
    ensures ChildrenPoint(Pull(f, id), x)
  {
    var g, p := Pull(f, id), f[id].parent.value;
    WithoutMeans(f[p].children, id);
    assert g[x].children == if x == p then Without(f[p].children, id) else f[x].children;
    forall c | c in g[x].children
      ensures c in g && g[c].parent == Some(x)
    {
      assert c in f[x].children && c != id;
    }
  }

  lemma PullListed(f: Forest, id: Id, x: Id)
    requires Linked(f) && id in f && CanPull(f, id) && f[id].parent.Some? && x in f
    ensures IsListed(Pull(f, id), x)
  {
    var g, p := Pull(f, id), f[id].parent.value;
    WithoutMeans(f[p].children, id);
    assert g[x].parent == if x == id then None else f[x].parent;
  }

  lemma PullLinked(f: Forest, id: Id)
    requires Linked(f) && id in f && CanPull(f, id)
    ensures Linked(Pull(f, id)) && SameParams(f, Pull(f, id)) && Pull(f, id)[id].parent.None?
  {
    if f[id].parent.Some? {
      var g := Pull(f, id);
      forall x | x in g
        ensures ChildrenPoint(g, x) && IsListed(g, x)
      {
        PullChildren(f, id, x);
        PullListed(f, id, x);
      }
      LinkedBy(g);
    }
  }

  /** A set of nodes with all their ancestors. */
  ghost predicate UpwardClosed(f: Forest, up: set<Id>)
  {
    forall x :: x in up ==> x in f && (f[x].parent.Some? ==> f[x].parent.value in up)
  }

  /** Ranks for the tree after a node has moved below another that is not below it. */
  function Reranked(rank: map<Id, nat>, id: Id, up: set<Id>): (r: map<Id, nat>)
    requires id in rank
    ensures r.Keys == rank.Keys
  {
    map x | x in rank :: if x in up then rank[x] + rank[id] + 1 else rank[x]
  }

  lemma PushRanked(f: Forest, rank: map<Id, nat>, id: Id, parent: Id, up: set<Id>)
    requires Linked(f) && Ranked(f, rank) && id in f && parent in f && f[id].parent.None?
    requires UpwardClosed(f, up) && parent in up && id !in up
    ensures Ranked(Push(f, id, parent), Reranked(rank, id, up))
  {
  }

  lemma PullRanked(f: Forest, rank: map<Id, nat>, id: Id)
    requires Linked(f) && Ranked(f, rank) && id in f
    ensures CanPull(f, id) && Ranked(Pull(f, id), rank)
  {
  }

  lemma PushSound(f: Forest, rank: map<Id, nat>, id: Id, parent: Id, up: set<Id>)
    requires Sound(f, rank) && id in f && parent in f && f[id].parent.None?
    requires UpwardClosed(f, up) && parent in up && id !in up
    ensures Sound(Push(f, id, parent), Reranked(rank, id, up))
  {
    PushLinked(f, id, parent);
    PushRanked(f, rank, id, parent, up);
    OwnedBy(f, Push(f, id, parent));
  }

  lemma PullSound(f: Forest, rank: map<Id, nat>, id: Id)
    requires Sound(f, rank) && id in f
    ensures CanPull(f, id) && Sound(Pull(f, id), rank)
    ensures Pull(f, id).Keys == f.Keys && Pull(f, id)[id].parent.None?
  {
    PullRanked(f, rank, id);
    PullLinked(f, id);
    OwnedBy(f, Pull(f, id));
  }

  lemma PullUpward(f: Forest, id: Id, up: set<Id>)
    requires UpwardClosed(f, up) && id in f && CanPull(f, id) && id !in up
    ensures UpwardClosed(Pull(f, id), up)
  {
  }

  // ---------------------------------------------------------------------------
  // Updating.
  // ---------------------------------------------------------------------------

  datatype Event = Param(param: Id) | Impl(node: Id)

  function ParamEvents(params: seq<Id>): seq<Event>
  {
    if params == [] then [] else ParamEvents(params[..|params| - 1]) + [Param(params[|params| - 1])]
  }

  function NodeEvents(f: Forest, id: Id): seq<Event>
    requires id in f
  {
    ParamEvents(f[id].params) + [Impl(id)]
  }

  ghost predicate AllWork(events: seq<Event>, works: Event -> bool) { forall e :: e in events ==> works(e) }

  /** What an update of a node does, in order: its parameters, its own hook, its children. */
  ghost function Trace(f: Forest, rank: map<Id, nat>, id: Id): seq<Event>
    requires Linked(f) && Ranked(f, rank) && id in f
    decreases rank[id], 1, 0
  {
    NodeEvents(f, id) + TraceAll(f, rank, id, f[id].children)
  }

  ghost function TraceAll(f: Forest, rank: map<Id, nat>, id: Id, children: seq<Id>): seq<Event>
    requires Linked(f) && Ranked(f, rank) && id in f
    requires forall c :: c in children ==> c in f[id].children
    decreases rank[id], 0, |children|
  {
    if children == [] then []
    else
      var n := |children| - 1;
      assert children[n] in f[id].children;
      TraceAll(f, rank, id, children[..n]) + Trace(f, rank, children[n])
  }

  ghost function Below(f: Forest, rank: map<Id, nat>, id: Id): set<Id>
    requires Linked(f) && Ranked(f, rank) && id in f
    decreases rank[id], 1, 0
  {
    {id} + BelowAll(f, rank, id, f[id].children)
  }

  ghost function BelowAll(f: Forest, rank: map<Id, nat>, id: Id, children: seq<Id>): set<Id>
    requires Linked(f) && Ranked(f, rank) && id in f
    requires forall c :: c in children ==> c in f[id].children
    decreases rank[id], 0, |children|
  {
    if children == [] then {}
    else
      var n := |children| - 1;
      assert children[n] in f[id].children;
      BelowAll(f, rank, id, children[..n]) + Below(f, rank, children[n])
  }

  /** A node below another is that one or a child of one that is below it. */
  lemma {:induction false} BelowClimbs(f: Forest, rank: map<Id, nat>, id: Id, x: Id)
    requires Linked(f) && Ranked(f, rank) && id in f && x in Below(f, rank, id)
    ensures x in f && rank[x] <= rank[id]
    ensures x == id || (rank[x] < rank[id] && f[x].parent.Some? && f[x].parent.value in Below(f, rank, id))
    decreases rank[id], 1, 0
  {
    if x != id {
      BelowAllClimbs(f, rank, id, f[id].children, x);
    }
  }

  lemma {:induction false} BelowAllClimbs(f: Forest, rank: map<Id, nat>, id: Id, children: seq<Id>, x: Id)
    requires Linked(f) && Ranked(f, rank) && id in f
    requires forall c :: c in children ==> c in f[id].children
    requires x in BelowAll(f, rank, id, children)
    ensures x in f && rank[x] < rank[id] && f[x].parent.Some?
    ensures f[x].parent.value == id || f[x].parent.value in BelowAll(f, rank, id, children)
    decreases rank[id], 0, |children|
  {
    var n := |children| - 1;
    assert children[n] in f[id].children;
    if x in Below(f, rank, children[n]) {
      BelowClimbs(f, rank, children[n], x);
    } else {
      BelowAllClimbs(f, rank, id, children[..n], x);
    }
  }

  function Gap(rank: map<Id, nat>, c: Id, x: Id): nat
  {
    if c in rank && x in rank && rank[x] <= rank[c] then rank[c] - rank[x] else 0
  }

  /** Different children have nothing below them in common. */
  lemma {:induction false} SiblingsDisjoint(f: Forest, rank: map<Id, nat>, c: Id, d: Id, x: Id)
    requires Linked(f) && Ranked(f, rank) && c in f && d in f && c != d
    requires f[c].parent.Some? && f[c].parent == f[d].parent
    requires x in Below(f, rank, c)
    ensures x !in Below(f, rank, d)
    decreases Gap(rank, c, x)
  {
    BelowClimbs(f, rank, c, x);
    if x in Below(f, rank, d) {
      BelowClimbs(f, rank, d, x);
      if x != c && x != d {
        BelowClimbs(f, rank, c, f[x].parent.value);
        SiblingsDisjoint(f, rank, c, d, f[x].parent.value);
      } else if x == c {
        BelowClimbs(f, rank, d, f[x].parent.value);
      } else {
        BelowClimbs(f, rank, c, f[x].parent.value);
      }
    }
  }

  function Count(trace: seq<Event>, e: Event): nat
  {
    if trace == [] then 0 else Count(trace[..|trace| - 1], e) + if trace[|trace| - 1] == e then 1 else 0
  }

  lemma {:induction false} CountAppend(a: seq<Event>, b: seq<Event>, e: Event)
    ensures Count(a + b, e) == Count(a, e) + Count(b, e)
  {
    if b == [] {
      assert a + b == a;
    } else {
      var n := |b| - 1;
      assert (a + b)[..|a| + n] == a + b[..n];
      CountAppend(a, b[..n], e);
    }
  }

  lemma {:induction false} CountParams(params: seq<Id>, p: Id)
    requires NoRepeats(params)
    ensures Count(ParamEvents(params), Param(p)) == if p in params then 1 else 0
  {
    if params != [] {
      var n := |params| - 1;
      CountParams(params[..n], p);
      CountAppend(ParamEvents(params[..n]), [Param(params[n])], Param(p));
      assert params == params[..n] + [params[n]];
      CountOne(Param(params[n]), Param(p));
    }
  }

  lemma CountOne(a: Event, e: Event)
    ensures Count([a], e) == if a == e then 1 else 0
  {
    assert [a][..0] == [];
  }

  /** The parameter belongs to one of the nodes. */
  ghost predicate OwnedIn(f: Forest, nodes: set<Id>, p: Id)
  {
    exists n :: n in nodes && n in f && p in f[n].params
  }

  /** An update reaches each parameter below the node exactly once, and no other. */
  lemma {:induction false} UpdatesOnce(f: Forest, rank: map<Id, nat>, id: Id, p: Id)
    requires Sound(f, rank) && id in f
    ensures Count(Trace(f, rank, id), Param(p)) == if OwnedIn(f, Below(f, rank, id), p) then 1 else 0
    decreases rank[id], 1, 0
  {
    var own, rest := ParamEvents(f[id].params), TraceAll(f, rank, id, f[id].children);
    CountAppend(own + [Impl(id)], rest, Param(p));
    CountAppend(own, [Impl(id)], Param(p));
    CountOne(Impl(id), Param(p));
    CountParams(f[id].params, p);
    UpdatesAllOnce(f, rank, id, f[id].children, p);
    if p in f[id].params {
      OwnNotBelow(f, rank, id, p);
    }
  }

  lemma OwnNotBelow(f: Forest, rank: map<Id, nat>, id: Id, p: Id)
    requires Sound(f, rank) && id in f && p in f[id].params
    ensures !OwnedIn(f, BelowAll(f, rank, id, f[id].children), p)
  {
    if OwnedIn(f, BelowAll(f, rank, id, f[id].children), p) {
      var n :| n in BelowAll(f, rank, id, f[id].children) && n in f && p in f[n].params;
      BelowAllClimbs(f, rank, id, f[id].children, n);
    }
  }

  lemma {:induction false} UpdatesAllOnce(f: Forest, rank: map<Id, nat>, id: Id, children: seq<Id>, p: Id)
    requires Sound(f, rank) && id in f && NoRepeats(children)
    requires forall c :: c in children ==> c in f[id].children
    ensures Count(TraceAll(f, rank, id, children), Param(p)) == if OwnedIn(f, BelowAll(f, rank, id, children), p) then 1
            else 0
    decreases rank[id], 0, |children|
  {
    if children != [] {
      var n := |children| - 1;
      var c := children[n];
      assert c in f[id].children && rank[c] < rank[id];
      UpdatesAllOnce(f, rank, id, children[..n], p);
      UpdatesOnce(f, rank, c, p);
      CountAppend(TraceAll(f, rank, id, children[..n]), Trace(f, rank, c), Param(p));
      if OwnedIn(f, Below(f, rank, c), p) {
        NotElsewhere(f, rank, id, children[..n], c, p);
      }
    }
  }

  /** What is below one child is not below the others. */
  lemma Apart(f: Forest, rank: map<Id, nat>, id: Id, children: seq<Id>, c: Id, n: Id)
    requires Linked(f) && Ranked(f, rank) && id in f && c in f[id].children && c !in children
    requires forall d :: d in children ==> d in f[id].children
    requires n in Below(f, rank, c)
    ensures n !in BelowAll(f, rank, id, children)
  {
    if n in BelowAll(f, rank, id, children) {
      var d := Branch(f, rank, id, children, n);
      SiblingsDisjoint(f, rank, c, d, n);
    }
  }

  lemma NotElsewhere(f: Forest, rank: map<Id, nat>, id: Id, children: seq<Id>, c: Id, p: Id)
    requires Sound(f, rank) && id in f && c in f[id].children && c !in children
    requires forall d :: d in children ==> d in f[id].children
    requires OwnedIn(f, Below(f, rank, c), p)
    ensures !OwnedIn(f, BelowAll(f, rank, id, children), p)
  {
    var n :| n in Below(f, rank, c) && n in f && p in f[n].params;
    Apart(f, rank, id, children, c, n);
  }

  lemma {:induction false} Branch(f: Forest, rank: map<Id, nat>, id: Id, children: seq<Id>, x: Id) returns (d: Id)
    requires Linked(f) && Ranked(f, rank) && id in f
    requires forall c :: c in children ==> c in f[id].children
    requires x in BelowAll(f, rank, id, children)
    ensures d in children && x in Below(f, rank, d)
    decreases |children|
  {
    var n := |children| - 1;
    assert children[n] in f[id].children;
    if x in Below(f, rank, children[n]) {
      d := children[n];
    } else {
      d := Branch(f, rank, id, children[..n], x);
    }
  }

  // ---------------------------------------------------------------------------
  // The operations on a forest.
  // ---------------------------------------------------------------------------

  lemma AddNode(f: Forest, rank: map<Id, nat>, id: Id)
    requires Sound(f, rank) && id !in f
    ensures Sound(f[id := Node(None, [], [])], rank[id := 0])
  {
    var g := f[id := Node(None, [], [])];
    forall x | x in g
      ensures ChildrenPoint(g, x) && IsListed(g, x)
    {
      assert x != id ==> ChildrenPoint(f, x) && IsListed(f, x);
    }
    LinkedBy(g);
  }

  /** The nodes that were there before a new one. */
  lemma OldUpward(f: Forest, id: Id)
    requires Linked(f) && id !in f
    ensures UpwardClosed(f[id := Node(None, [], [])], f.Keys)
  {
  }

  lemma RemoveNode(f: Forest, rank: map<Id, nat>, id: Id)
    requires Sound(f, rank) && id in f && f[id].parent.None? && f[id].children == []
    ensures Sound(f - {id}, rank - {id})
  {
    var g := f - {id};
    forall x | x in g
      ensures ChildrenPoint(g, x) && IsListed(g, x)
    {
      assert ChildrenPoint(f, x) && IsListed(f, x);
    }
    LinkedBy(g);
  }

  /** The children up to and including one are updated by updating those before it, then it. */
  lemma TraceAllStep(f: Forest, rank: map<Id, nat>, id: Id, i: nat)
    requires Linked(f) && Ranked(f, rank) && id in f && i < |f[id].children|
    ensures var children := f[id].children;
            && children[i] in f && rank[children[i]] < rank[id]
            && TraceAll(f, rank, id, children[..i + 1]) ==
                TraceAll(f, rank, id, children[..i]) + Trace(f, rank, children[i])
  {
    var children := f[id].children;
    assert children[i] in children && children[..i + 1][..i] == children[..i];
  }

  lemma AllWorkAppend(before: seq<Event>, a: seq<Event>, b: seq<Event>, works: Event -> bool)
    ensures before + a + b == before + (a + b)
    ensures AllWork(a + b, works) <==> AllWork(a, works) && AllWork(b, works)
  {
    assert forall e :: e in a + b <==> e in a || e in b;
  }

  /** The node below its parent, if it has one. */
  function Placed(f: Forest, id: Id, parent: Option<Id>): Forest
  {
    if id in f && parent.Some? && parent.value in f && parent.value != id then Push(f, id, parent.value) else f
  }

  function Pulled(f: Forest, id: Id): Forest
  {
    if id in f && CanPull(f, id) then Pull(f, id) else f
  }

  lemma AddParam(f: Forest, rank: map<Id, nat>, owner: Id, p: Id)
    requires Sound(f, rank) && owner in f && forall n :: n in f ==> p !in f[n].params
    ensures Sound(f[owner := f[owner].(params := [p] + f[owner].params)], rank)
  {
    ParamsOnly(f, rank, owner, [p] + f[owner].params);
  }

  lemma RemoveParam(f: Forest, rank: map<Id, nat>, owner: Id, p: Id)
    requires Sound(f, rank) && owner in f
    ensures Sound(f[owner := f[owner].(params := Without(f[owner].params, p))], rank)
    ensures p !in Without(f[owner].params, p)
  {
    WithoutMeans(f[owner].params, p);
    ParamsOnly(f, rank, owner, Without(f[owner].params, p));
  }

  lemma ParamsOnly(f: Forest, rank: map<Id, nat>, owner: Id, params: seq<Id>)
    requires Sound(f, rank) && owner in f && NoRepeats(params)
    requires forall n, p :: n in f && n != owner && p in params ==> p !in f[n].params
    ensures Sound(f[owner := f[owner].(params := params)], rank)
  {
    var g := f[owner := f[owner].(params := params)];
    forall x | x in g
      ensures ChildrenPoint(g, x) && IsListed(g, x)
    {
      assert ChildrenPoint(f, x) && IsListed(f, x);
      assert g[x].children == f[x].children && g[x].parent == f[x].parent;
    }
    LinkedBy(g);
  }
}
