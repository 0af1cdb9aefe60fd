/** The tree of parameter owners as it is held: parent pointers, and intrusive lists of children
    and of parameters. Each operation does to the forest what ModuleParams says. */
module ParamTrees {
  import opened Options
  import opened ParamLinks
  import opened ModuleParams

  /** The pointers and lists that hold a forest. */
  ghost predicate Holds(f: Forest, parents: Links, children: Lists, params: Lists)
  {
    && parents.Keys == children.Keys == params.Keys == f.Keys
    && forall id {:trigger IsHeld(f, parents, children, params, id)} :: id in f ==>
      IsHeld(f, parents, children, params, id)
  }

  ghost predicate IsHeld(f: Forest, parents: Links, children: Lists, params: Lists, id: Id)
    requires id in f && id in parents && id in children && id in params
  {
    parents[id] == f[id].parent && children[id] == f[id].children && params[id] == f[id].params
  }

  lemma PushHeld(f: Forest, parents: Links, children: Lists, params: Lists, id: Id, parent: Id)
    requires Holds(f, parents, children, params) && id in f && parent in f && id != parent
    ensures Holds(Push(f, id, parent), parents[id := Some(parent)], children[parent := [id] + children[parent]], params)
  {
    var f', parents', children' := Push(f, id, parent), parents[id := Some(parent)],
        children[parent := [id] + children[parent]];
    forall x | x in f'
      ensures IsHeld(f', parents', children', params, x)
    {
      assert IsHeld(f, parents, children, params, x);
    }
  }

  lemma PullHeld(f: Forest, parents: Links, children: Lists, params: Lists, id: Id, parent: Id)
    requires Holds(f, parents, children, params) && id in f && CanPull(f, id) && f[id].parent == Some(parent)
    ensures Holds(Pull(f, id), parents[id := None], children[parent := Without(children[parent], id)], params)
  {
    var f', parents', children' := Pull(f, id), parents[id := None], children[parent := Without(children[parent], id)];
    forall x | x in f'
      ensures IsHeld(f', parents', children', params, x)
    {
      assert IsHeld(f, parents, children, params, x);
    }
  }

  lemma AddHeld(f: Forest, parents: Links, children: Lists, params: Lists, id: Id)
    requires Holds(f, parents, children, params) && id !in f
    ensures Holds(f[id := Node(None, [], [])], parents[id := None], children[id := []], params[id := []])
  {
    var f', parents', children', params' := f[id := Node(None, [], [])], parents[id := None], children[id := []],
        params[id := []];
    forall x | x in f'
      ensures IsHeld(f', parents', children', params', x)
    {
      assert x != id ==> IsHeld(f, parents, children, params, x);
    }
  }

  lemma DropHeld(f: Forest, parents: Links, children: Lists, params: Lists, id: Id)
    requires Holds(f, parents, children, params)
    ensures Holds(f - {id}, parents - {id}, children - {id}, params - {id})
  {
    var f', parents', children', params' := f - {id}, parents - {id}, children - {id}, params - {id};
    forall x | x in f'
      ensures IsHeld(f', parents', children', params', x)
    {
      assert IsHeld(f, parents, children, params, x);
    }
  }

  lemma ParamsHeld(f: Forest, parents: Links, children: Lists, params: Lists, owner: Id, s: seq<Id>)
    requires Holds(f, parents, children, params) && owner in f
    ensures Holds(f[owner := f[owner].(params := s)], parents, children, params[owner := s])
  {
    var f', params' := f[owner := f[owner].(params := s)], params[owner := s];
    forall x | x in f'
      ensures IsHeld(f', parents, children, params', x)
    {
      assert IsHeld(f, parents, children, params, x);
    }
  }

  /** A node without a parent is on no list of children. */
  lemma NotListed(f: Forest, parents: Links, children: Lists, params: Lists, id: Id)
    requires Linked(f) && Holds(f, parents, children, params) && id in f && f[id].parent.None?
    ensures forall p :: p in children ==> id !in children[p]
  {
    forall p | p in children
      ensures id !in children[p]
    {
      assert IsHeld(f, parents, children, params, p);
    }
  }

  lemma NotOwned(f: Forest, parents: Links, children: Lists, params: Lists, x: Id)
    requires Holds(f, parents, children, params) && forall n :: n in f ==> x !in f[n].params
    ensures forall p :: p in params ==> x !in params[p]
  {
    forall p | p in params
      ensures x !in params[p]
    {
      assert IsHeld(f, parents, children, params, p);
    }
  }

  class ParamTree {
    var parents: Links
    const siblings: LinkTable
    const parameters: LinkTable
    /** The forest held. */
    ghost var nodes: Forest
    ghost var rank: map<Id, nat>
    /** The updates and hooks that have run, in order. */
    ghost var log: seq<Event>
    /** Whether each update of a parameter, and each hook, succeeds. */
    const works: Event -> bool

    ghost predicate Held()
      reads `parents, `nodes, siblings, parameters
    {
      && siblings != parameters && siblings.Valid() && parameters.Valid()
      && Holds(nodes, parents, siblings.lists, parameters.lists)
    }

    ghost predicate Valid()
      reads `parents, `nodes, `rank, siblings, parameters
    {
      Held() && Sound(nodes, rank)
    }

    constructor (works: Event -> bool)
      ensures Valid() && nodes == map[] && log == [] && fresh(siblings) && fresh(parameters)
    {
      this.works, parents, nodes, rank, log := works, map[], map[], map[], [];
      siblings := new LinkTable();
      parameters := new LinkTable();
    }

    method RegisterChild(id: Id, parent: Id, ghost up: set<Id>)
      requires Valid() && id in nodes && parent in nodes && nodes[id].parent.None?
      requires UpwardClosed(nodes, up) && parent in up && id !in up
      modifies `parents, `nodes, `rank, siblings
      ensures Valid() && nodes == Push(old(nodes), id, parent)
    {
      PushSound(nodes, rank, id, parent, up);
      NotListed(nodes, parents, siblings.lists, parameters.lists, id);
      LinkBelow(id, parent);
      rank := Reranked(rank, id, up);
    }

    method LinkBelow(id: Id, parent: Id)
      requires Held() && id in nodes && parent in nodes && id != parent
      requires forall p :: p in siblings.lists ==> id !in siblings.lists[p]
      modifies `parents, `nodes, siblings
      ensures Held() && nodes == Push(old(nodes), id, parent)
    {
      PushHeld(nodes, parents, siblings.lists, parameters.lists, id, parent);
      siblings.Insert(parent, id);
      parents := parents[id := Some(parent)];
      nodes := Push(nodes, id, parent);
    }

    method UnregisterChild(id: Id)
      requires Valid() && id in nodes && CanPull(nodes, id)
      modifies `parents, `nodes, siblings
      ensures Valid() && nodes == Pull(old(nodes), id)
    {
      PullSound(nodes, rank, id);
      assert IsHeld(nodes, parents, siblings.lists, parameters.lists, id);
      if parents[id].Some? {
        PullHeld(nodes, parents, siblings.lists, parameters.lists, id, parents[id].value);
        siblings.Remove(parents[id].value, id);
        parents := parents[id := None];
        nodes := Pull(nodes, id);
      }
    }

    method Adopt(id: Id, parent: Option<Id>, ghost up: set<Id>)
      requires Valid() && id in nodes && nodes[id].parent.None?
      requires parent.Some? ==> parent.value in up && id !in up && UpwardClosed(nodes, up)
      modifies `parents, `nodes, `rank, siblings
      ensures Valid() && nodes == Placed(old(nodes), id, parent)
    {
      if parent.Some? {
        RegisterChild(id, parent.value, up);
      }
    }

    method AddAlone(id: Id)
      requires Valid() && id !in nodes
      modifies `parents, `nodes, `rank, siblings, parameters
      ensures Valid() && nodes == old(nodes)[id := Node(None, [], [])]
    {
      AddNode(nodes, rank, id);
      AddHeld(nodes, parents, siblings.lists, parameters.lists, id);
      siblings.AddOwner(id);
      parameters.AddOwner(id);
      parents, nodes, rank := parents[id := None], nodes[id := Node(None, [], [])], rank[id := 0];
    }

    /** A new node, below a parent if it has one. */
    method Construct(id: Id, parent: Option<Id>)
      requires Valid() && id !in nodes && (parent.Some? ==> parent.value in nodes)
      modifies `parents, `nodes, `rank, siblings, parameters
      ensures Valid() && nodes == Placed(old(nodes)[id := Node(None, [], [])], id, parent)
    {
      OldUpward(nodes, id);
      ghost var up := nodes.Keys;
      AddAlone(id);
      Adopt(id, parent, up);
    }

    /** The new parent must not be below the node; `up` are the new parent's ancestors. */
    method SetParent(id: Id, parent: Option<Id>, ghost up: set<Id>)
      requires Valid() && id in nodes
      requires parent.Some? ==> parent.value in up && id !in up && UpwardClosed(nodes, up)
      modifies `parents, `nodes, `rank, siblings
      ensures Valid() && id in nodes && nodes[id].parent == parent
      ensures nodes == if old(nodes)[id].parent == parent then old(nodes)
              else Placed(Pulled(old(nodes), id), id, parent)
    {
      assert IsHeld(nodes, parents, siblings.lists, parameters.lists, id);
      if parents[id] != parent {
        PullSound(nodes, rank, id);
        PullUpward(nodes, id, if parent.Some? then up else {});
        UnregisterChild(id);
        Adopt(id, parent, up);
      }
    }

    /** A node goes after its children and parameters have gone. */
    method Destroy(id: Id)
      requires Valid() && id in nodes && nodes[id].children == [] && nodes[id].params == []
      modifies `parents, `nodes, `rank, siblings, parameters
      ensures Valid() && nodes == Pulled(old(nodes), id) - {id}
    {
      PullSound(nodes, rank, id);
      UnregisterChild(id);
      RemoveAlone(id);
    }

    method RemoveAlone(id: Id)
      requires Valid() && id in nodes && nodes[id] == Node(None, [], [])
      modifies `parents, `nodes, `rank, siblings, parameters
      ensures Valid() && nodes == old(nodes) - {id}
    {
      RemoveNode(nodes, rank, id);
      DropHeld(nodes, parents, siblings.lists, parameters.lists, id);
      siblings.DropOwner(id);
      parameters.DropOwner(id);
      parents := parents - {id};
      nodes, rank := nodes - {id}, rank - {id};
    }

    method RegisterParam(owner: Id, p: Id)
      requires Valid() && owner in nodes && forall n :: n in nodes ==> p !in nodes[n].params
      modifies `nodes, parameters
      ensures Valid() && nodes == old(nodes)[owner := old(nodes)[owner].(params := [p] + old(nodes)[owner].params)]
    {
      AddParam(nodes, rank, owner, p);
      NotOwned(nodes, parents, siblings.lists, parameters.lists, p);
      ParamsHeld(nodes, parents, siblings.lists, parameters.lists, owner, [p] + nodes[owner].params);
      assert IsHeld(nodes, parents, siblings.lists, parameters.lists, owner);
      parameters.Insert(owner, p);
      nodes := nodes[owner := nodes[owner].(params := [p] + nodes[owner].params)];
    }

    method UnregisterParam(owner: Id, p: Id)
      requires Valid() && owner in nodes
      modifies `nodes, parameters
      ensures Valid()
              && nodes == old(nodes)[owner := old(nodes)[owner].(params := Without(old(nodes)[owner].params, p))]
      ensures p !in nodes[owner].params
    {
      RemoveParam(nodes, rank, owner, p);
      ParamsHeld(nodes, parents, siblings.lists, parameters.lists, owner, Without(nodes[owner].params, p));
      assert IsHeld(nodes, parents, siblings.lists, parameters.lists, owner);
      parameters.Remove(owner, p);
      nodes := nodes[owner := nodes[owner].(params := Without(nodes[owner].params, p))];
    }

    /** One update of one parameter. */
    method UpdateParam(p: Id) returns (ok: bool)
      modifies `log
      ensures log == old(log) + [Param(p)] && ok == works(Param(p))
    {
      log := log + [Param(p)];
      ok := works(Param(p));
    }

    /** The hook of one node. */
    method RunHook(id: Id) returns (ok: bool)
      modifies `log
      ensures log == old(log) + [Impl(id)] && ok == works(Impl(id))
    {
      log := log + [Impl(id)];
      ok := works(Impl(id));
    }

    /** Updates the parameters, runs the hook, then updates the children; a failure is
        remembered but stops nothing. */
    method UpdateParams(id: Id) returns (valid: bool)
      requires Valid() && id in nodes
      modifies `log
      ensures log == old(log) + Trace(nodes, rank, id)
      ensures valid <==> AllWork(Trace(nodes, rank, id), works)
      decreases rank[id], 1
    {
      ghost var before := log;
      var here := UpdateNode(id);
      var below := UpdateChildren(id);
      valid := below && here;
      AllWorkAppend(before, NodeEvents(nodes, id), TraceAll(nodes, rank, id, nodes[id].children), works);
    }

    /** The node's own parameters and its hook. */
    method UpdateNode(id: Id) returns (valid: bool)
      requires Held() && id in nodes
      modifies `log
      ensures log == old(log) + NodeEvents(nodes, id)
      ensures valid <==> AllWork(NodeEvents(nodes, id), works)
    {
      valid := UpdateOwn(id);
      var hooked := RunHook(id);
      valid := hooked && valid;
    }

    /** Walks along the parameters. */
    method UpdateOwn(id: Id) returns (valid: bool)
      requires Held() && id in nodes
      modifies `log
      ensures log == old(log) + ParamEvents(nodes[id].params)
      ensures valid <==> AllWork(ParamEvents(nodes[id].params), works)
    {
      ghost var params, i := nodes[id].params, 0;
      assert IsHeld(nodes, parents, siblings.lists, parameters.lists, id);
      assert IsChained(parameters.first, parameters.next, parameters.lists, id);
      var parameter := Deref(parameters.first, id);
      valid := true;
      while parameter.Some?
        invariant i <= |params| && parameter == Nth(params, i)
        invariant log == old(log) + ParamEvents(params[..i])
        invariant valid <==> AllWork(ParamEvents(params[..i]), works)
        decreases |params| - i
      {
        assert params[..i + 1][..i] == params[..i] && PointsOn(parameters.next, params, i);
        var ok := UpdateParam(parameter.value);
        valid := ok && valid;
        parameter, i := Deref(parameters.next, parameter.value), i + 1;
      }
      assert params[..|params|] == params;
    }

    /** Walks along the children. */
    method UpdateChildren(id: Id) returns (valid: bool)
      requires Valid() && id in nodes
      modifies `log
      ensures log == old(log) + TraceAll(nodes, rank, id, nodes[id].children)
      ensures valid <==> AllWork(TraceAll(nodes, rank, id, nodes[id].children), works)
      decreases rank[id], 0
    {
      ghost var before, children, i := log, nodes[id].children, 0;
      assert IsHeld(nodes, parents, siblings.lists, parameters.lists, id);
      assert IsChained(siblings.first, siblings.next, siblings.lists, id);
      var child := Deref(siblings.first, id);
      valid := true;
      while child.Some?
        invariant i <= |children| && child == Nth(children, i)
        invariant log == before + TraceAll(nodes, rank, id, children[..i])
        invariant valid <==> AllWork(TraceAll(nodes, rank, id, children[..i]), works)
        decreases |children| - i
      {
        TraceAllStep(nodes, rank, id, i);
        assert PointsOn(siblings.next, children, i);
        var below := UpdateParams(child.value);
        valid := below && valid;
        AllWorkAppend(before, TraceAll(nodes, rank, id, children[..i]), Trace(nodes, rank, children[i]), works);
        child, i := Deref(siblings.next, child.value), i + 1;
      }
      assert children[..|children|] == children;
    }

    /** An update of a node bumps the count of every parameter below it by exactly one, and no
        other parameter's. */
    method UpdateTree(id: Id) returns (valid: bool)
      requires Valid() && id in nodes
      modifies `log
      ensures forall p :: Count(log, Param(p)) ==
                          old(Count(log, Param(p))) + if OwnedIn(nodes, Below(nodes, rank, id), p) then 1 else 0
      ensures old(log) <= log && (valid <==> AllWork(log[|old(log)|..], works))
    {
      ghost var before := log;
      valid := UpdateParams(id);
      assert log[|before|..] == Trace(nodes, rank, id);
      forall p
        ensures Count(log, Param(p)) == Count(before, Param(p)) + if OwnedIn(nodes, Below(nodes, rank, id), p) then 1
                else 0
      {
        CountAppend(before, Trace(nodes, rank, id), Param(p));
        UpdatesOnce(nodes, rank, id, p);
      }
    }
  }
}
