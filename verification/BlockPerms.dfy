/**
 Permissions in the block graph: what a node must grant, what drivers ask of their
 children, and the refresh that pushes permissions down a topologically sorted list.
 */
module BlockPerms {
  import opened Wrappers
  import opened BlockGraph

  /** The driver callbacks: the permissions wanted on a child (an edge, or none yet) and the veto on new ones. */
  datatype Hooks = Hooks(
    childPerm: (NodeId, Option<EdgeId>, set<Role>, set<Perm>, set<Perm>) -> (set<Perm>, set<Perm>),
    checkPerm: (NodeId, set<Perm>, set<Perm>) -> bool
  )

  /** All that some parent of n requires. */
  ghost function CumPerm(g: Graph, n: NodeId): set<Perm> {
    set p | p in ALL_PERMS && exists e :: e in Parents(g, n) && p in g.edges[e].perm
  }

  /** All that every parent of n shares. */
  ghost function CumShared(g: Graph, n: NodeId): set<Perm> {
    set p | p in ALL_PERMS && forall e :: e in Parents(g, n) ==> p in g.edges[e].shared
  }

  /** bdrv_get_cumulative_perm. */
  method GetCumulativePerm(g: Graph, n: NodeId) returns (perm: set<Perm>, shared: set<Perm>)
    ensures perm == CumPerm(g, n) && shared == CumShared(g, n)
  {
    perm, shared := {}, ALL_PERMS;
    var todo := Parents(g, n);
    while todo != {}
      invariant todo <= Parents(g, n)
      invariant forall p :: p in perm <==> exists e :: e in Parents(g, n) - todo && p in g.edges[e].perm
      invariant forall p :: p in shared <==> p in ALL_PERMS && forall e :: e in Parents(g, n) - todo ==> p in g.edges[e].shared
      decreases |todo|
    {
      var c :| c in todo;
      perm := perm + g.edges[c].perm;
      shared := shared * g.edges[c].shared;
      todo := todo - {c};
    }
    AllPerms();
  }

  lemma AllPerms()
    ensures forall p: Perm :: p in ALL_PERMS
  {
    forall p: Perm
      ensures p in ALL_PERMS
    {
      match p
      case ConsistentRead =>
      case Write =>
      case WriteUnchanged =>
      case Resize =>
    }
  }

  /** Two parents of n of which one requires what the other does not share. */
  ghost predicate Conflict(g: Graph, n: NodeId) {
    exists a, b :: a in Parents(g, n) && b in Parents(g, n) && a != b && !(g.edges[b].perm <= g.edges[a].shared)
  }

  /** bdrv_parent_perms_conflict, over pairs of parents in both directions. */
  method ParentPermsConflict(g: Graph, n: NodeId) returns (r: bool)
    ensures r == Conflict(g, n)
  {
    var todo := Parents(g, n);
    while todo != {}
      invariant todo <= Parents(g, n)
      invariant forall a, b :: a in Parents(g, n) - todo && b in Parents(g, n) && a != b ==> g.edges[b].perm <= g.edges[a].shared
      decreases |todo|
    {
      var a :| a in todo;
      var rest := Parents(g, n);
      while rest != {}
        invariant rest <= Parents(g, n)
        invariant forall b :: b in Parents(g, n) - rest && a != b ==> g.edges[b].perm <= g.edges[a].shared
        decreases |rest|
      {
        var b :| b in rest;
        if a != b && !(g.edges[b].perm <= g.edges[a].shared) {
          return true;
        }
        rest := rest - {b};
      }
      todo := todo - {a};
    }
    return false;
  }

  /** The checks of bdrv_node_refresh_perm on what n must grant. */
  predicate Granted(h: Hooks, g: Graph, n: NodeId, perm: set<Perm>, shared: set<Perm>)
    requires n in g.nodes
  {
    var bs := g.nodes[n];
    && (Write in perm || WriteUnchanged in perm ==> bs.writable && (Resize in perm || bs.aligned))
    && (bs.drv.Some? ==> h.checkPerm(n, perm, shared))
  }

  /** bdrv_child_perm: what node n asks of a child node, on an edge or on one to be made. */
  function ChildPerm(h: Hooks, n: NodeId, e: Option<EdgeId>, child: Node, role: set<Role>, perm: set<Perm>, shared: set<Perm>): (set<Perm>, set<Perm>) {
    var asked := h.childPerm(n, e, role, perm, shared);
    if child.forceShare then (asked.0, ALL_PERMS) else asked
  }

  /** Every edge points to a node, and drivers without bdrv_child_perm have no children. */
  ghost predicate Proper(g: Graph) {
    && Closed(g)
    && forall n :: n in g.nodes && g.nodes[n].drv.Some? && !g.nodes[n].drv.value.hasChildPerm ==> Children(g, n) == {}
  }

  /** What the edge e of node n is to ask for, given what n itself must grant. */
  function Asked(h: Hooks, g: Graph, n: NodeId, e: EdgeId, perm: set<Perm>, shared: set<Perm>): Edge
    requires e in g.edges && g.edges[e].bs.Some? && g.edges[e].bs.value in g.nodes
  {
    var asked := ChildPerm(h, n, Some(e), g.nodes[g.edges[e].bs.value], g.edges[e].role, perm, shared);
    g.edges[e].(perm := asked.0, shared := asked.1)
  }

  /** The graph after the children of n were given what n asks for. */
  ghost function Refreshed(h: Hooks, g: Graph, n: NodeId): (r: Graph)
    requires Closed(g) && n in g.nodes
    ensures SameShape(g, r)
    ensures forall e :: e in g.edges && e !in Children(g, n) ==> r.edges[e] == g.edges[e]
  {
    if g.nodes[n].drv.None? then g
    else g.(edges := map e | e in g.edges ::
                       if e in Children(g, n) then Asked(h, g, n, e, CumPerm(g, n), CumShared(g, n)) else g.edges[e])
  }

  /** The refresh of a list of nodes, in order; None if it fails. */
  ghost function RefreshAll(h: Hooks, g: Graph, list: seq<NodeId>): Option<Graph>
    requires Closed(g) && forall n :: n in list ==> n in g.nodes
    decreases |list|
  {
    if list == [] then Some(g)
    else if Conflict(g, list[0]) || !Granted(h, g, list[0], CumPerm(g, list[0]), CumShared(g, list[0])) then None
    else RefreshAll(h, Refreshed(h, g, list[0]), list[1..])
  }

  // ----- Shape. -----

  /** The graphs differ in permissions only. */
  ghost predicate SameShape(g: Graph, g': Graph) {
    && g'.nodes == g.nodes && g'.edges.Keys == g.edges.Keys
    && forall e :: e in g.edges ==> g'.edges[e] == g.edges[e].(perm := g'.edges[e].perm, shared := g'.edges[e].shared)
  }

  lemma ShapeKeeps(g: Graph, g': Graph)
    requires SameShape(g, g')
    ensures Closed(g) ==> Closed(g')
    ensures Proper(g) ==> Proper(g')
    ensures forall n :: Children(g', n) == Children(g, n) && Parents(g', n) == Parents(g, n)
  {
  }

  lemma ShapeKeepsArrow(g: Graph, g': Graph)
    requires SameShape(g, g')
    ensures forall a, b :: Arrow(g', a, b) <==> Arrow(g, a, b)
  {
    ShapeKeeps(g, g');
    forall a: NodeId, b: NodeId
      ensures Arrow(g', a, b) <==> Arrow(g, a, b)
    {
      if e :| e in Children(g, a) && g.edges[e].bs == Some(b) {
        assert e in Children(g', a) && g'.edges[e].bs == Some(b);
      }
      if e :| e in Children(g', a) && g'.edges[e].bs == Some(b) {
        assert e in Children(g, a) && g.edges[e].bs == Some(b);
      }
    }
  }

  /** Without a self-arrow the cumulative permissions depend on the edges of other nodes only. */
  lemma SameParentsSameCum(g: Graph, g': Graph, n: NodeId)
    requires SameShape(g, g') && forall e :: e in Parents(g, n) ==> g'.edges[e] == g.edges[e]
    ensures CumPerm(g', n) == CumPerm(g, n) && CumShared(g', n) == CumShared(g, n)
    ensures Conflict(g', n) <==> Conflict(g, n)
  {
    ShapeKeeps(g, g');
    assert Parents(g', n) == Parents(g, n);
    assert forall e :: e in Parents(g, n) ==> g'.edges[e] == g.edges[e];
  }

  // ----- A successful refresh settles every listed node. -----

  /** Node n has parents without conflict, may grant what they require, and asks of its children what its driver says. */
  ghost predicate Settled(h: Hooks, g: Graph, n: NodeId)
    requires Closed(g) && n in g.nodes
  {
    && !Conflict(g, n)
    && Granted(h, g, n, CumPerm(g, n), CumShared(g, n))
    && (g.nodes[n].drv.Some? ==> forall e :: e in Children(g, n) ==> g.edges[e] == Asked(h, g, n, e, CumPerm(g, n), CumShared(g, n)))
  }

  /** Some parent of n wants to write. */
  ghost predicate Written(g: Graph, n: NodeId) {
    exists e :: e in Parents(g, n) && (Write in g.edges[e].perm || WriteUnchanged in g.edges[e].perm)
  }

  ghost predicate Resized(g: Graph, n: NodeId) {
    exists e :: e in Parents(g, n) && Resize in g.edges[e].perm
  }

  /**
   What n owes its parents, seen from their edges: each shares what the others require;
   nobody writes to a read-only node, nor to one of unaligned size unless somebody may
   resize it; and the driver accepts.  Nothing else is asked, so reading never fails here.
   */
  ghost predicate ServesParents(h: Hooks, g: Graph, n: NodeId)
    requires n in g.nodes
  {
    && (forall a, b :: a in Parents(g, n) && b in Parents(g, n) && a != b ==> g.edges[b].perm <= g.edges[a].shared)
    && (Written(g, n) ==> g.nodes[n].writable && (g.nodes[n].aligned || Resized(g, n)))
    && (g.nodes[n].drv.Some? ==> h.checkPerm(n, CumPerm(g, n), CumShared(g, n)))
  }

  /** The child edges of n require and share what the driver says, and share everything with a child that is opened that way. */
  ghost predicate AsksChildren(h: Hooks, g: Graph, n: NodeId)
    requires Closed(g) && n in g.nodes
  {
    forall e :: e in Children(g, n) && g.nodes[n].drv.Some? ==>
      var wants := h.childPerm(n, Some(e), g.edges[e].role, CumPerm(g, n), CumShared(g, n));
      && g.edges[e].perm == wants.0
      && g.edges[e].shared == if g.nodes[g.edges[e].bs.value].forceShare then ALL_PERMS else wants.1
  }

  lemma CumContains(g: Graph, n: NodeId, p: Perm)
    ensures p in CumPerm(g, n) <==> exists e :: e in Parents(g, n) && p in g.edges[e].perm
  {
    AllPerms();
  }

  /** Exactly what it means to be settled. */
  lemma SettledMeans(h: Hooks, g: Graph, n: NodeId)
    requires Closed(g) && n in g.nodes
    ensures Settled(h, g, n) <==> ServesParents(h, g, n) && AsksChildren(h, g, n)
  {
    WriteMeans(g, n);
  }

  lemma WriteMeans(g: Graph, n: NodeId)
    ensures Written(g, n) <==> Write in CumPerm(g, n) || WriteUnchanged in CumPerm(g, n)
    ensures Resized(g, n) <==> Resize in CumPerm(g, n)
  {
    CumContains(g, n, Write);
    CumContains(g, n, WriteUnchanged);
    CumContains(g, n, Resize);
    if e :| e in Parents(g, n) && (Write in g.edges[e].perm || WriteUnchanged in g.edges[e].perm) {
      assert Written(g, n);
    }
  }

  /** Edge e is held by a node of the list that has a driver, so a refresh may change it. */
  ghost predicate HeldIn(g: Graph, e: EdgeId, list: seq<NodeId>)
    requires e in g.edges
  {
    var owner := g.edges[e].owner;
    g.edges[e].bs.Some? && owner.ByNode? && owner.node in list && owner.node in g.nodes && g.nodes[owner.node].drv.Some?
  }

  /** An edge into the first node of the list is not held by a node of the list. */
  lemma ParentsComeFirst(g: Graph, list: seq<NodeId>, e: EdgeId)
    requires Topological(g, list) && list != [] && e in Parents(g, list[0])
    ensures !HeldIn(g, e, list)
  {
    if HeldIn(g, e, list) {
      var i :| 0 <= i < |list| && list[i] == g.edges[e].owner.node;
      assert e in Children(g, list[i]) && Arrow(g, list[i], list[0]);
    }
  }

  lemma TopologicalTail(g: Graph, list: seq<NodeId>)
    requires Topological(g, list) && list != []
    ensures Topological(g, list[1..])
  {
    forall i, m | 0 <= i < |list| - 1 && Arrow(g, list[1..][i], m)
      ensures m in list[1..][i + 1..]
    {
      assert Arrow(g, list[i + 1], m);
      assert list[1..][i + 1..] == list[i + 2..];
    }
  }

  lemma TopologicalShape(g: Graph, g': Graph, list: seq<NodeId>)
    requires SameShape(g, g') && Topological(g, list)
    ensures Topological(g', list)
  {
    ShapeKeepsArrow(g, g');
  }

  /** Edges not held by a node of the list are the same. */
  ghost predicate SameElsewhere(g: Graph, g': Graph, list: seq<NodeId>)
    requires SameShape(g, g')
  {
    forall e :: e in g.edges && !HeldIn(g, e, list) ==> g'.edges[e] == g.edges[e]
  }

  lemma AskedShape(h: Hooks, g: Graph, g': Graph, n: NodeId, e: EdgeId, perm: set<Perm>, shared: set<Perm>)
    requires SameShape(g, g') && e in g.edges && g.edges[e].bs.Some? && g.edges[e].bs.value in g.nodes
    ensures Asked(h, g', n, e, perm, shared) == Asked(h, g, n, e, perm, shared)
  {
  }

  /** The edges into the first node of the list are not changed any more... */
  lemma FirstParentsKept(h: Hooks, g: Graph, list: seq<NodeId>, g': Graph, e: EdgeId)
    requires Closed(g) && list != [] && Topological(g, list) && list[0] in g.nodes && e in Parents(g, list[0])
    requires SameShape(Refreshed(h, g, list[0]), g') && SameElsewhere(Refreshed(h, g, list[0]), g', list[1..])
    ensures g'.edges[e] == g.edges[e]
  {
    ParentsComeFirst(g, list, e);
  }

  /** ...and its own edges have what it asks for. */
  lemma FirstChildrenKept(h: Hooks, g: Graph, list: seq<NodeId>, g': Graph, e: EdgeId)
    requires Closed(g) && list != [] && Topological(g, list) && list[0] in g.nodes && e in Children(g, list[0]) && g.nodes[list[0]].drv.Some?
    requires SameShape(Refreshed(h, g, list[0]), g') && SameElsewhere(Refreshed(h, g, list[0]), g', list[1..])
    ensures g'.edges[e] == Asked(h, g, list[0], e, CumPerm(g, list[0]), CumShared(g, list[0]))
  {
    assert list[0] !in list[1..];
    assert !HeldIn(Refreshed(h, g, list[0]), e, list[1..]);
  }

  /** After its own turn nothing that concerns the first node of the list changes any more. */
  lemma FirstStaysSettled(h: Hooks, g: Graph, list: seq<NodeId>, g': Graph)
    requires Closed(g) && list != [] && Topological(g, list) && list[0] in g.nodes
    requires !Conflict(g, list[0]) && Granted(h, g, list[0], CumPerm(g, list[0]), CumShared(g, list[0]))
    requires SameShape(Refreshed(h, g, list[0]), g') && SameElsewhere(Refreshed(h, g, list[0]), g', list[1..])
    ensures SameShape(g, g') && Closed(g') && Settled(h, g', list[0])
  {
    var n := list[0];
    ShapeKeeps(g, g');
    forall e | e in Parents(g, n)
      ensures g'.edges[e] == g.edges[e]
    {
      FirstParentsKept(h, g, list, g', e);
    }
    SameParentsSameCum(g, g', n);
    forall e | e in Children(g, n) && g.nodes[n].drv.Some?
      ensures g'.edges[e] == Asked(h, g', n, e, CumPerm(g', n), CumShared(g', n))
    {
      FirstChildrenKept(h, g, list, g', e);
      AskedShape(h, g, g', n, e, CumPerm(g, n), CumShared(g, n));
    }
    assert Children(g', n) == Children(g, n);
  }

  /**
   When a refresh succeeds, every listed node has each child edge equal to its driver's
   function of the node's FINAL cumulative permissions, grants them, and has no two
   parents in conflict.  Edges of other nodes keep their permissions.
   */
  lemma {:induction false} RefreshSettles(h: Hooks, g: Graph, list: seq<NodeId>)
    requires Closed(g) && Topological(g, list) && (forall n :: n in list ==> n in g.nodes)
    requires RefreshAll(h, g, list).Some?
    ensures var g' := RefreshAll(h, g, list).value;
            && SameShape(g, g') && Closed(g') && SameElsewhere(g, g', list)
            && forall n :: n in list ==> Settled(h, g', n)
    decreases |list|
  {
    if list != [] {
      var g1 := Refreshed(h, g, list[0]);
      TopologicalTail(g, list);
      TopologicalShape(g, g1, list[1..]);
      ShapeKeeps(g, g1);
      RefreshSettles(h, g1, list[1..]);
      FirstStaysSettled(h, g, list, RefreshAll(h, g1, list[1..]).value);
    }
  }

  /** Where all listed nodes can be settled, the first one passes, and its edges come out right. */
  lemma FirstMatches(h: Hooks, g: Graph, list: seq<NodeId>, goal: Graph)
    requires Closed(g) && list != [] && Topological(g, list) && list[0] in g.nodes
    requires SameShape(g, goal) && SameElsewhere(g, goal, list) && Closed(goal) && Settled(h, goal, list[0])
    ensures !Conflict(g, list[0]) && Granted(h, g, list[0], CumPerm(g, list[0]), CumShared(g, list[0]))
    ensures SameElsewhere(Refreshed(h, g, list[0]), goal, list[1..])
  {
    var n := list[0];
    var g1 := Refreshed(h, g, n);
    forall e | e in Parents(g, n)
      ensures goal.edges[e] == g.edges[e]
    {
      ParentsComeFirst(g, list, e);
    }
    SameParentsSameCum(g, goal, n);
    ShapeKeeps(g, goal);
    forall e | e in g.edges && !HeldIn(g1, e, list[1..])
      ensures goal.edges[e] == g1.edges[e]
    {
      if e in Children(g, n) && g.nodes[n].drv.Some? {
        assert goal.edges[e] == Asked(h, goal, n, e, CumPerm(goal, n), CumShared(goal, n));
      }
    }
  }

  /**
   Conversely, if the permissions of the listed nodes' children can be chosen so that all
   of them are settled, the refresh succeeds and finds that choice; there is only one.
   */
  lemma {:induction false} RefreshIsComplete(h: Hooks, g: Graph, list: seq<NodeId>, goal: Graph)
    requires Closed(g) && Topological(g, list) && (forall n :: n in list ==> n in g.nodes)
    requires SameShape(g, goal) && SameElsewhere(g, goal, list) && Closed(goal)
    requires forall n :: n in list ==> Settled(h, goal, n)
    ensures RefreshAll(h, g, list) == Some(goal)
    decreases |list|
  {
    if list == [] {
      assert g.edges == goal.edges;
    } else {
      var g1 := Refreshed(h, g, list[0]);
      FirstMatches(h, g, list, goal);
      TopologicalTail(g, list);
      TopologicalShape(g, g1, list[1..]);
      ShapeKeeps(g, g1);
      RefreshIsComplete(h, g1, list[1..], goal);
    }
  }
}
