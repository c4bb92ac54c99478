/**
 The remaining operations on the block graph, attaching, detaching and changing the
 permissions of an edge, and the object that holds the graph.
 */
module BlockOperations {
  import opened Wrappers
  import opened BlockGraph
  import opened BlockPerms
  import opened BlockLoosening
  import opened BlockEdits
  import opened BlockTransactions
  import opened BlockStore
  import opened BlockSteps
  import opened BlockRefresh
  import opened BlockMoves
  import opened BlockBacking
  import opened BlockLayer

  /** The graph with the subtree of n settled, if that is possible. */
  ghost function SettledIfPossible(h: Hooks, g: Graph, n: NodeId): Graph {
    if Settleable(h, g, [n]) then Settling(h, g, [n]) else g
  }

  /**
   bdrv_refresh_perms with a transaction of its own: the subtree of n is settled if that is
   possible, and otherwise nothing changes.  Graph g0 is the one before the last change.
   */
  method RefreshPerms(h: Hooks, s: Store, n: NodeId, ghost outside: multiset<NodeId>, ghost g0: Graph) returns (t: Store)
    requires ValidStore(s, outside) && s.tran == [] && n in s.g.nodes && Closed(g0)
    ensures ValidStore(t, outside) && t.tran == [] && Closed(s.g)
    ensures t.g == SettledIfPossible(h, s.g, n) && LoosenedRight(h, g0, s.g, n, t.g)
  {
    var ok;
    ghost var list;
    t, ok, list := RefreshSubtree(h, s, n, outside);
    LoosenedRefresh(h, g0, s.g, n, list, t.g);
    if ok {
      NothingToFree();
      CommitsAll(t.g, t.tran);
    }
    t := Finalize(t, ok, outside);
  }

  // ----- Changing the permissions of an edge. -----

  /** The graph with other permissions on one edge. */
  function WithPerm(g: Graph, e: EdgeId, perm: set<Perm>, shared: set<Perm>): Graph
    requires e in g.edges
  {
    g.(edges := g.edges[e := g.edges[e].(perm := perm, shared := shared)])
  }

  predicate Loosens(c: Edge, perm: set<Perm>, shared: set<Perm>) {
    perm <= c.perm && c.shared <= shared
  }

  /** The transaction of bdrv_child_try_set_perm. */
  method TrySetPermOpen(h: Hooks, s: Store, e: EdgeId, perm: set<Perm>, shared: set<Perm>, ghost outside: multiset<NodeId>) returns (t: Store, ok: bool)
    requires ValidStore(s, outside) && s.tran == [] && e in s.g.edges && s.g.edges[e].bs.Some? && Closed(s.g)
    ensures Rolls(s, t, outside) && ToFree(t.tran) == {}
    ensures var g1, n := WithPerm(s.g, e, perm, shared), s.g.edges[e].bs.value;
            && Closed(g1) && (ok <==> Settleable(h, g1, [n])) && (ok ==> t.g == Settling(h, g1, [n]))
            && LoosenedRight(h, s.g, g1, n, t.g)
  {
    NothingToFree();
    PermittedValid(s, outside, e, perm, shared);
    PermittedOnlyPerms(s, e, perm, shared);
    ghost var list;
    t, ok, list := RefreshSubtree(h, Permitted(s, e, perm, shared), s.g.edges[e].bs.value, outside);
    LoosenedRefresh(h, s.g, WithPerm(s.g, e, perm, shared), s.g.edges[e].bs.value, list, t.g);
  }

  lemma LoosenedLooser(g: Graph, e: EdgeId, perm: set<Perm>, shared: set<Perm>)
    requires e in g.edges
    ensures Loosens(g.edges[e], perm, shared) ==> Looser(g, WithPerm(g, e, perm, shared))
  {
  }

  /**
   What bdrv_child_try_set_perm comes to: it takes effect exactly if the result can be
   settled, and otherwise changes nothing.  A mere loosening reports success either way; in
   a safe subtree it takes effect exactly if no size and no driver refuses on the way down.
   */
  ghost predicate PermTried(h: Hooks, g: Graph, e: EdgeId, perm: set<Perm>, shared: set<Perm>, g': Graph, ok: bool)
    requires Closed(g) && e in g.edges && g.edges[e].bs.Some?
  {
    var g1, n := WithPerm(g, e, perm, shared), g.edges[e].bs.value;
    && Closed(g1)
    && g' == (if Settleable(h, g1, [n]) then Settling(h, g1, [n]) else g)
    && (ok <==> Settleable(h, g1, [n]) || Loosens(g.edges[e], perm, shared))
    && (Loosens(g.edges[e], perm, shared) && SafeToLoosen(h, g, n) ==>
          (Settleable(h, g1, [n]) <==> AdmitsBelow(h, g1, n)) && Looser(g, g'))
  }

  /** bdrv_child_try_set_perm. */
  method DoTrySetPerm(h: Hooks, s: Store, e: EdgeId, perm: set<Perm>, shared: set<Perm>, ghost outside: multiset<NodeId>) returns (t: Store, ok: bool)
    requires ValidStore(s, outside) && s.tran == [] && e in s.g.edges && s.g.edges[e].bs.Some? && Closed(s.g)
    ensures ValidStore(t, outside) && t.tran == []
    ensures PermTried(h, s.g, e, perm, shared, t.g, ok)
  {
    t, ok := TrySetPermOpen(h, s, e, perm, shared, outside);
    if ok {
      CommitsAll(t.g, t.tran);
    }
    t := Finalize(t, ok, outside);
    LoosenedLooser(s.g, e, perm, shared);
    if !ok && perm <= t.g.edges[e].perm && t.g.edges[e].shared <= shared {
      ok := true;
    }
  }

  // A graph of one node and one user.

  ghost predicate OneEdge(g: Graph, bs: Node, c: Edge) {
    && g == Graph(map[0 := bs], map[0 := c]) && c.owner.ByUser? && c.bs == Some(0)
    && bs.drv.Some? && bs.links == Links(None, None) && bs.inheritsFrom.None?
  }

  lemma OneEdgeValid(s: Store, bs: Node, c: Edge)
    requires OneEdge(s.g, bs, c) && s == Store(s.g, [], map[0 := 1], multiset{}, 1)
    ensures ValidStore(s, multiset{})
  {
    assert Parents(s.g, 0) == {0} && forall n :: Children(s.g, n) == {};
    assert InheritsRanked(s.g, map[]);
  }

  lemma OneEdgeSafe(h: Hooks, g: Graph, bs: Node, c: Edge)
    requires OneEdge(g, bs, c) && Resize in c.perm && bs.writable && forall perm, shared :: h.checkPerm(0, perm, shared)
    ensures SafeToLoosen(h, g, 0)
  {
    assert Parents(g, 0) == {0} && Children(g, 0) == {};
    assert Settled(h, g, 0) by {
      assert 0 in Parents(g, 0) && Resize in g.edges[0].perm;
    }
  }

  lemma OneEdgeRefuses(h: Hooks, g: Graph, bs: Node, c: Edge)
    requires OneEdge(g, bs, c) && Write in c.perm && Resize !in c.perm && !bs.aligned
    ensures !Settleable(h, g, [0])
  {
    assert Children(g, 0) == {} && Parents(g, 0) == {0};
    LeafSettleable(h, g, 0);
    assert 0 in Parents(g, 0) && Write in g.edges[0].perm;
    assert Written(g, 0) && !Resized(g, 0);
  }

  /**
   A loosening that has no effect although it reports success: on a node with an unaligned
   size, the only parent gives back the permission to resize but keeps writing.
   */
  lemma MisalignedLooseningFails()
    ensures exists h, s, e, perm, shared ::
              && ValidStore(s, multiset{}) && s.tran == [] && Closed(s.g) && e in s.g.edges && s.g.edges[e].bs.Some?
              && s.g.edges[e].bs.value in s.g.nodes && s.g.nodes[s.g.edges[e].bs.value].drv.Some?
              && Loosens(s.g.edges[e], perm, shared) && perm != s.g.edges[e].perm && SafeToLoosen(h, s.g, s.g.edges[e].bs.value)
              && forall g', ok :: PermTried(h, s.g, e, perm, shared, g', ok) ==> ok && g' == s.g
  {
    var h := Hooks((n, e, role, perm, shared) => (perm, shared), (n, perm, shared) => true);
    var bs := Node(Some(Driver(false, false, false, false)), Links(None, None), None, true, false, false, false, false);
    var c := Edge(ByUser(false), Some(0), {}, {Write, Resize}, {}, false);
    var g := Graph(map[0 := bs], map[0 := c]);
    var s := Store(g, [], map[0 := 1], multiset{}, 1);
    OneEdgeValid(s, bs, c);
    OneEdgeSafe(h, g, bs, c);
    var g1 := WithPerm(g, 0, {Write}, {});
    forall g', ok | PermTried(h, g, 0, {Write}, {}, g', ok)
      ensures ok && g' == g
    {
      OneEdgeRefuses(h, g1, bs, c.(perm := {Write}));
    }
    assert Loosens(s.g.edges[0], {Write}, {}) && {Write} != s.g.edges[0].perm by {
      assert Resize !in {Write};
    }
  }

  // ----- Detaching. -----

  lemma DetachedLooser(g: Graph, e: EdgeId)
    requires e in g.edges
    ensures Looser(g, Detached(g, e))
  {
  }

  /** The graph without edge e. */
  function Detached(g: Graph, e: EdgeId): Graph
    requires e in g.edges
  {
    var g1 := Pointed(g, e, None);
    g1.(edges := g1.edges - {e})
  }

  lemma DropFrees(s: Store, e: EdgeId)
    requires s.tran == [] && e in s.g.edges
    ensures Committed(Taken(s, e).g, Taken(s, e).tran) == Detached(s.g, e)
  {
    TakenFrees(s, e);
    NothingToFree();
  }

  /** bdrv_root_unref_child without the refresh: the edge goes, and the reference it held is dropped later. */
  method DropEdge(s: Store, e: EdgeId, ghost outside: multiset<NodeId>) returns (t: Store)
    requires ValidStore(s, outside) && s.tran == [] && PointAsserts(s.g, e, None)
    ensures ValidStore(t, outside) && t.tran == [] && t.g == Detached(s.g, e)
  {
    TakenValid(s, outside, e);
    DropFrees(s, e);
    t := Commit(Taken(s, e), outside);
  }

  /**
   What bdrv_root_unref_child comes to: the edge is gone, and the subtree it led to is
   settled if that is possible; after a safe graph this is so exactly if no size and no
   driver refuses.
   */
  ghost predicate ChildDropped(h: Hooks, g: Graph, e: EdgeId, g': Graph)
    requires Closed(g) && e in g.edges && g.edges[e].bs.Some?
  {
    var g1, n := Detached(g, e), g.edges[e].bs.value;
    Closed(g1) && g' == SettledIfPossible(h, g1, n) && LoosenedRight(h, g, g1, n, g')
  }

  /** bdrv_root_unref_child; errors of the refresh are ignored. */
  method DoUnrefChild(h: Hooks, s: Store, e: EdgeId, ghost outside: multiset<NodeId>) returns (t: Store)
    requires ValidStore(s, outside) && s.tran == [] && PointAsserts(s.g, e, None) && Closed(s.g)
    ensures ValidStore(t, outside) && t.tran == []
    ensures ChildDropped(h, s.g, e, t.g)
  {
    var n := s.g.edges[e].bs.value;
    t := DropEdge(s, e, outside);
    DetachedLooser(s.g, e);
    t := RefreshPerms(h, t, n, outside, s.g);
  }

  // ----- Attaching. -----

  /** A caller gives up a reference: it will be dropped later. */
  lemma ReferenceHandedOver(s: Store, outside: multiset<NodeId>, n: NodeId)
    requires ValidStore(s, outside) && outside[n] > 0
    ensures ValidStore(s.(scheduled := s.scheduled + multiset{n}), outside - multiset{n})
  {
    var s', outside' := s.(scheduled := s.scheduled + multiset{n}), outside - multiset{n};
    assert forall m :: s'.scheduled[m] + outside'[m] == s.scheduled[m] + outside[m];
  }

  /** When bdrv_attach_child succeeds: the edge can be made, and the result can be settled. */
  ghost predicate CanAttach(h: Hooks, g: Graph, e: EdgeId, parent: NodeId, child: NodeId, role: set<Role>)
    requires parent in g.nodes && child in g.nodes
  {
    AttachAllowed(h, g, parent, child, role) && Settleable(h, WithNewChild(h, g, e, parent, child, role), [parent])
  }

  /** bdrv_attach_child up to the end of its transaction. */
  method AttachOpen(h: Hooks, s: Store, parent: NodeId, child: NodeId, role: set<Role>, ghost outside: multiset<NodeId>) returns (t: Store, ok: bool)
    requires ValidStore(s, outside) && s.tran == [] && parent in s.g.nodes && child in s.g.nodes && TakesChild(s.g.nodes[parent], role)
    ensures Rolls(s, t, outside)
    ensures ok <==> CanAttach(h, s.g, s.nextEdge, parent, child, role)
    ensures ok ==> t.g == Settling(h, WithNewChild(h, s.g, s.nextEdge, parent, child, role), [parent]) && ToFree(t.tran) == {}
  {
    var e;
    t, e := AttachChildNoperm(h, s, parent, child, role, outside);
    ok := e.Some?;
    if ok {
      ghost var asked, list := AskedOfNew(h, s.g, parent, child, role), [];
      AttachFreesNothing(s, parent, child, role, asked.0, asked.1);
      t, ok, list := RefreshSubtree(h, t, parent, outside);
    }
  }

  /** bdrv_attach_child: takes over the caller's reference to the child, whether it succeeds or not. */
  method DoAttachChild(h: Hooks, s: Store, parent: NodeId, child: NodeId, role: set<Role>, ghost outside: multiset<NodeId>) returns (t: Store, ok: bool)
    requires ValidStore(s, outside) && s.tran == [] && parent in s.g.nodes && child in s.g.nodes && TakesChild(s.g.nodes[parent], role)
    requires outside[child] > 0
    ensures ValidStore(t, outside - multiset{child}) && t.tran == []
    ensures ok <==> CanAttach(h, s.g, s.nextEdge, parent, child, role)
    ensures t.g == if ok then Settling(h, WithNewChild(h, s.g, s.nextEdge, parent, child, role), [parent]) else s.g
  {
    t, ok := AttachOpen(h, s, parent, child, role, outside);
    if ok {
      CommitsAll(t.g, t.tran);
    }
    t := Finalize(t, ok, outside);
    ReferenceHandedOver(t, outside, child);
    t := t.(scheduled := t.scheduled + multiset{child});
  }

  /** A graph without edges whose nodes have no links is valid. */
  lemma FreshGraph(g: Graph)
    requires g.edges == map[]
    requires forall n :: n in g.nodes ==> g.nodes[n].links == Links(None, None) && g.nodes[n].inheritsFrom.None?
    ensures ValidGraph(g) && forall n :: Parents(g, n) == {}
  {
    assert forall n :: Parents(g, n) == {} && Children(g, n) == {};
    assert InheritsRanked(g, map[]);
  }

  lemma JustOpened(s: Store, outside: multiset<NodeId>)
    requires s.g.edges == map[] && s.tran == [] && s.scheduled == multiset{} && outside == multiset(s.g.nodes.Keys)
    requires s.refcnt == map n | n in s.g.nodes :: 1
    requires forall n :: n in s.g.nodes ==> s.g.nodes[n].links == Links(None, None) && s.g.nodes[n].inheritsFrom.None?
    ensures ValidStore(s, outside)
  {
    FreshGraph(s.g);
    assert ValidLog(s.g, []);
    assert Aborted(s.g, []) == s.g;
  }

  /**
   The global graph.  Whatever operations run on it, in whatever order, it has no loop, its
   links match its edges, and each reference count is the number of incoming edges plus the
   references held outside and those still to be dropped.
   */
  class Layer {
    const h: Hooks
    var s: Store
    ghost var outside: multiset<NodeId> // references held by callers and by the monitor

    ghost predicate Valid()
      reads this
    {
      ValidStore(s, outside) && s.tran == [] && ValidLog(s.g, [])
    }

    /** Nodes just opened: nothing attached yet, and each referenced by whoever opened it. */
    constructor (h: Hooks, nodes: map<NodeId, Node>)
      requires forall n :: n in nodes ==> nodes[n].links == Links(None, None) && nodes[n].inheritsFrom.None?
      ensures Valid() && this.h == h && s.g == Graph(nodes, map[]) && outside == multiset(nodes.Keys)
    {
      this.h := h;
      s := Store(Graph(nodes, map[]), [], map n | n in nodes :: 1, multiset{}, 0);
      outside := multiset(nodes.Keys);
      new;
      JustOpened(s, outside);
    }

    lemma NoLoop()
      requires Valid()
      ensures Acyclic(s.g) && Closed(s.g)
      ensures forall n :: n in s.g.nodes ==> n in s.refcnt && s.refcnt[n] == |Parents(s.g, n)| + s.scheduled[n] + outside[n]
    {
    }

    method Append(bsNew: NodeId, bsTop: NodeId) returns (ok: bool)
      requires Valid() && bsNew in s.g.nodes && bsTop in s.g.nodes && TakesChild(s.g.nodes[bsNew], BackingRole(s.g.nodes[bsNew]))
      modifies `s
      ensures Valid()
      ensures ok <==> CanAppend(h, old(s.g), old(s.nextEdge), bsNew, bsTop)
      ensures s.g == if ok then Settling(h, AppendGraph(h, old(s.g), old(s.nextEdge), bsNew, bsTop), [bsNew]) else old(s.g)
    {
      s, ok := DoAppend(h, s, bsNew, bsTop, outside);
    }

    method ReplaceNode(from: NodeId, to: NodeId, autoSkip: bool) returns (ok: bool)
      requires Valid() && from in s.g.nodes && to in s.g.nodes && from != to
      modifies `s
      ensures Valid()
      ensures ok <==> CanReplace(old(s.g), from, to, autoSkip) && Settleable(h, Redirected(old(s.g), Movable(old(s.g), from, to), to), [from, to])
      ensures s.g == if ok then Settling(h, Redirected(old(s.g), Movable(old(s.g), from, to), to), [from, to]) else old(s.g)
    {
      s, ok := DoReplaceNode(h, s, from, to, autoSkip, outside);
    }

    method SetBackingHd(bs: NodeId, backing: Option<NodeId>) returns (ok: bool)
      requires Valid() && bs in s.g.nodes && (backing.Some? ==> backing.value in s.g.nodes) && SettableLink(s.g.nodes[bs], true)
      modifies `s
      ensures Valid()
      ensures ok <==> CanSetBacking(h, old(s.g), old(s.nextEdge), bs, backing)
      ensures s.g == if ok then BackingGraph(h, old(s.g), old(s.nextEdge), bs, backing) else old(s.g)
    {
      s, ok := DoSetBacking(h, s, bs, backing, outside);
    }

    method AttachChild(parent: NodeId, child: NodeId, role: set<Role>) returns (ok: bool)
      requires Valid() && parent in s.g.nodes && child in s.g.nodes && TakesChild(s.g.nodes[parent], role) && outside[child] > 0
      modifies `s, `outside
      ensures Valid() && outside == old(outside) - multiset{child}
      ensures ok <==> CanAttach(h, old(s.g), old(s.nextEdge), parent, child, role)
      ensures s.g == if ok then Settling(h, WithNewChild(h, old(s.g), old(s.nextEdge), parent, child, role), [parent]) else old(s.g)
    {
      s, ok := DoAttachChild(h, s, parent, child, role, outside);
      outside := outside - multiset{child};
    }

    method RootUnrefChild(e: EdgeId)
      requires Valid() && PointAsserts(s.g, e, None)
      modifies `s
      ensures Valid() && Closed(old(s.g)) && ChildDropped(h, old(s.g), e, s.g)
    {
      s := DoUnrefChild(h, s, e, outside);
    }

    method ChildTrySetPerm(e: EdgeId, perm: set<Perm>, shared: set<Perm>) returns (ok: bool)
      requires Valid() && e in s.g.edges && s.g.edges[e].bs.Some?
      modifies `s
      ensures Valid() && Closed(old(s.g)) && PermTried(h, old(s.g), e, perm, shared, s.g, ok)
    {
      s, ok := DoTrySetPerm(h, s, e, perm, shared, outside);
    }

    /** A scheduled bdrv_unref runs; another reference is left. */
    method DropScheduled(n: NodeId)
      requires Valid() && n in s.g.nodes && s.scheduled[n] > 0 && s.refcnt[n] > 1
      modifies `s
      ensures Valid() && s.g == old(s.g)
    {
      UnrefScheduled(s, outside, n);
      s := s.(refcnt := s.refcnt[n := s.refcnt[n] - 1], scheduled := s.scheduled - multiset{n});
    }
  }

  lemma UnrefScheduled(s: Store, outside: multiset<NodeId>, n: NodeId)
    requires ValidStore(s, outside) && s.tran == [] && n in s.g.nodes && s.scheduled[n] > 0 && s.refcnt[n] > 1
    ensures ValidStore(s.(refcnt := s.refcnt[n := s.refcnt[n] - 1], scheduled := s.scheduled - multiset{n}), outside)
  {
    var s' := s.(refcnt := s.refcnt[n := s.refcnt[n] - 1], scheduled := s.scheduled - multiset{n});
    forall m | m in s.g.nodes
      ensures s'.refcnt[m] == Refs(s'.g, s'.tran, s'.scheduled, outside, m) && s'.refcnt[m] > 0
    {
      Referenced(s, outside, m);
      assert s'.scheduled[m] == s.scheduled[m] - if m == n then 1 else 0;
    }
    CommitEnds(s', outside);
  }
}
