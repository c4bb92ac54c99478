/**
 The steps that the graph operations are made of.  Each takes the store and returns the
 next one: every step keeps it valid and leaves alone what an abort would restore.
 */
module BlockSteps {
  import opened Wrappers
  import opened BlockGraph
  import opened BlockPerms
  import opened BlockTransactions
  import opened BlockStore

  /** A step that can still be rolled back. */
  ghost predicate Rolls(s: Store, t: Store, outside: multiset<NodeId>) {
    && ValidStore(s, outside) && ValidStore(t, outside)
    && Aborted(t.g, t.tran) == Aborted(s.g, s.tran)
  }

  // ----- The end of a transaction. -----

  /** tran_abort: the callbacks run newest first; none trips over an assertion, and no node loses its last reference. */
  method Abort(s: Store, ghost outside: multiset<NodeId>) returns (t: Store)
    requires ValidStore(s, outside)
    ensures ValidStore(t, outside) && t.tran == [] && t.g == Aborted(s.g, s.tran)
  {
    t := s;
    while t.tran != []
      invariant Aborting(t, outside) && Aborted(t.g, t.tran) == Aborted(s.g, s.tran) && t.nextEdge == s.nextEdge
      decreases |t.tran|
    {
      var u := t.tran[|t.tran| - 1];
      UndoneAborting(t, outside, u);
      t := UndoneStore(t, u);
    }
  }

  /** tran_commit: frees the removed edges and schedules the references that records held. */
  method Commit(s: Store, ghost outside: multiset<NodeId>) returns (t: Store)
    requires ValidStore(s, outside)
    ensures ValidStore(t, outside) && t.tran == [] && t.g == Committed(s.g, s.tran)
  {
    t := s;
    CommitStarts(s, outside);
    while t.tran != []
      invariant Committing(t, outside) && Committed(t.g, t.tran) == Committed(s.g, s.tran)
      decreases |t.tran|
    {
      var u := t.tran[|t.tran| - 1];
      CommitStepKeeps(t, outside, u);
      t := CommitStep(t, u);
    }
    CommitEnds(t, outside);
    assert t.g.edges - ToFree([]) == t.g.edges;
  }

  /** tran_finalize. */
  method Finalize(s: Store, ok: bool, ghost outside: multiset<NodeId>) returns (t: Store)
    requires ValidStore(s, outside)
    ensures ValidStore(t, outside) && t.tran == []
    ensures t.g == if ok then Committed(s.g, s.tran) else Aborted(s.g, s.tran)
  {
    if ok {
      t := Commit(s, outside);
    } else {
      t := Abort(s, outside);
    }
  }

  // ----- Permissions. -----

  /** bdrv_drv_set_perm: the driver may refuse; otherwise it is told on commit. */
  method DrvSetPerm(h: Hooks, s: Store, n: NodeId, perm: set<Perm>, shared: set<Perm>, ghost outside: multiset<NodeId>)
    returns (t: Store, ok: bool)
    requires ValidStore(s, outside) && n in s.g.nodes
    ensures Rolls(s, t, outside) && OnlyPerms(s, t) && t.g == s.g
    ensures ok <==> (s.g.nodes[n].drv.Some? ==> h.checkPerm(n, perm, shared))
  {
    t, ok := s, true;
    if s.g.nodes[n].drv.Some? {
      if !h.checkPerm(n, perm, shared) {
        return t, false;
      }
      IdleValid(s, outside, DriverPerm(n));
      PushOnlyPerms(s.tran, DriverPerm(n));
      t := s.(tran := s.tran + [DriverPerm(n)]);
    }
  }

  method SetChildPerms(h: Hooks, s: Store, n: NodeId, perm: set<Perm>, shared: set<Perm>, ghost outside: multiset<NodeId>)
    returns (t: Store)
    requires ValidStore(s, outside) && n in s.g.nodes && s.g.nodes[n].drv.Some? && perm == CumPerm(s.g, n) && shared == CumShared(s.g, n)
    ensures Rolls(s, t, outside) && OnlyPerms(s, t) && Closed(s.g) && t.g == Refreshed(h, s.g, n)
  {
    ghost var done;
    t, done := AskChildren(h, s, n, perm, shared);
    AllPermitted(h, s, outside, n, done);
  }

  /** bdrv_node_refresh_perm. */
  method NodeRefreshPerm(h: Hooks, s: Store, n: NodeId, ghost outside: multiset<NodeId>) returns (t: Store, ok: bool)
    requires ValidStore(s, outside) && n in s.g.nodes
    ensures Rolls(s, t, outside) && OnlyPerms(s, t) && Closed(s.g)
    ensures ok <==> Granted(h, s.g, n, CumPerm(s.g, n), CumShared(s.g, n))
    ensures ok ==> t.g == Refreshed(h, s.g, n)
  {
    t := s;
    var perm, shared := GetCumulativePerm(s.g, n);
    if (Write in perm || WriteUnchanged in perm) && !s.g.nodes[n].writable {
      return t, false;
    }
    if (Write in perm || WriteUnchanged in perm) && Resize !in perm && !s.g.nodes[n].aligned {
      return t, false;
    }
    if s.g.nodes[n].drv.None? {
      return t, true;
    }
    t, ok := DrvSetPerm(h, s, n, perm, shared, outside);
    if ok {
      if !s.g.nodes[n].drv.value.hasChildPerm {
        assert Children(s.g, n) == {};
      }
      ghost var t0 := t;
      t := SetChildPerms(h, t, n, perm, shared, outside);
      OnlyPermsTrans(s, t0, t);
    }
  }

  /** bdrv_do_refresh_perms: succeeds exactly if RefreshAll does, with its result. */
  method DoRefreshPerms(h: Hooks, s: Store, list: seq<NodeId>, ghost outside: multiset<NodeId>) returns (t: Store, ok: bool)
    requires ValidStore(s, outside) && forall n :: n in list ==> n in s.g.nodes
    ensures Rolls(s, t, outside) && OnlyPerms(s, t) && Closed(s.g)
    ensures ok <==> RefreshAll(h, s.g, list).Some?
    ensures ok ==> t.g == RefreshAll(h, s.g, list).value
  {
    t := s;
    var i := 0;
    while i < |list|
      invariant 0 <= i <= |list|
      invariant Rolls(s, t, outside) && OnlyPerms(s, t) && Closed(s.g) && Closed(t.g)
      invariant RefreshAll(h, s.g, list) == RefreshAll(h, t.g, list[i..])
    {
      var n, rest := list[i], list[i..];
      assert rest[0] == n && rest[1..] == list[i + 1..];
      var conflict := ParentPermsConflict(t.g, n);
      if conflict {
        return t, false;
      }
      ghost var t0 := t;
      t, ok := NodeRefreshPerm(h, t, n, outside);
      OnlyPermsTrans(s, t0, t);
      if !ok {
        return t, false;
      }
      i := i + 1;
    }
    return t, true;
  }

  /** Node n is one of the roots or below one. */
  ghost predicate Below(g: Graph, roots: seq<NodeId>, n: NodeId) {
    exists r :: r in roots && Reaches(g, r, n)
  }

  /** Graph g' has all nodes at or below the roots settled, by changing only permissions on edges held there. */
  ghost predicate SettledBelow(h: Hooks, g: Graph, roots: seq<NodeId>, g': Graph) {
    && SameShape(g, g') && Closed(g')
    && (forall n :: n in g.nodes && Below(g, roots, n) ==> Settled(h, g', n))
    && (forall e :: e in g.edges && g'.edges[e] != g.edges[e] ==>
          && g.edges[e].bs.Some? && g.edges[e].owner.ByNode? && Below(g, roots, g.edges[e].owner.node)
          && g.edges[e].owner.node in g.nodes && g.nodes[g.edges[e].owner.node].drv.Some?)
  }

  /** Permissions can be chosen so that everything at or below the roots is settled. */
  ghost predicate Settleable(h: Hooks, g: Graph, roots: seq<NodeId>) {
    exists g' :: SettledBelow(h, g, roots, g')
  }

  /** The graph with everything at or below the roots settled; RefreshDecides shows that there is only one. */
  ghost function Settling(h: Hooks, g: Graph, roots: seq<NodeId>): (r: Graph)
    requires Settleable(h, g, roots)
    ensures SettledBelow(h, g, roots, r)
  {
    var g' :| SettledBelow(h, g, roots, g');
    g'
  }

  /** The list holds the roots and all below them. */
  ghost predicate Lists(g: Graph, roots: seq<NodeId>, list: seq<NodeId>) {
    Topological(g, list) && forall n :: n in list <==> Below(g, roots, n)
  }

  /** The loop of bdrv_list_refresh_perms: repeated calls of the search share one list. */
  method SortBelow(g: Graph, roots: seq<NodeId>) returns (list: seq<NodeId>)
    requires Closed(g) && Acyclic(g) && forall r :: r in roots ==> r in g.nodes
    ensures Lists(g, roots, list) && forall n :: n in list ==> n in g.nodes
  {
    list := [];
    var found := {};
    var i := 0;
    while i < |roots|
      invariant 0 <= i <= |roots| && found <= g.nodes.Keys && forall n :: n in found <==> n in list
      invariant Topological(g, list) && (forall n :: n in list ==> Below(g, roots, n))
      invariant forall j :: 0 <= j < i ==> roots[j] in list
    {
      ghost var list0 := list;
      list, found := TopologicalDfs(g, list, found, roots[i]);
      assert forall n :: n in list && n !in list0 ==> Reaches(g, roots[i], n);
      i := i + 1;
    }
    forall n | Below(g, roots, n)
      ensures n in list
    {
      var r :| r in roots && Reaches(g, r, n);
      ListClosed(g, list, r, n);
    }
  }

  lemma ListClosed(g: Graph, list: seq<NodeId>, r: NodeId, n: NodeId)
    requires Topological(g, list) && r in list && Reaches(g, r, n)
    ensures n in list
  {
    forall a, b | a in (set x | x in list) && Arrow(g, a, b)
      ensures b in list
    {
      var i :| 0 <= i < |list| && list[i] == a;
      assert b in list[i + 1..];
    }
    ReachStays(g, (set x | x in list), r, n);
  }

  lemma RefreshedBelow(h: Hooks, g: Graph, roots: seq<NodeId>, list: seq<NodeId>)
    requires Closed(g) && Lists(g, roots, list) && (forall n :: n in list ==> n in g.nodes) && RefreshAll(h, g, list).Some?
    ensures SettledBelow(h, g, roots, RefreshAll(h, g, list).value)
  {
    RefreshSettles(h, g, list);
  }

  lemma NotRefreshable(h: Hooks, g: Graph, roots: seq<NodeId>, list: seq<NodeId>, g': Graph)
    requires Closed(g) && Lists(g, roots, list) && (forall n :: n in list ==> n in g.nodes) && SettledBelow(h, g, roots, g')
    ensures RefreshAll(h, g, list) == Some(g')
  {
    RefreshIsComplete(h, g, list, g');
  }

  /** A refresh of such a list settles everything below the roots if that is possible at all. */
  lemma RefreshDecides(h: Hooks, g: Graph, roots: seq<NodeId>, list: seq<NodeId>)
    requires Closed(g) && Lists(g, roots, list) && (forall n :: n in list ==> n in g.nodes)
    ensures RefreshAll(h, g, list) == if Settleable(h, g, roots) then Some(Settling(h, g, roots)) else None
    ensures forall g' :: SettledBelow(h, g, roots, g') ==> g' == Settling(h, g, roots)
  {
    if RefreshAll(h, g, list).Some? {
      RefreshedBelow(h, g, roots, list);
    }
    forall g' | SettledBelow(h, g, roots, g')
      ensures RefreshAll(h, g, list) == Some(g')
    {
      NotRefreshable(h, g, roots, list, g');
    }
  }

  /** A node without children can be settled exactly if it serves its parents as they are. */
  lemma LeafSettleable(h: Hooks, g: Graph, n: NodeId)
    requires Closed(g) && n in g.nodes && Children(g, n) == {}
    ensures Settleable(h, g, [n]) <==> ServesParents(h, g, n)
  {
    SettledMeans(h, g, n);
    forall m: NodeId
      ensures Below(g, [n], m) <==> m == n
    {
      LeafReaches(g, n, m);
    }
    if ServesParents(h, g, n) {
      assert SettledBelow(h, g, [n], g);
    }
    if g' :| SettledBelow(h, g, [n], g') {
      LeafKeepsEdges(h, g, n, g');
    }
  }

  lemma LeafKeepsEdges(h: Hooks, g: Graph, n: NodeId, g': Graph)
    requires Children(g, n) == {} && SettledBelow(h, g, [n], g') && forall m :: Below(g, [n], m) <==> m == n
    ensures g' == g
  {
    forall e | e in g.edges
      ensures g'.edges[e] == g.edges[e]
    {
      assert e !in Children(g, n);
    }
    assert g'.edges == g.edges;
  }

  lemma LeafReaches(g: Graph, n: NodeId, m: NodeId)
    requires Children(g, n) == {}
    ensures Reaches(g, n, m) <==> m == n
  {
    ReachesSelf(g, n);
    if Reaches(g, n, m) && m != n {
      var next := ReachesFirst(g, n, m);
    }
  }

  /**
   bdrv_list_refresh_perms: success means that everything at or below the given nodes is
   settled, and failure that no choice of permissions there would settle it.
   */
  method ListRefreshPerms(h: Hooks, s: Store, roots: seq<NodeId>, ghost outside: multiset<NodeId>) returns (t: Store, ok: bool)
    requires ValidStore(s, outside) && forall r :: r in roots ==> r in s.g.nodes
    ensures Rolls(s, t, outside) && OnlyPerms(s, t)
    ensures ok <==> Settleable(h, s.g, roots)
    ensures ok ==> t.g == Settling(h, s.g, roots)
  {
    var list := SortBelow(s.g, roots);
    t, ok := DoRefreshPerms(h, s, list, outside);
    RefreshDecides(h, s.g, roots, list);
  }
}
