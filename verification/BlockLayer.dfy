/**
 The operations on the block graph: append, replace a node, set the backing file, attach,
 detach, change permissions.  Each either succeeds as a whole or leaves the graph exactly
 as it was, and each keeps it free of loops with correct reference counts.
 */
module BlockLayer {
  import opened Wrappers
  import opened BlockGraph
  import opened BlockPerms
  import opened BlockLoosening
  import opened BlockEdits
  import opened BlockTransactions
  import opened BlockStore
  import opened BlockSteps
  import opened BlockRefresh
  import opened BlockMoves
  import opened BlockBacking

  /** bdrv_backing_role. */
  function BackingRole(bs: Node): set<Role> {
    if bs.drv.Some? && bs.drv.value.isFilter then {FilteredRole, PrimaryRole} else {CowRole}
  }

  /** The edge points to the same node in both graphs. */
  ghost predicate SamePlace(g: Graph, g': Graph, e: EdgeId) {
    e in g.edges && e in g'.edges && g'.edges[e].bs == g.edges[e].bs && g'.edges[e].owner == g.edges[e].owner
  }

  /**
   After an append the new node holds an edge to the old top, linked as its driver, if it has
   one, calls for; the parents of the old top that may move point to the new node, and all
   other edges point where they did.
   */
  ghost predicate Appended(g: Graph, g': Graph, bsNew: NodeId, bsTop: NodeId, e: EdgeId) {
    && e !in g.edges && g'.edges.Keys == g.edges.Keys + {e}
    && g'.edges[e].owner == ByNode(bsNew) && g'.edges[e].bs == Some(bsTop)
    && bsNew in g.nodes && (g.nodes[bsNew].drv.Some? ==> LinkedOnTop(g, g', bsNew, e))
    && (forall c :: c in Movable(g, bsTop, bsNew) ==> g'.edges[c].bs == Some(bsNew) && g'.edges[c].owner == g.edges[c].owner)
    && (forall c :: c in g.edges && c !in Movable(g, bsTop, bsNew) ==> SamePlace(g, g', c))
  }

  /** The new edge is the backing link of the new node, or, for a filter, the link its driver uses. */
  ghost predicate LinkedOnTop(g: Graph, g': Graph, bsNew: NodeId, e: EdgeId) {
    && bsNew in g.nodes && bsNew in g'.nodes && e in g'.edges && g.nodes[bsNew].drv.Some?
    && var drv, links := g.nodes[bsNew].drv.value, g.nodes[bsNew].links;
       if drv.isFilter then
         && g'.edges[e].role == {FilteredRole, PrimaryRole}
         && g'.nodes[bsNew].links == if drv.filteredChildIsBacking then links.(backing := Some(e)) else links.(file := Some(e))
       else g'.edges[e].role == {CowRole} && g'.nodes[bsNew].links == links.(backing := Some(e))
  }

  /** The new edge stays where it is; of the other parents of the old top, the same ones may move as before the attach. */
  lemma MovableAfterAttach(g: Graph, e: EdgeId, c0: Edge, bsNew: NodeId, bsTop: NodeId)
    requires Acyclic(g) && e !in g.edges && c0.bs.None? && c0.owner == ByNode(bsNew)
    ensures Movable(Pointed(g.(edges := g.edges[e := c0]), e, Some(bsTop)), bsTop, bsNew) == Movable(g, bsTop, bsNew)
  {
    var g1 := g.(edges := g.edges[e := c0]);
    var g' := Pointed(g1, e, Some(bsTop));
    forall c: EdgeId
      ensures c in Movable(g', bsTop, bsNew) <==> c in Movable(g, bsTop, bsNew)
    {
      MovableAt(g, g1, e, bsNew, bsTop, c);
    }
  }

  lemma MovableAt(g: Graph, g1: Graph, e: EdgeId, bsNew: NodeId, bsTop: NodeId, c: EdgeId)
    requires Acyclic(g) && e !in g.edges && e in g1.edges && g1 == g.(edges := g.edges[e := g1.edges[e]])
    requires g1.edges[e].bs.None? && g1.edges[e].owner == ByNode(bsNew)
    ensures c in Movable(Pointed(g1, e, Some(bsTop)), bsTop, bsNew) <==> c in Movable(g, bsTop, bsNew)
  {
    var g' := Pointed(g1, e, Some(bsTop));
    if c == e {
      ReachesSelf(g', bsNew);
      assert HangsBelow(g', e, bsNew);
    } else {
      assert c in Parents(g', bsTop) <==> c in Parents(g, bsTop);
      if c in Parents(g, bsTop) {
        assert g'.edges[c] == g.edges[c];
        if g.edges[c].owner.ByNode? {
          ReachAfterAttach(g, g1, e, bsNew, bsTop, c);
        }
      }
    }
  }

  /** A parent of the old top is below the new node after the attach only if it was before. */
  lemma ReachAfterAttach(g: Graph, g1: Graph, e: EdgeId, bsNew: NodeId, bsTop: NodeId, c: EdgeId)
    requires Acyclic(g) && e !in g.edges && e in g1.edges && g1 == g.(edges := g.edges[e := g1.edges[e]])
    requires g1.edges[e].bs.None? && g1.edges[e].owner == ByNode(bsNew)
    requires c in Parents(g, bsTop) && g.edges[c].owner.ByNode?
    ensures Reaches(Pointed(g1, e, Some(bsTop)), bsNew, g.edges[c].owner.node) <==> Reaches(g, bsNew, g.edges[c].owner.node)
  {
    var g', q := Pointed(g1, e, Some(bsTop)), g.edges[c].owner.node;
    assert c in Children(g, q) && Arrow(g, q, bsTop);
    forall a: NodeId, b: NodeId
      ensures Arrow(g, a, b) ==> Arrow(g', a, b)
      ensures Arrow(g', a, b) ==> Arrow(g, a, b) || (a == bsNew && b == bsTop)
    {
      ArrowsAfterAttach(g, g1, e, bsNew, bsTop, a, b);
    }
    if path :| PathFromTo(g, path, bsNew, q) {
      assert PathFromTo(g', path, bsNew, q);
    }
    if path :| PathFromTo(g', path, bsNew, q) {
      PathWithOneMore(g, g', bsNew, bsTop, path, |path| - 1);
    }
  }

  lemma ArrowsAfterAttach(g: Graph, g1: Graph, e: EdgeId, bsNew: NodeId, bsTop: NodeId, a: NodeId, b: NodeId)
    requires e !in g.edges && e in g1.edges && g1 == g.(edges := g.edges[e := g1.edges[e]])
    requires g1.edges[e].bs.None? && g1.edges[e].owner == ByNode(bsNew)
    ensures var g' := Pointed(g1, e, Some(bsTop));
            && (Arrow(g, a, b) ==> Arrow(g', a, b))
            && (Arrow(g', a, b) ==> Arrow(g, a, b) || (a == bsNew && b == bsTop))
  {
    var g' := Pointed(g1, e, Some(bsTop));
    if d :| d in Children(g, a) && g.edges[d].bs == Some(b) {
      assert d in Children(g', a) && g'.edges[d].bs == Some(b);
    }
    if d :| d in Children(g', a) && g'.edges[d].bs == Some(b) {
      if d != e {
        assert d in Children(g, a) && g.edges[d].bs == Some(b);
      }
    }
  }

  lemma CommitsAll(g: Graph, tran: seq<Undo>)
    requires ToFree(tran) == {}
    ensures Committed(g, tran) == g
  {
    assert g.edges - {} == g.edges;
  }

  lemma NothingToFree()
    ensures ToFree([]) == {}
  {
  }

  lemma AttachFreesNothing(s: Store, bsNew: NodeId, bsTop: NodeId, role: set<Role>, perm: set<Perm>, shared: set<Perm>)
    requires bsTop in s.refcnt && s.tran == []
    ensures ToFree(Attached(s, ByNode(bsNew), bsTop, role, perm, shared).tran) == {}
  {
    NothingToFree();
    PushOnlyPerms(s.tran, AttachChild(s.nextEdge));
  }

  /** The graph that bdrv_append makes before it refreshes permissions: the new edge, and the movable parents on the new node. */
  ghost function AppendGraph(h: Hooks, g: Graph, e: EdgeId, bsNew: NodeId, bsTop: NodeId): Graph
    requires bsNew in g.nodes && bsTop in g.nodes
  {
    Redirected(WithNewChild(h, g, e, bsNew, bsTop, BackingRole(g.nodes[bsNew])), Movable(g, bsTop, bsNew), bsNew)
  }

  /** When bdrv_append succeeds: the edge can be made, no parent that would move is frozen, and the result can be settled. */
  ghost predicate CanAppend(h: Hooks, g: Graph, e: EdgeId, bsNew: NodeId, bsTop: NodeId)
    requires bsNew in g.nodes && bsTop in g.nodes
  {
    && AttachAllowed(h, g, bsNew, bsTop, BackingRole(g.nodes[bsNew])) && CanReplace(g, bsTop, bsNew, true)
    && Settleable(h, AppendGraph(h, g, e, bsNew, bsTop), [bsNew])
  }

  /** The attach neither frees nor blocks any parent of the old top. */
  lemma CanReplaceAfterAttach(h: Hooks, g: Graph, e: EdgeId, bsNew: NodeId, bsTop: NodeId, role: set<Role>)
    requires Acyclic(g) && e !in g.edges && bsTop in g.nodes
    ensures var a := WithNewChild(h, g, e, bsNew, bsTop, role);
            Movable(a, bsTop, bsNew) == Movable(g, bsTop, bsNew) && (CanReplace(a, bsTop, bsNew, true) <==> CanReplace(g, bsTop, bsNew, true))
  {
    var asked := AskedOfNew(h, g, bsNew, bsTop, role);
    MovableAfterAttach(g, e, Edge(ByNode(bsNew), None, role, asked.0, asked.1, false), bsNew, bsTop);
  }

  /** The first two steps of bdrv_append: attach, then move the other parents. */
  method AttachOnTop(h: Hooks, s: Store, bsNew: NodeId, bsTop: NodeId, role: set<Role>, ghost outside: multiset<NodeId>)
    returns (t: Store, ok: bool, ghost a: Store)
    requires ValidStore(s, outside) && s.tran == [] && bsNew in s.g.nodes && bsTop in s.g.nodes && TakesChild(s.g.nodes[bsNew], role)
    ensures Rolls(s, t, outside)
    ensures ok <==> AttachAllowed(h, s.g, bsNew, bsTop, role) && CanReplace(s.g, bsTop, bsNew, true)
    ensures ok ==> bsNew != bsTop && bsTop in s.refcnt &&
                   var asked := AskedOfNew(h, s.g, bsNew, bsTop, role);
                   && a == Attached(s, ByNode(bsNew), bsTop, role, asked.0, asked.1)
                   && a.g == WithNewChild(h, s.g, s.nextEdge, bsNew, bsTop, role)
                   && Moving(a, t, bsTop, bsNew, {}, Movable(s.g, bsTop, bsNew))
  {
    var child;
    t, child := AttachChildNoperm(h, s, bsNew, bsTop, role, outside);
    ok, a := child.Some?, t;
    if ok {
      assert bsNew != bsTop by {
        ReachesSelf(s.g, bsTop);
      }
      CanReplaceAfterAttach(h, s.g, s.nextEdge, bsNew, bsTop, role);
      t, ok := ReplaceNodeNoperm(t, bsTop, bsNew, true, outside);
    }
  }

  /** bdrv_append up to the end of its transaction. */
  method AppendOpen(h: Hooks, s: Store, bsNew: NodeId, bsTop: NodeId, ghost outside: multiset<NodeId>) returns (t: Store, ok: bool)
    requires ValidStore(s, outside) && s.tran == [] && bsNew in s.g.nodes && bsTop in s.g.nodes
    requires TakesChild(s.g.nodes[bsNew], BackingRole(s.g.nodes[bsNew]))
    ensures Rolls(s, t, outside)
    ensures ok <==> CanAppend(h, s.g, s.nextEdge, bsNew, bsTop)
    ensures ok ==> t.g == Settling(h, AppendGraph(h, s.g, s.nextEdge, bsNew, bsTop), [bsNew]) && ToFree(t.tran) == {}
  {
    var role := BackingRole(s.g.nodes[bsNew]);
    ghost var a, list;
    t, ok, a := AttachOnTop(h, s, bsNew, bsTop, role, outside);
    if ok {
      ghost var asked := AskedOfNew(h, s.g, bsNew, bsTop, role);
      AttachFreesNothing(s, bsNew, bsTop, role, asked.0, asked.1);
      t, ok, list := RefreshSubtree(h, t, bsNew, outside);
    }
  }

  /** What append comes to for the edges and for the subtree of the new node. */
  lemma AppendMoves(h: Hooks, g: Graph, e: EdgeId, bsNew: NodeId, bsTop: NodeId, g': Graph)
    requires bsNew in g.nodes && bsTop in g.nodes && e !in g.edges && AttachAllowed(h, g, bsNew, bsTop, BackingRole(g.nodes[bsNew]))
    requires SettledBelow(h, AppendGraph(h, g, e, bsNew, bsTop), [bsNew], g')
    ensures Appended(g, g', bsNew, bsTop, e) && Closed(g') && SettledUnder(h, g', bsNew)
  {
    SettledRoot(h, AppendGraph(h, g, e, bsNew, bsTop), [bsNew], g', bsNew);
    assert bsNew != bsTop by {
      ReachesSelf(g, bsTop);
    }
    assert e !in Movable(g, bsTop, bsNew);
    AppendLinks(h, g, e, bsNew, bsTop, g');
  }

  lemma AppendLinks(h: Hooks, g: Graph, e: EdgeId, bsNew: NodeId, bsTop: NodeId, g': Graph)
    requires bsNew in g.nodes && bsTop in g.nodes && e !in g.edges && SameShape(AppendGraph(h, g, e, bsNew, bsTop), g')
    ensures g.nodes[bsNew].drv.Some? ==> LinkedOnTop(g, g', bsNew, e)
  {
  }

  /**
   With the default permission functions an overlay only ever reads its backing file, while
   a filter asks of the node below exactly what is asked of itself.
   */
  lemma AppendAsks(h: Hooks, g: Graph, e: EdgeId, bsNew: NodeId, bsTop: NodeId, g': Graph)
    requires Appended(g, g', bsNew, bsTop, e) && Closed(g') && bsNew in g'.nodes && Settled(h, g', bsNew) && DefaultsAt(h, g', bsNew)
    requires g.nodes[bsNew].drv.Some? && g'.nodes[bsNew].drv == g.nodes[bsNew].drv
    ensures if g.nodes[bsNew].drv.value.isFilter then g'.edges[e].perm == CumPerm(g', bsNew) else g'.edges[e].perm <= {ConsistentRead}
  {
    SettledMeans(h, g', bsNew);
    assert e in Children(g', bsNew);
    RolePromises(g'.nodes[bsNew], g'.edges[e].role, CumPerm(g', bsNew), CumShared(g', bsNew));
  }

  /** bdrv_append. */
  method DoAppend(h: Hooks, s: Store, bsNew: NodeId, bsTop: NodeId, ghost outside: multiset<NodeId>) returns (t: Store, ok: bool)
    requires ValidStore(s, outside) && s.tran == [] && bsNew in s.g.nodes && bsTop in s.g.nodes
    requires TakesChild(s.g.nodes[bsNew], BackingRole(s.g.nodes[bsNew]))
    ensures ValidStore(t, outside) && t.tran == []
    ensures ok <==> CanAppend(h, s.g, s.nextEdge, bsNew, bsTop)
    ensures t.g == if ok then Settling(h, AppendGraph(h, s.g, s.nextEdge, bsNew, bsTop), [bsNew]) else s.g
  {
    t, ok := AppendOpen(h, s, bsNew, bsTop, outside);
    if ok {
      CommitsAll(t.g, t.tran);
    }
    t := Finalize(t, ok, outside);
  }

  // ----- Replacing a node. -----

  /** bdrv_replace_node_common up to the end of its transaction. */
  method ReplaceNodeOpen(h: Hooks, s: Store, from: NodeId, to: NodeId, autoSkip: bool, ghost outside: multiset<NodeId>) returns (t: Store, ok: bool)
    requires ValidStore(s, outside) && s.tran == [] && from in s.g.nodes && to in s.g.nodes && from != to
    ensures Rolls(s, t, outside)
    ensures ok <==> CanReplace(s.g, from, to, autoSkip) && Settleable(h, Redirected(s.g, Movable(s.g, from, to), to), [from, to])
    ensures ok ==> t.g == Settling(h, Redirected(s.g, Movable(s.g, from, to), to), [from, to]) && ToFree(t.tran) == {}
  {
    NothingToFree();
    t, ok := ReplaceNodeNoperm(s, from, to, autoSkip, outside);
    if ok {
      t, ok := ListRefreshPerms(h, t, [from, to], outside);
    }
  }

  /** bdrv_replace_node_common. */
  method DoReplaceNode(h: Hooks, s: Store, from: NodeId, to: NodeId, autoSkip: bool, ghost outside: multiset<NodeId>) returns (t: Store, ok: bool)
    requires ValidStore(s, outside) && s.tran == [] && from in s.g.nodes && to in s.g.nodes && from != to
    ensures ValidStore(t, outside) && t.tran == []
    ensures ok <==> CanReplace(s.g, from, to, autoSkip) && Settleable(h, Redirected(s.g, Movable(s.g, from, to), to), [from, to])
    ensures t.g == if ok then Settling(h, Redirected(s.g, Movable(s.g, from, to), to), [from, to]) else s.g
  {
    t, ok := ReplaceNodeOpen(h, s, from, to, autoSkip, outside);
    if ok {
      CommitsAll(t.g, t.tran);
    }
    t := Finalize(t, ok, outside);
  }

  // ----- Setting the backing file. -----

  /** After bdrv_set_backing_hd: the old backing edge is gone, the new one is in its place, all others are where they were. */
  ghost predicate BackingSet(g: Graph, g': Graph, bs: NodeId, backing: Option<NodeId>, e: EdgeId)
    requires bs in g.nodes
  {
    var link := g.nodes[bs].links.backing;
    && g'.edges.Keys == g.edges.Keys - OldLink(g.nodes[bs], true) + (if backing.Some? then {e} else {})
    && (forall c :: c in g.edges && Some(c) != link ==> SamePlace(g, g', c))
    && bs in g'.nodes && g'.nodes[bs].links.backing == (if backing.Some? then Some(e) else None)
    && (backing.Some? ==> g'.edges[e].owner == ByNode(bs) && g'.edges[e].bs == backing)
  }

  /** Freeing edges that point nowhere settles and unsettles nothing. */
  lemma FreeingKeepsSettled(h: Hooks, g: Graph, x: set<EdgeId>, n: NodeId)
    requires Closed(g) && (forall e :: e in x && e in g.edges ==> g.edges[e].bs.None?) && SettledUnder(h, g, n)
    ensures var g' := g.(edges := g.edges - x); Closed(g') && SettledUnder(h, g', n)
  {
    var g' := g.(edges := g.edges - x);
    assert forall m :: Children(g', m) == Children(g, m) && Parents(g', m) == Parents(g, m);
    forall a: NodeId, b: NodeId
      ensures Arrow(g', a, b) <==> Arrow(g, a, b)
    {
      if e :| e in Children(g, a) && g.edges[e].bs == Some(b) {
        assert e in Children(g', a) && g'.edges[e].bs == Some(b);
      }
    }
    forall m | m in g'.nodes && Reaches(g', n, m)
      ensures Settled(h, g', m)
    {
      SameArrowsSameReach(g, g', n, m);
      FreeingKeepsNode(h, g, g', m);
    }
  }

  lemma FreeingKeepsNode(h: Hooks, g: Graph, g': Graph, m: NodeId)
    requires Closed(g) && Closed(g') && g'.nodes == g.nodes && m in g.nodes && Settled(h, g, m)
    requires Children(g', m) == Children(g, m) && Parents(g', m) == Parents(g, m)
    requires forall e :: e in Children(g, m) + Parents(g, m) ==> g'.edges[e] == g.edges[e]
    ensures Settled(h, g', m)
  {
    assert CumPerm(g', m) == CumPerm(g, m) && CumShared(g', m) == CumShared(g, m);
  }

  /** When bdrv_set_backing_hd succeeds: the link may be changed, and the result can be settled. */
  ghost predicate CanSetBacking(h: Hooks, g: Graph, e: EdgeId, bs: NodeId, backing: Option<NodeId>)
    requires bs in g.nodes && (backing.Some? ==> backing.value in g.nodes)
  {
    LinkAllowed(h, g, bs, backing, true) && Settleable(h, LinkSet(h, g, e, bs, backing, true), [bs])
  }

  /** The result: the link changed, the subtree settled, and the old edge freed. */
  ghost function BackingGraph(h: Hooks, g: Graph, e: EdgeId, bs: NodeId, backing: Option<NodeId>): Graph
    requires bs in g.nodes && (backing.Some? ==> backing.value in g.nodes) && CanSetBacking(h, g, e, bs, backing)
  {
    var g1 := Settling(h, LinkSet(h, g, e, bs, backing, true), [bs]);
    g1.(edges := g1.edges - OldLink(g.nodes[bs], true))
  }

  /** What setting the backing file comes to for the edges... */
  lemma BackingMeans(h: Hooks, g: Graph, e: EdgeId, bs: NodeId, backing: Option<NodeId>)
    requires ValidGraph(g) && bs in g.nodes && (backing.Some? ==> backing.value in g.nodes) && SettableLink(g.nodes[bs], true) && e !in g.edges
    requires CanSetBacking(h, g, e, bs, backing)
    ensures BackingSet(g, BackingGraph(h, g, e, bs, backing), bs, backing, e)
  {
    var mid := LinkSet(h, g, e, bs, backing, true);
    LinkSetMeans(h, g, e, bs, backing, true);
    assert SettledBelow(h, mid, [bs], Settling(h, mid, [bs]));
    BackingPlaces(g, mid, Settling(h, mid, [bs]), e, bs, backing);
  }

  /** ...and for the permissions. */
  lemma BackingSettled(h: Hooks, g: Graph, e: EdgeId, bs: NodeId, backing: Option<NodeId>)
    requires ValidGraph(g) && bs in g.nodes && (backing.Some? ==> backing.value in g.nodes) && SettableLink(g.nodes[bs], true) && e !in g.edges
    requires CanSetBacking(h, g, e, bs, backing)
    ensures var g' := BackingGraph(h, g, e, bs, backing); Closed(g') && SettledUnder(h, g', bs)
  {
    var mid := LinkSet(h, g, e, bs, backing, true);
    LinkSetMeans(h, g, e, bs, backing, true);
    OldIsEmpty(g, mid, Settling(h, mid, [bs]), e, bs, backing);
    SettledRoot(h, mid, [bs], Settling(h, mid, [bs]), bs);
    FreeingKeepsSettled(h, Settling(h, mid, [bs]), OldLink(g.nodes[bs], true), bs);
  }

  lemma OldIsEmpty(g: Graph, mid: Graph, g1: Graph, e: EdgeId, bs: NodeId, backing: Option<NodeId>)
    requires bs in g.nodes && LinkChanged(g, mid, e, bs, backing, true) && SameShape(mid, g1)
    ensures forall x :: x in OldLink(g.nodes[bs], true) && x in g1.edges ==> g1.edges[x].bs.None?
  {
  }

  lemma BackingPlaces(g: Graph, mid: Graph, g1: Graph, e: EdgeId, bs: NodeId, backing: Option<NodeId>)
    requires bs in g.nodes && LinkChanged(g, mid, e, bs, backing, true) && SameShape(mid, g1) && e !in g.edges
    requires g.nodes[bs].links.backing.Some? ==> g.nodes[bs].links.backing.value in g.edges
    ensures BackingSet(g, g1.(edges := g1.edges - OldLink(g.nodes[bs], true)), bs, backing, e)
  {
  }

  /** bdrv_set_backing_hd up to the end of its transaction. */
  method SetBackingOpen(h: Hooks, s: Store, bs: NodeId, backing: Option<NodeId>, ghost outside: multiset<NodeId>) returns (t: Store, ok: bool)
    requires ValidStore(s, outside) && s.tran == [] && bs in s.g.nodes && (backing.Some? ==> backing.value in s.g.nodes)
    requires SettableLink(s.g.nodes[bs], true)
    ensures Rolls(s, t, outside)
    ensures ok <==> CanSetBacking(h, s.g, s.nextEdge, bs, backing)
    ensures ok ==> t.g == Settling(h, LinkSet(h, s.g, s.nextEdge, bs, backing, true), [bs])
    ensures ok ==> ToFree(t.tran) == ToFree(s.tran) + OldLink(s.g.nodes[bs], true)
  {
    t, ok := SetFileOrBackingNoperm(h, s, bs, backing, true, outside);
    if ok {
      ghost var list;
      t, ok, list := RefreshSubtree(h, t, bs, outside);
    }
  }

  lemma CommitsBacking(h: Hooks, g: Graph, e: EdgeId, bs: NodeId, backing: Option<NodeId>, g1: Graph, tran: seq<Undo>)
    requires bs in g.nodes && (backing.Some? ==> backing.value in g.nodes) && CanSetBacking(h, g, e, bs, backing)
    requires g1 == Settling(h, LinkSet(h, g, e, bs, backing, true), [bs]) && ToFree(tran) == ToFree([]) + OldLink(g.nodes[bs], true)
    ensures Committed(g1, tran) == BackingGraph(h, g, e, bs, backing)
  {
    NothingToFree();
    assert ToFree(tran) == OldLink(g.nodes[bs], true);
  }

  /** bdrv_set_backing_hd. */
  method DoSetBacking(h: Hooks, s: Store, bs: NodeId, backing: Option<NodeId>, ghost outside: multiset<NodeId>) returns (t: Store, ok: bool)
    requires ValidStore(s, outside) && s.tran == [] && bs in s.g.nodes && (backing.Some? ==> backing.value in s.g.nodes)
    requires SettableLink(s.g.nodes[bs], true)
    ensures ValidStore(t, outside) && t.tran == []
    ensures ok <==> CanSetBacking(h, s.g, s.nextEdge, bs, backing)
    ensures t.g == if ok then BackingGraph(h, s.g, s.nextEdge, bs, backing) else s.g
  {
    t, ok := SetBackingOpen(h, s, bs, backing, outside);
    if ok {
      CommitsBacking(h, s.g, s.nextEdge, bs, backing, t.g, t.tran);
    }
    t := Finalize(t, ok, outside);
  }
}
