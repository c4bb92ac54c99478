/**
 Attaching a child and moving the parents of one node to another, without permission
 update: exactly which edges move, and why no loop is closed.
 */
module BlockMoves {
  import opened Wrappers
  import opened BlockGraph
  import opened BlockPerms
  import opened BlockEdits
  import opened BlockTransactions
  import opened BlockStore
  import opened BlockSteps

  // ----- Attaching. -----

  /** What the parent node asks of a child it does not have yet. */
  ghost function AskedOfNew(h: Hooks, g: Graph, parent: NodeId, child: NodeId, role: set<Role>): (set<Perm>, set<Perm>)
    requires child in g.nodes
  {
    ChildPerm(h, parent, None, g.nodes[child], role, CumPerm(g, parent), CumShared(g, parent))
  }

  /** The graph with a new edge e from parent to child, on which the parent asks for what it wants. */
  ghost function WithNewChild(h: Hooks, g: Graph, e: EdgeId, parent: NodeId, child: NodeId, role: set<Role>): Graph
    requires child in g.nodes
  {
    var asked := AskedOfNew(h, g, parent, child, role);
    Pointed(g.(edges := g.edges[e := Edge(ByNode(parent), None, role, asked.0, asked.1, false)]), e, Some(child))
  }

  /** The errors of bdrv_attach_child_noperm and bdrv_attach_child_common. */
  ghost predicate AttachAllowed(h: Hooks, g: Graph, parent: NodeId, child: NodeId, role: set<Role>)
    requires parent in g.nodes && child in g.nodes
  {
    && !Reaches(g, child, parent)
    && (g.nodes[child].inactive ==> g.nodes[parent].inactive && AskedOfNew(h, g, parent, child, role).0 <= {ConsistentRead})
  }

  /** The search before an attach is exact: the new edge closes a loop if and only if the parent is below the child. */
  lemma AttachClosesLoop(h: Hooks, g: Graph, e: EdgeId, parent: NodeId, child: NodeId, role: set<Role>)
    requires Acyclic(g) && e !in g.edges && child in g.nodes
    ensures Acyclic(WithNewChild(h, g, e, parent, child, role)) <==> !Reaches(g, child, parent)
  {
    var asked := AskedOfNew(h, g, parent, child, role);
    var g1 := g.(edges := g.edges[e := Edge(ByNode(parent), None, role, asked.0, asked.1, false)]);
    var g' := WithNewChild(h, g, e, parent, child, role);
    SparesArrows(g, g1, e);
    SameArrowsSameReach(g, g1, child, parent);
    if !Reaches(g, child, parent) {
      FewerKeepsAcyclic(g, g1);
      PointedAcyclic(g1, e, Some(child));
    } else {
      assert e in Children(g', parent) && g'.edges[e].bs == Some(child);
      assert Arrow(g', parent, child);
      MoreArrowsMoreReach(g1, e, child, parent);
    }
  }

  /** The errors of an attach, written out. */
  lemma AttachAllowedMeans(h: Hooks, g: Graph, e: EdgeId, parent: NodeId, child: NodeId, role: set<Role>)
    requires Acyclic(g) && e !in g.edges && parent in g.nodes && child in g.nodes
    ensures AttachAllowed(h, g, parent, child, role) <==>
            && Acyclic(WithNewChild(h, g, e, parent, child, role))
            && (g.nodes[child].inactive ==>
                  g.nodes[parent].inactive && h.childPerm(parent, None, role, CumPerm(g, parent), CumShared(g, parent)).0 <= {ConsistentRead})
  {
    AttachClosesLoop(h, g, e, parent, child, role);
  }

  /** An edge that points nowhere adds no arrow. */
  lemma SparesArrows(g: Graph, g1: Graph, e: EdgeId)
    requires e !in g.edges && e in g1.edges && g1 == g.(edges := g.edges[e := g1.edges[e]]) && g1.edges[e].bs.None?
    ensures forall a, b :: Arrow(g1, a, b) <==> Arrow(g, a, b)
  {
    forall a: NodeId, b: NodeId
      ensures Arrow(g1, a, b) <==> Arrow(g, a, b)
    {
      assert Children(g1, a) == Children(g, a);
    }
  }

  lemma MoreArrowsMoreReach(g1: Graph, e: EdgeId, child: NodeId, b: NodeId)
    requires e in g1.edges && g1.edges[e].bs.None? && Reaches(g1, child, b)
    ensures Reaches(Pointed(g1, e, Some(child)), child, b)
  {
    var g' := Pointed(g1, e, Some(child));
    var path :| PathFromTo(g1, path, child, b);
    forall i | 0 <= i < |path| - 1
      ensures Arrow(g', path[i], path[i + 1])
    {
      assert Arrow(g1, path[i], path[i + 1]);
      var d :| d in Children(g1, path[i]) && g1.edges[d].bs == Some(path[i + 1]);
      assert d in Children(g', path[i]) && g'.edges[d] == g1.edges[d];
    }
    assert PathFromTo(g', path, child, b);
  }

  /** What the assertions on the way demand of the parent: a driver that takes such a child, and a free link. */
  predicate TakesChild(bs: Node, role: set<Role>) {
    bs.drv.Some? && bs.drv.value.hasChildPerm && RoleFits(bs.drv.value, role) && Link(bs.links, SlotOf(bs.drv.value, role)).None?
  }

  /** bdrv_attach_child_noperm. */
  method AttachChildNoperm(h: Hooks, s: Store, parent: NodeId, child: NodeId, role: set<Role>, ghost outside: multiset<NodeId>)
    returns (t: Store, e: Option<EdgeId>)
    requires ValidStore(s, outside) && parent in s.g.nodes && child in s.g.nodes && TakesChild(s.g.nodes[parent], role)
    ensures Rolls(s, t, outside)
    ensures e.Some? <==> AttachAllowed(h, s.g, parent, child, role)
    ensures e.None? ==> t == s
    ensures e.Some? ==> e == Some(s.nextEdge) && child in s.refcnt &&
                        var asked := AskedOfNew(h, s.g, parent, child, role);
                        t == Attached(s, ByNode(parent), child, role, asked.0, asked.1)
  {
    t, e := s, None;
    var loop := RecurseHasChild(s.g, child, parent);
    if loop {
      return;
    }
    if s.g.nodes[child].inactive && !s.g.nodes[parent].inactive {
      return;
    }
    var perm, shared := GetCumulativePerm(s.g, parent);
    var asked := ChildPerm(h, parent, None, s.g.nodes[child], role, perm, shared);
    if s.g.nodes[child].inactive && !(asked.0 <= {ConsistentRead}) {
      return;
    }
    AttachedValid(s, outside, ByNode(parent), child, role, asked.0, asked.1);
    t, e := Attached(s, ByNode(parent), child, role, asked.0, asked.1), Some(s.nextEdge);
  }

  // ----- Redirecting. -----

  /** The edges in `moved` point to another node now. */
  function Redirected(g: Graph, moved: set<EdgeId>, to: NodeId): (r: Graph)
    ensures r.edges.Keys == g.edges.Keys && r.nodes == g.nodes
  {
    g.(edges := map e | e in g.edges :: if e in moved then g.edges[e].(bs := Some(to)) else g.edges[e])
  }

  /** An edge in use can be detached and attached again: its holder's links are as before. */
  lemma Relinks(g: Graph, e: EdgeId, to: NodeId)
    requires e in g.edges && g.edges[e].bs.Some? && g.edges[e].owner.ByNode? && g.edges[e].owner.node in g.nodes
    requires LinksAt(g, g.edges[e].owner.node) && !g.edges[e].frozen
    ensures var bs := g.nodes[g.edges[e].owner.node];
            && bs.drv.Some? && RoleFits(bs.drv.value, g.edges[e].role)
            && AttachAsserts(bs.drv.value, Detach(bs.links, e), g.edges[e].role)
            && Holder(g, e, Some(to)) == bs
  {
    var p, c := g.edges[e].owner.node, g.edges[e];
    assert e in Children(g, p);
    RelinkedSlots(g.nodes[p].drv.value, g.nodes[p].links, e, c.role, c.bs, Some(to));
    PointedLinks(g, e, None, p);
    AttachAssertsHold(Pointed(g, e, None), p, c.role);
  }

  /** Redirecting an edge that does not hang below the new node meets every assertion and closes no loop. */
  lemma MayRedirect(g: Graph, e: EdgeId, to: NodeId)
    requires ValidGraph(g) && e in g.edges && g.edges[e].bs.Some? && g.edges[e].bs != Some(to) && to in g.nodes
    requires !g.edges[e].frozen && !HangsBelow(g, e, to)
    ensures MayPoint(g, e, Some(to)) && Pointed(g, e, Some(to)) == Redirected(g, {e}, to)
  {
    if g.edges[e].owner.ByNode? {
      assert e in Children(g, g.edges[e].owner.node);
      Relinks(g, e, to);
    }
    assert Pointed(g, e, Some(to)).edges == Redirected(g, {e}, to).edges;
    assert Pointed(g, e, Some(to)).nodes == g.nodes;
  }

  /** Redirecting such edges does not change what is below the new node. */
  lemma SubtreeKept(g: Graph, moved: set<EdgeId>, to: NodeId, x: NodeId)
    requires Closed(g) && to in g.nodes && forall e :: e in moved ==> e in g.edges && g.edges[e].bs.Some? && !HangsBelow(g, e, to)
    ensures Reaches(Redirected(g, moved, to), to, x) <==> Reaches(g, to, x)
  {
    var g' := Redirected(g, moved, to);
    ReachesSelf(g, to);
    ReachesSelf(g', to);
    var below := Subtree(g, to);
    forall a: NodeId, b: NodeId | a in below
      ensures Arrow(g', a, b) <==> Arrow(g, a, b)
    {
      SameArrowsBelow(g, moved, to, a, b);
    }
    forall a: NodeId, b: NodeId | a in below && Arrow(g, a, b)
      ensures b in below
    {
      ArrowReaches(g, a, b);
      ReachesTrans(g, to, a, b);
    }
    if Reaches(g', to, x) {
      ReachStays(g', below, to, x);
    }
    if path :| PathFromTo(g, path, to, x) {
      forall i | 0 <= i < |path| - 1
        ensures Arrow(g', path[i], path[i + 1])
      {
        PathStays(g, below, path, i);
      }
      assert PathFromTo(g', path, to, x);
    }
  }

  lemma SameArrowsBelow(g: Graph, moved: set<EdgeId>, to: NodeId, a: NodeId, b: NodeId)
    requires Reaches(g, to, a) && forall e :: e in moved ==> e in g.edges && g.edges[e].bs.Some? && !HangsBelow(g, e, to)
    ensures Arrow(Redirected(g, moved, to), a, b) <==> Arrow(g, a, b)
  {
    var g' := Redirected(g, moved, to);
    assert forall e :: e in Children(g, a) ==> g'.edges[e] == g.edges[e];
    assert Children(g', a) == Children(g, a);
    if e :| e in Children(g, a) && g.edges[e].bs == Some(b) {
      assert e in Children(g', a) && g'.edges[e].bs == Some(b);
    }
    if e :| e in Children(g', a) && g'.edges[e].bs == Some(b) {
      assert e in Children(g, a) && g.edges[e].bs == Some(b);
    }
  }

  /** The parents of `from` that may be redirected: not tied to their node, and not below the new one. */
  ghost function Movable(g: Graph, from: NodeId, to: NodeId): set<EdgeId> {
    set c | c in Parents(g, from) && g.edges[c].owner != ByUser(true) && !HangsBelow(g, c, to)
  }

  /** The searches of the loop give the same answers as one made before it. */
  lemma HangsStill(g: Graph, moved: set<EdgeId>, to: NodeId, c: EdgeId)
    requires Closed(g) && to in g.nodes && c in g.edges && c !in moved
    requires forall e :: e in moved ==> e in g.edges && g.edges[e].bs.Some? && !HangsBelow(g, e, to)
    ensures HangsBelow(Redirected(g, moved, to), c, to) <==> HangsBelow(g, c, to)
  {
    if g.edges[c].owner.ByNode? {
      SubtreeKept(g, moved, to, g.edges[c].owner.node);
    }
  }

  lemma RedirectedOneMore(g: Graph, moved: set<EdgeId>, to: NodeId, c: EdgeId)
    ensures Redirected(Redirected(g, moved, to), {c}, to) == Redirected(g, moved + {c}, to)
  {
    assert Redirected(Redirected(g, moved, to), {c}, to).edges == Redirected(g, moved + {c}, to).edges;
  }

  /** The parents looked at so far: those that may move did, and none of them was frozen. */
  ghost predicate Moving(s: Store, t: Store, from: NodeId, to: NodeId, todo: set<EdgeId>, moved: set<EdgeId>) {
    && todo <= Parents(s.g, from)
    && moved == Movable(s.g, from, to) - todo
    && t.g == Redirected(s.g, moved, to) && t.nextEdge == s.nextEdge && ToFree(t.tran) == ToFree(s.tran)
    && forall c :: c in moved ==> !s.g.edges[c].frozen
  }

  lemma MoveGraph(s: Store, t: Store, from: NodeId, to: NodeId, todo: set<EdgeId>, moved: set<EdgeId>, c: EdgeId)
    requires ValidLog(s.g, s.tran) && ValidLog(t.g, t.tran) && Moving(s, t, from, to, todo, moved) && from != to && to in s.g.nodes
    requires c in todo && c in Movable(s.g, from, to) && !s.g.edges[c].frozen
    ensures MayPoint(t.g, c, Some(to)) && t.g.edges[c].bs.Some?
    ensures Pointed(t.g, c, Some(to)) == Redirected(s.g, moved + {c}, to)
  {
    HangsStill(s.g, moved, to, c);
    MayRedirect(t.g, c, to);
    RedirectedOneMore(s.g, moved, to, c);
  }

  lemma MovedOneMore(s: Store, t: Store, t': Store, from: NodeId, to: NodeId, todo: set<EdgeId>, moved: set<EdgeId>, c: EdgeId)
    requires Moving(s, t, from, to, todo, moved) && c in todo && c in Movable(s.g, from, to) && !s.g.edges[c].frozen
    requires t'.g == Redirected(s.g, moved + {c}, to) && t'.nextEdge == t.nextEdge && ToFree(t'.tran) == ToFree(t.tran)
    ensures Moving(s, t', from, to, todo - {c}, moved + {c})
  {
    assert moved + {c} == Movable(s.g, from, to) - (todo - {c});
  }

  lemma MoveNext(s: Store, t: Store, outside: multiset<NodeId>, from: NodeId, to: NodeId, todo: set<EdgeId>, moved: set<EdgeId>, c: EdgeId)
    requires Rolls(s, t, outside) && Moving(s, t, from, to, todo, moved) && from != to && to in s.g.nodes
    requires c in todo && c in Movable(s.g, from, to) && !s.g.edges[c].frozen
    ensures c in t.g.edges && to in t.refcnt
    ensures var t' := Replaced(t, c, Some(to)); Rolls(s, t', outside) && Moving(s, t', from, to, todo - {c}, moved + {c})
  {
    MoveGraph(s, t, from, to, todo, moved, c);
    ReplacedValid(t, outside, c, Some(to));
    PushOnlyPerms(t.tran, ReplaceChild(c, t.g.edges[c].bs));
    MovedOneMore(s, t, Replaced(t, c, Some(to)), from, to, todo, moved, c);
  }

  lemma SkipNext(s: Store, t: Store, from: NodeId, to: NodeId, todo: set<EdgeId>, moved: set<EdgeId>, c: EdgeId)
    requires Moving(s, t, from, to, todo, moved) && c !in Movable(s.g, from, to)
    ensures Moving(s, t, from, to, todo - {c}, moved)
  {
    assert moved == Movable(s.g, from, to) - (todo - {c});
  }

  /** When bdrv_replace_node_noperm succeeds: no edge to move is frozen, and no edge is skipped that may not be. */
  ghost predicate CanReplace(g: Graph, from: NodeId, to: NodeId, autoSkip: bool) {
    && (forall c :: c in Movable(g, from, to) ==> !g.edges[c].frozen)
    && (autoSkip || Movable(g, from, to) == Parents(g, from))
  }

  /** The state of the loop. */
  ghost predicate Underway(s: Store, t: Store, from: NodeId, to: NodeId, autoSkip: bool, todo: set<EdgeId>, moved: set<EdgeId>, outside: multiset<NodeId>) {
    && Rolls(s, t, outside) && Moving(s, t, from, to, todo, moved)
    && (autoSkip || Parents(s.g, from) - todo <= moved)
  }

  lemma CannotReplace(g: Graph, from: NodeId, to: NodeId, autoSkip: bool, c: EdgeId)
    requires c in Parents(g, from) && if c in Movable(g, from, to) then g.edges[c].frozen else !autoSkip
    ensures !CanReplace(g, from, to, autoSkip)
  {
  }

  lemma AllMoved(s: Store, t: Store, from: NodeId, to: NodeId, autoSkip: bool, moved: set<EdgeId>, outside: multiset<NodeId>)
    requires Underway(s, t, from, to, autoSkip, {}, moved, outside)
    ensures CanReplace(s.g, from, to, autoSkip) && Moving(s, t, from, to, {}, Movable(s.g, from, to))
  {
    assert moved == Movable(s.g, from, to);
  }

  lemma MovingStarts(s: Store, from: NodeId, to: NodeId)
    ensures Moving(s, s, from, to, Parents(s.g, from), {})
  {
    assert Redirected(s.g, {}, to).edges == s.g.edges;
  }

  /** The search made in the loop. */
  method MayMove(ghost s: Store, t: Store, ghost from: NodeId, to: NodeId, ghost todo: set<EdgeId>, ghost moved: set<EdgeId>, c: EdgeId) returns (r: bool)
    requires ValidLog(s.g, s.tran) && ValidLog(t.g, t.tran) && Moving(s, t, from, to, todo, moved) && to in s.g.nodes && c in todo
    ensures r <==> c in Movable(s.g, from, to)
    ensures c in t.g.edges && t.g.edges[c] == s.g.edges[c]
  {
    HangsStill(s.g, moved, to, c);
    r := ShouldUpdateChild(t.g, c, to);
  }

  /**
   bdrv_replace_node_noperm: fails exactly if an edge that would move is frozen, or if an
   edge would be skipped that may not be; otherwise exactly the movable edges move.
   */
  method ReplaceNodeNoperm(s: Store, from: NodeId, to: NodeId, autoSkip: bool, ghost outside: multiset<NodeId>) returns (t: Store, ok: bool)
    requires ValidStore(s, outside) && from in s.g.nodes && to in s.g.nodes && from != to
    ensures Rolls(s, t, outside)
    ensures ok <==> CanReplace(s.g, from, to, autoSkip)
    ensures ok ==> Moving(s, t, from, to, {}, Movable(s.g, from, to))
  {
    t := s;
    var todo := Parents(s.g, from);
    ghost var moved := {};
    MovingStarts(s, from, to);
    while todo != {}
      invariant Underway(s, t, from, to, autoSkip, todo, moved, outside)
      decreases todo
    {
      var c :| c in todo;
      var should := MayMove(s, t, from, to, todo, moved, c);
      if !should {
        if !autoSkip {
          CannotReplace(s.g, from, to, autoSkip, c);
          return t, false;
        }
        SkipNext(s, t, from, to, todo, moved, c);
      } else {
        if t.g.edges[c].frozen {
          CannotReplace(s.g, from, to, autoSkip, c);
          return t, false;
        }
        MoveNext(s, t, outside, from, to, todo, moved, c);
        t := Replaced(t, c, Some(to));
        moved := moved + {c};
      }
      todo := todo - {c};
    }
    AllMoved(s, t, from, to, autoSkip, moved, outside);
    return t, true;
  }

  /** An edge may move to another node unless it is a job's, which stays at its node, or would close a loop there. */
  ghost predicate MayGo(g: Graph, c: EdgeId, to: NodeId)
    requires c in g.edges
  {
    g.edges[c].owner != ByUser(true) && Acyclic(Pointed(g, c, Some(to)))
  }

  /** What replacing a node means: each of its parents that may go points to the new node, and all other edges are as they were. */
  lemma ReplaceMeans(g: Graph, from: NodeId, to: NodeId, autoSkip: bool)
    requires Acyclic(g)
    ensures var g' := Redirected(g, Movable(g, from, to), to);
            && g'.nodes == g.nodes && g'.edges.Keys == g.edges.Keys
            && forall c :: c in g.edges ==>
                 g'.edges[c] == if c in Parents(g, from) && MayGo(g, c, to) then g.edges[c].(bs := Some(to)) else g.edges[c]
    ensures CanReplace(g, from, to, autoSkip) <==>
            forall c :: c in Parents(g, from) ==> if MayGo(g, c, to) then !g.edges[c].frozen else autoSkip
  {
    forall c | c in Parents(g, from)
      ensures c in Movable(g, from, to) <==> MayGo(g, c, to)
    {
      RedirectClosesLoop(g, c, to);
    }
    assert Movable(g, from, to) == Parents(g, from) <==> forall c :: c in Parents(g, from) ==> c in Movable(g, from, to);
  }
}
