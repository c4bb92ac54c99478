/**
 Edits of the block graph as functions of the graph: pointing an edge elsewhere, with
 the bs->file and bs->backing links that go with it, its inverse, and why no edit that
 the searches let through closes a loop.
 */
module BlockEdits {
  import opened Wrappers
  import opened BlockGraph
  import opened BlockPerms

  // ----- bs->file and bs->backing. -----

  datatype Slot = NoSlot | FileSlot | BackingSlot

  /** Which link of the parent a child of this role becomes (bdrv_child_cb_attach). */
  function SlotOf(drv: Driver, role: set<Role>): Slot {
    if drv.isFilter || FilteredRole in role then
      if PrimaryRole in role then if drv.filteredChildIsBacking then BackingSlot else FileSlot else NoSlot
    else if CowRole in role then BackingSlot
    else if PrimaryRole in role then FileSlot
    else NoSlot
  }

  /** The assertions of bdrv_child_cb_attach. */
  predicate AttachAsserts(drv: Driver, links: Links, role: set<Role>) {
    if drv.isFilter || FilteredRole in role then
      && CowRole !in role
      && if PrimaryRole in role then FilteredRole in role && links.backing.None? && links.file.None? else FilteredRole !in role
    else if CowRole in role then
      drv.supportsBacking && PrimaryRole !in role && links.backing.None?
    else
      PrimaryRole in role ==> links.file.None?
  }

  /** The part of those assertions that concerns the driver, and that only filters pair a filtered child with a backing one. */
  predicate RoleFits(drv: Driver, role: set<Role>) {
    if drv.isFilter || FilteredRole in role then
      && CowRole !in role && (PrimaryRole in role <==> FilteredRole in role)
      && (!drv.isFilter ==> !drv.supportsBacking && !drv.filteredChildIsBacking)
    else
      CowRole in role ==> drv.supportsBacking && PrimaryRole !in role
  }

  function Link(links: Links, slot: Slot): Option<EdgeId> {
    match slot
    case NoSlot => None
    case FileSlot => links.file
    case BackingSlot => links.backing
  }

  function Attach(drv: Driver, links: Links, e: EdgeId, role: set<Role>): Links {
    match SlotOf(drv, role)
    case NoSlot => links
    case FileSlot => links.(file := Some(e))
    case BackingSlot => links.(backing := Some(e))
  }

  /** bdrv_child_cb_detach. */
  function Detach(links: Links, e: EdgeId): Links {
    if links.backing == Some(e) then links.(backing := None)
    else if links.file == Some(e) then links.(file := None)
    else links
  }

  /** Node p's links name exactly its children of the matching roles, and every child fits its driver. */
  ghost predicate LinksAt(g: Graph, p: NodeId)
    requires p in g.nodes
  {
    var links := g.nodes[p].links;
    match g.nodes[p].drv
    case None => Children(g, p) == {} && links == Links(None, None)
    case Some(drv) =>
      && (forall e :: e in Children(g, p) ==> RoleFits(drv, g.edges[e].role))
      && (forall e :: links.file == Some(e) <==> e in Children(g, p) && SlotOf(drv, g.edges[e].role) == FileSlot)
      && (forall e :: links.backing == Some(e) <==> e in Children(g, p) && SlotOf(drv, g.edges[e].role) == BackingSlot)
  }

  /**
   What the links of a node name: the backing child, if it has one; the primary child, in the
   place its driver uses; and nothing else.
   */
  lemma LinksName(g: Graph, p: NodeId, e: EdgeId)
    requires p in g.nodes && LinksAt(g, p) && g.nodes[p].drv.Some? && e in Children(g, p)
    ensures var drv, links, role := g.nodes[p].drv.value, g.nodes[p].links, g.edges[e].role;
            && (CowRole in role ==> links.backing == Some(e) && links.file != Some(e))
            && (PrimaryRole in role && drv.isFilter && drv.filteredChildIsBacking ==> links.backing == Some(e) && links.file != Some(e))
            && (PrimaryRole in role && !(drv.isFilter && drv.filteredChildIsBacking) ==> links.file == Some(e) && links.backing != Some(e))
            && (CowRole !in role && PrimaryRole !in role ==> links.backing != Some(e) && links.file != Some(e))
  {
  }

  /** Where every child fits its driver, the assertions hold for a new child that fits and whose link is free. */
  lemma AttachAssertsHold(g: Graph, p: NodeId, role: set<Role>)
    requires p in g.nodes && LinksAt(g, p) && g.nodes[p].drv.Some? && RoleFits(g.nodes[p].drv.value, role)
    requires Link(g.nodes[p].links, SlotOf(g.nodes[p].drv.value, role)).None?
    ensures AttachAsserts(g.nodes[p].drv.value, g.nodes[p].links, role)
  {
    var drv, links := g.nodes[p].drv.value, g.nodes[p].links;
    if links.file.Some? {
      assert RoleFits(drv, g.edges[links.file.value].role);
    }
    if links.backing.Some? {
      assert RoleFits(drv, g.edges[links.backing.value].role);
    }
  }

  // ----- Pointing an edge elsewhere. -----

  /** The links of the node that holds edge e after e was pointed from `was` to `target`. */
  function Relinked(drv: Option<Driver>, links: Links, e: EdgeId, role: set<Role>, was: Option<NodeId>, target: Option<NodeId>): Links {
    var links1 := if was.Some? then Detach(links, e) else links;
    if target.Some? && drv.Some? then Attach(drv.value, links1, e, role) else links1
  }

  function Holder(g: Graph, e: EdgeId, target: Option<NodeId>): Node
    requires e in g.edges && g.edges[e].owner.ByNode? && g.edges[e].owner.node in g.nodes
  {
    var c := g.edges[e];
    var bs := g.nodes[c.owner.node];
    bs.(links := Relinked(bs.drv, bs.links, e, c.role, c.bs, target))
  }

  /** bdrv_replace_child_noperm: edge e now points to another node, or to none. */
  function Pointed(g: Graph, e: EdgeId, target: Option<NodeId>): (r: Graph)
    requires e in g.edges
    ensures r.edges.Keys == g.edges.Keys && r.nodes.Keys == g.nodes.Keys
  {
    var c := g.edges[e];
    Graph(
      if c.owner.ByNode? && c.owner.node in g.nodes then g.nodes[c.owner.node := Holder(g, e, target)] else g.nodes,
      g.edges[e := c.(bs := target)])
  }

  /** The assertions of bdrv_replace_child_noperm and of the attach callback it runs, which needs a driver. */
  predicate PointAsserts(g: Graph, e: EdgeId, target: Option<NodeId>) {
    && e in g.edges && !g.edges[e].frozen && g.edges[e].bs != target
    && (g.edges[e].owner.ByNode? ==> g.edges[e].owner.node in g.nodes && HolderAsserts(g.nodes[g.edges[e].owner.node], e, g.edges[e], target))
  }

  predicate HolderAsserts(bs: Node, e: EdgeId, c: Edge, target: Option<NodeId>) {
    && bs.drv.Some?
    && (target.Some? ==> AttachAsserts(bs.drv.value, if c.bs.Some? then Detach(bs.links, e) else bs.links, c.role))
  }

  /** The graphs the edits keep: closed, without loops, links exact. */
  ghost predicate ValidGraph(g: Graph) {
    Proper(g) && Acyclic(g) && (forall p :: p in g.nodes ==> LinksAt(g, p)) && InheritsEnds(g)
  }

  /** Following inherits_from ends. */
  ghost predicate InheritsEnds(g: Graph) {
    exists rank :: InheritsRanked(g, rank)
  }

  ghost predicate InheritsRanked(g: Graph, rank: map<NodeId, nat>) {
    forall n :: n in g.nodes && g.nodes[n].inheritsFrom.Some? ==>
      var m := g.nodes[n].inheritsFrom.value;
      m in g.nodes && n in rank && m in rank && rank[m] < rank[n]
  }

  lemma PointedChildren(g: Graph, e: EdgeId, target: Option<NodeId>, n: NodeId)
    requires e in g.edges
    ensures Children(Pointed(g, e, target), n) ==
            if g.edges[e].owner != ByNode(n) then Children(g, n)
            else if target.Some? then Children(g, n) + {e} else Children(g, n) - {e}
    ensures Parents(Pointed(g, e, target), n) == if target == Some(n) then Parents(g, n) + {e} else Parents(g, n) - {e}
  {
  }

  /** What relinking does to each link. */
  lemma RelinkedSlots(drv: Driver, links: Links, e: EdgeId, role: set<Role>, was: Option<NodeId>, target: Option<NodeId>)
    requires links.file == Some(e) || links.backing == Some(e) ==> was.Some? && links.file != links.backing
    ensures var r, slot := Relinked(Some(drv), links, e, role, was, target), SlotOf(drv, role);
            && r.file == (if slot == FileSlot && target.Some? then Some(e) else if links.file == Some(e) then None else links.file)
            && r.backing == (if slot == BackingSlot && target.Some? then Some(e) else if links.backing == Some(e) then None else links.backing)
  {
  }

  /** Links stay exact when an edge is pointed elsewhere within the assertions. */
  lemma PointedLinks(g: Graph, e: EdgeId, target: Option<NodeId>, p: NodeId)
    requires p in g.nodes && LinksAt(g, p) && PointAsserts(g, e, target)
    requires g.edges[e].owner == ByNode(p) && target.Some? ==> RoleFits(g.nodes[p].drv.value, g.edges[e].role)
    ensures LinksAt(Pointed(g, e, target), p)
  {
    PointedChildren(g, e, target, p);
    if g.edges[e].owner == ByNode(p) {
      RelinkedSlots(g.nodes[p].drv.value, g.nodes[p].links, e, g.edges[e].role, g.edges[e].bs, target);
    }
  }

  /** Pointing an edge back restores the graph exactly, and the assertions on the way back hold. */
  lemma PointBack(g: Graph, e: EdgeId, target: Option<NodeId>)
    requires PointAsserts(g, e, target) && (g.edges[e].owner.ByNode? ==> LinksAt(g, g.edges[e].owner.node))
    ensures var g' := Pointed(g, e, target); PointAsserts(g', e, g.edges[e].bs) && Pointed(g', e, g.edges[e].bs) == g
  {
    var g', was := Pointed(g, e, target), g.edges[e].bs;
    assert Pointed(g', e, was).edges == g.edges;
    if g.edges[e].owner.ByNode? {
      NodeBack(g, e, target, g.edges[e].owner.node);
      assert Pointed(g', e, was).nodes == g.nodes;
    }
  }

  lemma NodeBack(g: Graph, e: EdgeId, target: Option<NodeId>, p: NodeId)
    requires PointAsserts(g, e, target) && g.edges[e].owner == ByNode(p) && LinksAt(g, p)
    ensures var drv, links, role, was := g.nodes[p].drv, g.nodes[p].links, g.edges[e].role, g.edges[e].bs;
            var links' := Relinked(drv, links, e, role, was, target);
            && Relinked(drv, links', e, role, target, was) == links
            && (was.Some? ==> AttachAsserts(drv.value, if target.Some? then Detach(links', e) else links', role))
  {
    var drv, links, role, was := g.nodes[p].drv.value, g.nodes[p].links, g.edges[e].role, g.edges[e].bs;
    if was.Some? {
      assert e in Children(g, p);
      PointedLinks(g, e, None, p);
      AttachAssertsHold(Pointed(g, e, None), p, role);
    } else {
      assert links.file != Some(e) && links.backing != Some(e);
    }
  }

  // ----- No loops. -----

  /** Every arrow of g' is one of g or the new one from p to c. */
  ghost predicate AtMostOneMore(g: Graph, g': Graph, p: NodeId, c: NodeId) {
    forall a, b :: Arrow(g', a, b) ==> Arrow(g, a, b) || (a == p && b == c)
  }

  lemma {:induction false} PathWithOneMore(g: Graph, g': Graph, p: NodeId, c: NodeId, path: seq<NodeId>, i: nat)
    requires AtMostOneMore(g, g', p, c) && Path(g', path) && i < |path|
    ensures Reaches(g, path[0], path[i]) || (Reaches(g, path[0], p) && Reaches(g, c, path[i]))
  {
    if i == 0 {
      ReachesSelf(g, path[0]);
    } else {
      PathWithOneMore(g, g', p, c, path, i - 1);
      var a, b := path[i - 1], path[i];
      assert Arrow(g', a, b);
      if Arrow(g, a, b) {
        ArrowReaches(g, a, b);
        if Reaches(g, path[0], a) {
          ReachesTrans(g, path[0], a, b);
        } else {
          ReachesTrans(g, c, a, b);
        }
      } else {
        ReachesSelf(g, c);
      }
    }
  }

  /** A new arrow closes no loop if its start is not in the subtree of its end. */
  lemma OneMoreKeepsAcyclic(g: Graph, g': Graph, p: NodeId, c: NodeId)
    requires Acyclic(g) && AtMostOneMore(g, g', p, c) && !Reaches(g, c, p)
    ensures Acyclic(g')
  {
    forall a, b | Arrow(g', a, b)
      ensures !Reaches(g', b, a)
    {
      if path :| PathFromTo(g', path, b, a) {
        PathWithOneMore(g, g', p, c, path, |path| - 1);
        if Arrow(g, a, b) {
          ArrowReaches(g, a, b);
          if Reaches(g, b, p) && Reaches(g, c, a) {
            ReachesTrans(g, c, a, b);
            ReachesTrans(g, c, b, p);
          }
        }
      }
    }
  }

  /** Arrows only go away. */
  lemma FewerKeepsAcyclic(g: Graph, g': Graph)
    requires Acyclic(g) && forall a, b :: Arrow(g', a, b) ==> Arrow(g, a, b)
    ensures Acyclic(g')
  {
    forall a, b | Arrow(g', a, b)
      ensures !Reaches(g', b, a)
    {
      if path :| PathFromTo(g', path, b, a) {
        assert PathFromTo(g, path, b, a);
      }
    }
  }

  /** Pointing an edge at a node adds at most the arrow from its holder to that node. */
  lemma PointedArrows(g: Graph, e: EdgeId, target: Option<NodeId>)
    requires e in g.edges
    ensures target.Some? && g.edges[e].owner.ByNode? ==> AtMostOneMore(g, Pointed(g, e, target), g.edges[e].owner.node, target.value)
    ensures target.None? || g.edges[e].owner.ByUser? ==> forall a, b :: Arrow(Pointed(g, e, target), a, b) ==> Arrow(g, a, b)
  {
    var g' := Pointed(g, e, target);
    forall a: NodeId, b: NodeId | Arrow(g', a, b)
      ensures Arrow(g, a, b) || (target == Some(b) && g.edges[e].owner == ByNode(a))
    {
      PointedChildren(g, e, target, a);
      var d :| d in Children(g', a) && g'.edges[d].bs == Some(b);
      if d != e {
        assert d in Children(g, a) && g.edges[d].bs == Some(b);
      }
    }
  }

  lemma PointedAcyclic(g: Graph, e: EdgeId, target: Option<NodeId>)
    requires Acyclic(g) && e in g.edges
    requires target.Some? && g.edges[e].owner.ByNode? ==> !Reaches(g, target.value, g.edges[e].owner.node)
    ensures Acyclic(Pointed(g, e, target))
  {
    PointedArrows(g, e, target);
    if target.Some? && g.edges[e].owner.ByNode? {
      OneMoreKeepsAcyclic(g, Pointed(g, e, target), g.edges[e].owner.node, target.value);
    } else {
      FewerKeepsAcyclic(g, Pointed(g, e, target));
    }
  }

  /**
   should_update_child is exact: redirecting an edge to another node closes a loop if and
   only if the edge hangs below that node.
   */
  lemma RedirectClosesLoop(g: Graph, e: EdgeId, to: NodeId)
    requires Acyclic(g) && e in g.edges && g.edges[e].bs.Some?
    ensures Acyclic(Pointed(g, e, Some(to))) <==> !HangsBelow(g, e, to)
  {
    if HangsBelow(g, e, to) {
      var q, g' := g.edges[e].owner.node, Pointed(g, e, Some(to));
      PathKept(g, e, to);
      PointedChildren(g, e, Some(to), q);
      assert e in Children(g', q) && g'.edges[e].bs == Some(to);
      assert Arrow(g', q, to);
    } else {
      PointedAcyclic(g, e, Some(to));
    }
  }

  /** Without loops a path to the holder of e does not lead through e. */
  lemma PathKept(g: Graph, e: EdgeId, to: NodeId)
    requires Acyclic(g) && HangsBelow(g, e, to)
    ensures Reaches(Pointed(g, e, Some(to)), to, g.edges[e].owner.node)
  {
    var q, g' := g.edges[e].owner.node, Pointed(g, e, Some(to));
    var path :| PathFromTo(g, path, to, q);
    forall i | 0 <= i < |path| - 1
      ensures Arrow(g', path[i], path[i + 1])
    {
      assert Arrow(g, path[i], path[i + 1]);
      if path[i] == q {
        NoReturn(g, path, i);
      }
      var d :| d in Children(g, path[i]) && g.edges[d].bs == Some(path[i + 1]);
      PointedChildren(g, e, Some(to), path[i]);
      assert d in Children(g', path[i]) && g'.edges[d] == g.edges[d];
    }
    assert PathFromTo(g', path, to, q);
  }

  lemma NoReturn(g: Graph, path: seq<NodeId>, i: nat)
    requires Acyclic(g) && Path(g, path) && i < |path| - 1
    ensures path[i] != path[|path| - 1]
  {
    assert Arrow(g, path[i], path[i + 1]);
    var rest := path[i + 1..];
    forall j | 0 <= j < |rest| - 1
      ensures Arrow(g, rest[j], rest[j + 1])
    {
      assert Arrow(g, path[i + 1 + j], path[i + 2 + j]);
    }
    assert PathFromTo(g, rest, path[i + 1], path[|path| - 1]);
  }
}
