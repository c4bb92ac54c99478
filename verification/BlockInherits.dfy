/**
 The inherits_from links: following them, and clearing those that point to a node whose
 child is taken away.
 */
module BlockInherits {
  import opened Wrappers
  import opened BlockGraph
  import opened BlockEdits
  import opened BlockTransactions
  import opened BlockStore
  import opened BlockSteps

  /** Node c inherits from node p, perhaps over several steps. */
  ghost predicate InheritsFrom(g: Graph, rank: map<NodeId, nat>, c: NodeId, p: NodeId)
    requires InheritsRanked(g, rank) && c in g.nodes
    decreases if c in rank then rank[c] else 0
  {
    c == p || (g.nodes[c].inheritsFrom.Some? && InheritsFrom(g, rank, g.nodes[c].inheritsFrom.value, p))
  }

  lemma {:induction false} InheritsLowersRank(g: Graph, rank: map<NodeId, nat>, c: NodeId, p: NodeId)
    requires InheritsRanked(g, rank) && c in g.nodes && InheritsFrom(g, rank, c, p) && c != p
    ensures p in g.nodes && c in rank && p in rank && rank[p] < rank[c]
    decreases if c in rank then rank[c] else 0
  {
    var m := g.nodes[c].inheritsFrom.value;
    if m != p {
      InheritsLowersRank(g, rank, m, p);
    }
  }

  lemma {:induction false} AnyRank(g: Graph, rank: map<NodeId, nat>, other: map<NodeId, nat>, c: NodeId, p: NodeId)
    requires InheritsRanked(g, rank) && InheritsRanked(g, other) && c in g.nodes
    ensures InheritsFrom(g, rank, c, p) <==> InheritsFrom(g, other, c, p)
    decreases if c in rank then rank[c] else 0
  {
    if c != p && g.nodes[c].inheritsFrom.Some? {
      AnyRank(g, rank, other, g.nodes[c].inheritsFrom.value, p);
    }
  }

  /** The same without mention of a rank. */
  ghost predicate Inherits(g: Graph, c: NodeId, p: NodeId)
    requires c in g.nodes
  {
    exists rank :: InheritsRanked(g, rank) && InheritsFrom(g, rank, c, p)
  }

  /** bdrv_inherits_from_recursive. */
  method InheritsFromRecursive(g: Graph, child0: Option<NodeId>, parent: NodeId, ghost rank: map<NodeId, nat>) returns (r: bool)
    requires InheritsRanked(g, rank) && (child0.Some? ==> child0.value in g.nodes)
    ensures r <==> child0.Some? && InheritsFrom(g, rank, child0.value, parent)
  {
    var child := child0;
    while child.Some? && child.value != parent
      invariant child.Some? ==> child.value in g.nodes
      invariant (child0.Some? && InheritsFrom(g, rank, child0.value, parent)) <==> (child.Some? && InheritsFrom(g, rank, child.value, parent))
      decreases if child.Some? then if child.value in rank then rank[child.value] + 1 else 1 else 0
    {
      child := g.nodes[child.value].inheritsFrom;
    }
    return child.Some?;
  }

  // ----- Clearing. -----

  /** The graph with the inherits_from links of these nodes cleared. */
  function Cleared(g: Graph, x: set<NodeId>): (r: Graph)
    ensures r.edges == g.edges && r.nodes.Keys == g.nodes.Keys
  {
    g.(nodes := map n | n in g.nodes :: if n in x then g.nodes[n].(inheritsFrom := None) else g.nodes[n])
  }

  /** Apart from edge c, root has no edge to node n. */
  ghost predicate NoOtherEdge(g: Graph, root: NodeId, c: EdgeId, n: NodeId) {
    forall d :: d in Children(g, root) && d != c ==> g.edges[d].bs != Some(n)
  }

  /** Nodes below edge c that inherit from root and are not also a child of root by another edge. */
  ghost function Orphans(g: Graph, root: NodeId, c: EdgeId): set<NodeId>
    requires c in g.edges && g.edges[c].bs.Some?
  {
    set n | n in g.nodes && g.nodes[n].inheritsFrom == Some(root) && Reaches(g, g.edges[c].bs.value, n) && NoOtherEdge(g, root, c, n)
  }

  /** A step that changes inherits_from links only. */
  ghost predicate OnlyInherits(s: Store, t: Store, outside: multiset<NodeId>) {
    && Rolls(s, t, outside)
    && t == s.(g := s.g.(nodes := t.g.nodes), tran := t.tran) && t.g.nodes.Keys == s.g.nodes.Keys && ToFree(t.tran) == ToFree(s.tran)
  }

  lemma SameEdgesSameReach(g: Graph, g': Graph, a: NodeId, b: NodeId)
    requires g'.edges == g.edges
    ensures Reaches(g', a, b) <==> Reaches(g, a, b)
  {
    forall x: NodeId, y: NodeId
      ensures Arrow(g', x, y) <==> Arrow(g, x, y)
    {
      assert Children(g', x) == Children(g, x);
    }
    SameArrowsSameReach(g, g', a, b);
  }

  lemma ClearedTwice(g: Graph, x: set<NodeId>, y: set<NodeId>)
    ensures Cleared(Cleared(g, x), y) == Cleared(g, x + y)
  {
    assert Cleared(Cleared(g, x), y).nodes == Cleared(g, x + y).nodes;
  }

  /** The orphans found so far: c's own node, and those below the children looked at. */
  ghost function OrphansVia(g: Graph, root: NodeId, c: EdgeId, done: set<EdgeId>): set<NodeId>
    requires c in g.edges && g.edges[c].bs.Some?
  {
    set n | n in Orphans(g, root, c) && (Some(n) == g.edges[c].bs || exists d :: d in done && d in g.edges && g.edges[d].bs.Some? && Reaches(g, g.edges[d].bs.value, n))
  }

  /** The orphans below one more child d of c's node are those the recursive call clears. */
  lemma OneMoreChild(g: Graph, root: NodeId, c: EdgeId, done: set<EdgeId>, d: EdgeId)
    requires Closed(g) && Acyclic(g) && c in g.edges && g.edges[c].bs.Some? && d in Children(g, g.edges[c].bs.value)
    requires !Reaches(g, g.edges[c].bs.value, root)
    ensures !Reaches(g, g.edges[d].bs.value, root)
    ensures OrphansVia(g, root, c, done + {d}) == OrphansVia(g, root, c, done) + Orphans(g, root, d)
  {
    var top, next := g.edges[c].bs.value, g.edges[d].bs.value;
    assert Arrow(g, top, next);
    ArrowReaches(g, top, next);
    ReachesSelf(g, top);
    if Reaches(g, next, root) {
      ReachesTrans(g, top, next, root);
    }
    forall n: NodeId | n in g.nodes && Reaches(g, next, n)
      ensures n != top && Reaches(g, top, n) && (NoOtherEdge(g, root, c, n) <==> NoOtherEdge(g, root, d, n))
    {
      ReachesTrans(g, top, next, n);
      assert d !in Children(g, root);
    }
  }

  lemma AllChildren(g: Graph, root: NodeId, c: EdgeId)
    requires Closed(g) && c in g.edges && g.edges[c].bs.Some?
    ensures OrphansVia(g, root, c, Children(g, g.edges[c].bs.value)) == Orphans(g, root, c)
  {
    var top := g.edges[c].bs.value;
    forall n | n in Orphans(g, root, c) && n != top
      ensures n in OrphansVia(g, root, c, Children(g, top))
    {
      var m := ReachesFirst(g, top, n);
      var d :| d in Children(g, top) && g.edges[d].bs == Some(m);
    }
  }

  lemma OrphansAfter(g: Graph, x: set<NodeId>, root: NodeId, c: EdgeId)
    requires c in g.edges && g.edges[c].bs.Some?
    ensures Orphans(Cleared(g, x), root, c) + x == Orphans(g, root, c) + x
  {
    var g' := Cleared(g, x);
    forall n: NodeId
      ensures n in Orphans(g', root, c) <==> n in Orphans(g, root, c) && n !in x
    {
      SameEdgesSameReach(g, g', g.edges[c].bs.value, n);
      assert Children(g', root) == Children(g, root);
    }
  }

  lemma ClearedSubtree(g: Graph, x: set<NodeId>, n: NodeId)
    ensures Subtree(Cleared(g, x), n) == Subtree(g, n)
  {
    forall m: NodeId
      ensures Reaches(Cleared(g, x), n, m) <==> Reaches(g, n, m)
    {
      SameEdgesSameReach(g, Cleared(g, x), n, m);
    }
  }

  lemma ClearStep(g: Graph, root: NodeId, c: EdgeId, done: set<EdgeId>, d: EdgeId)
    requires Closed(g) && Acyclic(g) && c in g.edges && g.edges[c].bs.Some? && d in Children(g, g.edges[c].bs.value)
    requires !Reaches(g, g.edges[c].bs.value, root)
    ensures var g1 := Cleared(g, OrphansVia(g, root, c, done));
            && !Reaches(g1, g1.edges[d].bs.value, root) && Subtree(g1, g1.edges[d].bs.value) < Subtree(g, g.edges[c].bs.value)
            && Cleared(g1, Orphans(g1, root, d)) == Cleared(g, OrphansVia(g, root, c, done + {d}))
  {
    var x := OrphansVia(g, root, c, done);
    var g1, next := Cleared(g, x), g.edges[d].bs.value;
    OneMoreChild(g, root, c, done, d);
    OrphansAfter(g, x, root, d);
    ClearedTwice(g, x, Orphans(g1, root, d));
    SameEdgesSameReach(g, g1, next, root);
    assert Arrow(g, g.edges[c].bs.value, next);
    SubtreeShrinks(g, g.edges[c].bs.value, next);
    ClearedSubtree(g, x, next);
  }

  lemma OwnOrphan(g: Graph, root: NodeId, c: EdgeId)
    requires c in g.edges && g.edges[c].bs.Some? && g.edges[c].bs.value in g.nodes
    ensures var top := g.edges[c].bs.value;
            OrphansVia(g, root, c, {}) == if g.nodes[top].inheritsFrom == Some(root) && NoOtherEdge(g, root, c, top) then {top} else {}
  {
    ReachesSelf(g, g.edges[c].bs.value);
  }

  lemma ClearOne(s: Store, outside: multiset<NodeId>, n: NodeId, rank: map<NodeId, nat>)
    requires ValidStore(s, outside) && n in s.g.nodes && InheritsRanked(s.g, rank)
    ensures var t := Inherited(s, n, None); OnlyInherits(s, t, outside) && InheritsRanked(t.g, rank) && t.g == Cleared(s.g, {n})
  {
    InheritedValid(s, outside, n, None, rank);
    PushOnlyPerms(s.tran, SetInherits(n, s.g.nodes[n].inheritsFrom));
    ClearedOne(s.g, n);
  }

  lemma ClearedOne(g: Graph, n: NodeId)
    requires n in g.nodes
    ensures g.(nodes := g.nodes[n := g.nodes[n].(inheritsFrom := None)]) == Cleared(g, {n})
    ensures Cleared(g, {}) == g
  {
    assert g.nodes[n := g.nodes[n].(inheritsFrom := None)] == Cleared(g, {n}).nodes;
    assert Cleared(g, {}).nodes == g.nodes;
  }

  /** The search for another edge from root to the same node. */
  method HasOtherEdge(g: Graph, root: NodeId, c: EdgeId, n: NodeId) returns (r: bool)
    ensures r == !NoOtherEdge(g, root, c, n)
  {
    var todo := Children(g, root);
    while todo != {}
      invariant todo <= Children(g, root)
      invariant forall d :: d in Children(g, root) - todo && d != c ==> g.edges[d].bs != Some(n)
      decreases todo
    {
      var d :| d in todo;
      if d != c && g.edges[d].bs == Some(n) {
        return true;
      }
      todo := todo - {d};
    }
    return false;
  }

  /** The first part of bdrv_unset_inherits_from: the node right below the edge. */
  method UnsetOwn(s: Store, root: NodeId, c: EdgeId, ghost rank: map<NodeId, nat>, ghost outside: multiset<NodeId>) returns (t: Store)
    requires ValidStore(s, outside) && c in s.g.edges && s.g.edges[c].bs.Some? && s.g.edges[c].bs.value in s.g.nodes && InheritsRanked(s.g, rank)
    ensures OnlyInherits(s, t, outside) && InheritsRanked(t.g, rank) && t.g == Cleared(s.g, OrphansVia(s.g, root, c, {}))
  {
    t := s;
    var top := s.g.edges[c].bs.value;
    ClearedOne(s.g, top);
    OwnOrphan(s.g, root, c);
    if s.g.nodes[top].inheritsFrom == Some(root) {
      var other := HasOtherEdge(s.g, root, c, top);
      if !other {
        ClearOne(s, outside, top, rank);
        t := Inherited(s, top, None);
      }
    }
  }

  /** The state of the loop over the children. */
  ghost predicate Clearing(s: Store, t: Store, root: NodeId, c: EdgeId, done: set<EdgeId>, rank: map<NodeId, nat>, outside: multiset<NodeId>) {
    && OnlyInherits(s, t, outside) && InheritsRanked(t.g, rank)
    && c in s.g.edges && s.g.edges[c].bs.Some? && t.g == Cleared(s.g, OrphansVia(s.g, root, c, done))
  }

  lemma ClearNext(s: Store, t: Store, t': Store, root: NodeId, c: EdgeId, done: set<EdgeId>, d: EdgeId, rank: map<NodeId, nat>, outside: multiset<NodeId>)
    requires Clearing(s, t, root, c, done, rank, outside) && OnlyInherits(t, t', outside) && InheritsRanked(t'.g, rank)
    requires d in t.g.edges && t.g.edges[d].bs.Some? && t'.g == Cleared(t.g, Orphans(t.g, root, d))
    requires Cleared(t.g, Orphans(t.g, root, d)) == Cleared(s.g, OrphansVia(s.g, root, c, done + {d}))
    ensures Clearing(s, t', root, c, done + {d}, rank, outside)
  {
  }

  /**
   bdrv_unset_inherits_from: clears exactly the links to root of the nodes below edge c
   that root does not have as a child by another edge.
   */
  method UnsetInheritsFrom(s: Store, root: NodeId, c: EdgeId, ghost rank: map<NodeId, nat>, ghost outside: multiset<NodeId>) returns (t: Store)
    requires ValidStore(s, outside) && c in s.g.edges && s.g.edges[c].bs.Some? && InheritsRanked(s.g, rank)
    requires !Reaches(s.g, s.g.edges[c].bs.value, root)
    ensures OnlyInherits(s, t, outside) && InheritsRanked(t.g, rank) && t.g == Cleared(s.g, Orphans(s.g, root, c))
    decreases Subtree(s.g, s.g.edges[c].bs.value)
  {
    t := UnsetOwn(s, root, c, rank, outside);
    var todo := Children(s.g, s.g.edges[c].bs.value);
    ghost var all := todo;
    NoneAndAllDone(all);
    while todo != {}
      invariant todo <= all
      invariant Clearing(s, t, root, c, all - todo, rank, outside)
      decreases todo
    {
      var d :| d in todo;
      ClearStep(s.g, root, c, all - todo, d);
      ghost var t0 := t;
      t := UnsetInheritsFrom(t, root, d, rank, outside);
      ClearNext(s, t0, t, root, c, all - todo, d, rank, outside);
      OneDone(all, todo, d);
      todo := todo - {d};
    }
    AllChildren(s.g, root, c);
  }
}
