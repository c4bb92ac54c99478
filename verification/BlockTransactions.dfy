/**
 A transaction is a log of records; an abort undoes them newest first.  The graph that
 an abort would restore is a function of the graph and the log, so an operation rolls
 back exactly if it leaves that graph alone.
 */
module BlockTransactions {
  import opened Wrappers
  import opened BlockGraph
  import opened BlockPerms
  import opened BlockEdits

  datatype Undo =
    | SetPerm(edge: EdgeId, perm: set<Perm>, shared: set<Perm>)
    | ReplaceChild(edge: EdgeId, was: Option<NodeId>)
    | AttachChild(edge: EdgeId)
    | RemoveChild(edge: EdgeId)
    | SetInherits(node: NodeId, was: Option<NodeId>)
    | DriverPerm(node: NodeId)

  /** What the abort callback of a record asserts. */
  predicate UndoAsserts(g: Graph, u: Undo) {
    match u
    case SetPerm(e, _, _) => e in g.edges
    case ReplaceChild(e, was) => PointAsserts(g, e, was)
    case AttachChild(e) => PointAsserts(g, e, None)
    case SetInherits(n, _) => n in g.nodes
    case _ => true
  }

  /** What the abort callback of a record does to the graph. */
  function Undone(g: Graph, u: Undo): (r: Graph)
    requires UndoAsserts(g, u)
    ensures r.nodes.Keys == g.nodes.Keys
  {
    match u
    case SetPerm(e, perm, shared) => g.(edges := g.edges[e := g.edges[e].(perm := perm, shared := shared)])
    case ReplaceChild(e, was) => Pointed(g, e, was)
    case AttachChild(e) => var g1 := Pointed(g, e, None); g1.(edges := g1.edges - {e})
    case SetInherits(n, was) => g.(nodes := g.nodes[n := g.nodes[n].(inheritsFrom := was)])
    case _ => g
  }

  /** Every graph on the way back is valid, and no callback of the abort trips over an assertion. */
  ghost predicate ValidLog(g: Graph, tran: seq<Undo>)
    decreases |tran|
  {
    && ValidGraph(g)
    && (tran == [] ||
        var u := tran[|tran| - 1];
        UndoAsserts(g, u) && ValidLog(Undone(g, u), tran[..|tran| - 1]))
  }

  /** The graph that an abort restores. */
  ghost function Aborted(g: Graph, tran: seq<Undo>): (r: Graph)
    requires ValidLog(g, tran)
    ensures r.nodes.Keys == g.nodes.Keys
    ensures ValidGraph(r)
    decreases |tran|
  {
    if tran == [] then g
    else Aborted(Undone(g, tran[|tran| - 1]), tran[..|tran| - 1])
  }

  /** A step from g to g' with record u that undoes it changes nothing about what an abort restores. */
  lemma Recorded(g: Graph, tran: seq<Undo>, g': Graph, u: Undo)
    requires ValidLog(g, tran) && ValidGraph(g') && UndoAsserts(g', u) && Undone(g', u) == g
    ensures ValidLog(g', tran + [u]) && Aborted(g', tran + [u]) == Aborted(g, tran)
  {
    assert (tran + [u])[..|tran|] == tran;
  }

  lemma Restored<K, V>(m: map<K, V>, k: K, v: V)
    ensures k in m ==> m[k := v][k := m[k]] == m
    ensures k !in m ==> m[k := v] - {k} == m
  {
  }

  // ----- References. -----

  /** The references that records hold on behalf of edges that were pointed away. */
  ghost function Held(tran: seq<Undo>): multiset<NodeId> {
    if tran == [] then multiset{}
    else Held(tran[..|tran| - 1]) + HeldBy(tran[|tran| - 1])
  }

  ghost function HeldBy(u: Undo): multiset<NodeId> {
    if u.ReplaceChild? && u.was.Some? then multiset{u.was.value} else multiset{}
  }

  lemma HeldPush(tran: seq<Undo>, u: Undo)
    ensures Held(tran + [u]) == Held(tran) + HeldBy(u)
  {
    assert (tran + [u])[..|tran|] == tran;
  }

  /** Incoming edges, references held by the transaction, references to be dropped later, and references held outside. */
  ghost function Refs(g: Graph, tran: seq<Undo>, scheduled: multiset<NodeId>, outside: multiset<NodeId>, n: NodeId): nat {
    |Parents(g, n)| + Held(tran)[n] + scheduled[n] + outside[n]
  }

  ghost predicate Counted(g: Graph, tran: seq<Undo>, refcnt: map<NodeId, nat>, scheduled: multiset<NodeId>, outside: multiset<NodeId>) {
    && refcnt.Keys == g.nodes.Keys
    && forall n :: n in g.nodes ==> refcnt[n] == Refs(g, tran, scheduled, outside, n)
  }

  function Points(to: Option<NodeId>, n: NodeId): nat {
    if to == Some(n) then 1 else 0
  }

  lemma PointedCount(g: Graph, e: EdgeId, target: Option<NodeId>, n: NodeId)
    requires e in g.edges
    ensures |Parents(Pointed(g, e, target), n)| == |Parents(g, n)| - Points(g.edges[e].bs, n) + Points(target, n)
  {
    PointedChildren(g, e, target, n);
    assert e in Parents(g, n) <==> g.edges[e].bs == Some(n);
  }

  /** The node that the abort callback of u drops its reference to at once... */
  function Drops(g: Graph, u: Undo): Option<NodeId>
    requires UndoAsserts(g, u)
  {
    if u.ReplaceChild? then g.edges[u.edge].bs else None
  }

  /** ...or later. */
  function DropsLater(g: Graph, u: Undo): Option<NodeId>
    requires UndoAsserts(g, u)
  {
    if u.AttachChild? then g.edges[u.edge].bs else None
  }

  /** Undoing a record moves its references between edges, the record and the outside; none is lost. */
  lemma UndoneParents(g: Graph, u: Undo, n: NodeId)
    requires UndoAsserts(g, u)
    ensures |Parents(Undone(g, u), n)| == |Parents(g, n)| + HeldBy(u)[n] - Points(Drops(g, u), n) - Points(DropsLater(g, u), n)
  {
    match u
    case SetPerm(e, perm, shared) => assert Parents(Undone(g, u), n) == Parents(g, n);
    case ReplaceChild(e, was) => PointedCount(g, e, was, n);
    case AttachChild(e) =>
      PointedCount(g, e, None, n);
      assert Parents(Undone(g, u), n) == Parents(Pointed(g, e, None), n);
    case SetInherits(m, was) => assert Parents(Undone(g, u), n) == Parents(g, n);
    case _ =>
  }

  /** While a transaction is open, every node has at least the references it will have after an abort. */
  lemma {:induction false} AbortedCount(g: Graph, tran: seq<Undo>, n: NodeId)
    requires ValidLog(g, tran)
    ensures |Parents(Aborted(g, tran), n)| <= |Parents(g, n)| + Held(tran)[n]
    decreases |tran|
  {
    if tran != [] {
      var u := tran[|tran| - 1];
      UndoneParents(g, u, n);
      AbortedCount(Undone(g, u), tran[..|tran| - 1], n);
    }
  }

  // ----- Validity. -----

  lemma ShapeValid(g: Graph, g': Graph)
    requires SameShape(g, g') && ValidGraph(g)
    ensures ValidGraph(g')
  {
    ShapeKeeps(g, g');
    ShapeKeepsArrow(g, g');
    FewerKeepsAcyclic(g, g');
    var rank :| InheritsRanked(g, rank);
    assert InheritsRanked(g', rank);
    forall p | p in g'.nodes
      ensures LinksAt(g', p)
    {
      assert LinksAt(g, p);
    }
  }

  /** What must hold to point edge e at a node: its holder's driver takes such children, and no loop is closed. */
  ghost predicate MayPoint(g: Graph, e: EdgeId, target: Option<NodeId>) {
    && PointAsserts(g, e, target)
    && (target.Some? ==> target.value in g.nodes)
    && (target.Some? && g.edges[e].owner.ByNode? ==>
          var p := g.edges[e].owner.node;
          && g.nodes[p].drv.value.hasChildPerm && RoleFits(g.nodes[p].drv.value, g.edges[e].role)
          && !Reaches(g, target.value, p))
  }

  lemma PointedValid(g: Graph, e: EdgeId, target: Option<NodeId>)
    requires ValidGraph(g) && MayPoint(g, e, target)
    ensures ValidGraph(Pointed(g, e, target))
  {
    var g' := Pointed(g, e, target);
    PointedAcyclic(g, e, target);
    forall p | p in g'.nodes
      ensures LinksAt(g', p)
    {
      PointedLinks(g, e, target, p);
    }
    PointedProper(g, e, target);
    var rank :| InheritsRanked(g, rank);
    PointedInherits(g, e, target, rank);
  }

  lemma PointedInherits(g: Graph, e: EdgeId, target: Option<NodeId>, rank: map<NodeId, nat>)
    requires e in g.edges && InheritsRanked(g, rank)
    ensures InheritsRanked(Pointed(g, e, target), rank)
  {
    var g' := Pointed(g, e, target);
    assert forall n :: n in g.nodes ==> g'.nodes[n].inheritsFrom == g.nodes[n].inheritsFrom;
  }

  lemma PointedProper(g: Graph, e: EdgeId, target: Option<NodeId>)
    requires Proper(g) && MayPoint(g, e, target)
    ensures Proper(Pointed(g, e, target))
  {
    var g' := Pointed(g, e, target);
    forall n | n in g'.nodes && g'.nodes[n].drv.Some? && !g'.nodes[n].drv.value.hasChildPerm
      ensures Children(g', n) == {}
    {
      PointedChildren(g, e, target, n);
    }
  }

  /** A new edge that points nowhere changes no list. */
  lemma FreshEdge(g: Graph, e: EdgeId, c: Edge)
    requires ValidGraph(g) && e !in g.edges && c.bs.None? && (c.owner.ByNode? ==> c.owner.node in g.nodes)
    ensures var g' := g.(edges := g.edges[e := c]);
            && ValidGraph(g')
            && (forall n :: Children(g', n) == Children(g, n) && Parents(g', n) == Parents(g, n))
            && (forall a, b :: Arrow(g', a, b) <==> Arrow(g, a, b))
  {
    FreshEdgeLists(g, e, c);
    EmptyEdges(g, g.(edges := g.edges[e := c]));
  }

  lemma FreshEdgeLists(g: Graph, e: EdgeId, c: Edge)
    requires Closed(g) && e !in g.edges && c.bs.None? && (c.owner.ByNode? ==> c.owner.node in g.nodes)
    ensures var g' := g.(edges := g.edges[e := c]);
            Closed(g') && forall n :: Children(g', n) == Children(g, n) && Parents(g', n) == Parents(g, n)
  {
    var g' := g.(edges := g.edges[e := c]);
    forall n: NodeId
      ensures Children(g', n) == Children(g, n) && Parents(g', n) == Parents(g, n)
    {
    }
  }

  /** Graphs that differ in edges that point nowhere only. */
  lemma EmptyEdges(g: Graph, g': Graph)
    requires ValidGraph(g) && g'.nodes == g.nodes && Closed(g')
    requires forall n :: Children(g', n) == Children(g, n) && Parents(g', n) == Parents(g, n)
    requires forall n, e :: e in Children(g, n) ==> e in g'.edges && g'.edges[e] == g.edges[e]
    ensures ValidGraph(g') && forall a, b :: Arrow(g', a, b) <==> Arrow(g, a, b)
  {
    forall a: NodeId, b: NodeId
      ensures Arrow(g', a, b) <==> Arrow(g, a, b)
    {
      if e :| e in Children(g, a) && g.edges[e].bs == Some(b) {
        assert e in Children(g', a) && g'.edges[e].bs == Some(b);
      }
      if e :| e in Children(g', a) && g'.edges[e].bs == Some(b) {
        assert e in Children(g, a) && g.edges[e].bs == Some(b);
      }
    }
    FewerKeepsAcyclic(g, g');
    forall p | p in g'.nodes
      ensures LinksAt(g', p)
    {
      assert LinksAt(g, p);
      assert Children(g', p) == Children(g, p);
    }
    var rank :| InheritsRanked(g, rank);
    assert InheritsRanked(g', rank);
  }
}
