/**
 The graph together with its open transaction and its reference counts, and what each
 single edit does to them: every edit keeps the store valid and what an abort restores.
 */
module BlockStore {
  import opened Wrappers
  import opened BlockGraph
  import opened BlockPerms
  import opened BlockEdits
  import opened BlockTransactions

  /** The graph with its open transaction and its reference counts. */
  datatype Store = Store(
    g: Graph,
    tran: seq<Undo>,
    refcnt: map<NodeId, nat>,
    scheduled: multiset<NodeId>,  // references that bdrv_schedule_unref will drop
    nextEdge: nat                 // the next BdrvChild to be allocated
  )

  /** Edges that RemoveChild records will free on commit point nowhere, and are freed once. */
  ghost predicate RemovedEmpty(g: Graph, tran: seq<Undo>) {
    && (forall u :: u in tran && u.RemoveChild? ==> u.edge in g.edges && g.edges[u.edge].bs.None?)
    && (forall i, j :: 0 <= i < j < |tran| && tran[i].RemoveChild? ==> tran[i] != tran[j])
  }

  lemma RemovedKept(g: Graph, tran: seq<Undo>, g': Graph, u: Undo)
    requires RemovedEmpty(g, tran) && !u.RemoveChild?
    requires forall e :: e in g.edges && g.edges[e].bs.None? ==> e in g'.edges && g'.edges[e].bs.None?
    ensures RemovedEmpty(g', tran + [u])
  {
  }

  /** Every node keeps a reference, now and after an abort. */
  ghost predicate Alive(s: Store, outside: multiset<NodeId>)
    requires ValidLog(s.g, s.tran)
  {
    forall n :: n in s.g.nodes ==> |Parents(Aborted(s.g, s.tran), n)| + s.scheduled[n] + outside[n] > 0
  }

  ghost predicate ValidStore(s: Store, outside: multiset<NodeId>) {
    match s
    case Store(g, tran, refcnt, scheduled, nextEdge) =>
      && ValidLog(g, tran) && RemovedEmpty(g, tran)
      && Counted(g, tran, refcnt, scheduled, outside)
      && Alive(s, outside)
      && Allocated(g, nextEdge) && Allocated(Aborted(g, tran), nextEdge)
  }

  ghost predicate Allocated(g: Graph, nextEdge: nat) {
    forall e :: e in g.edges ==> e < nextEdge
  }

  /** A recorded step keeps the store valid, if the counts are right. */
  lemma StepValid(s: Store, s': Store, outside: multiset<NodeId>)
    requires ValidStore(s, outside) && s'.scheduled == s.scheduled
    requires ValidLog(s'.g, s'.tran) && Aborted(s'.g, s'.tran) == Aborted(s.g, s.tran)
    requires RemovedEmpty(s'.g, s'.tran) && Counted(s'.g, s'.tran, s'.refcnt, s'.scheduled, outside)
    requires Allocated(s'.g, s'.nextEdge) && s.nextEdge <= s'.nextEdge
    ensures ValidStore(s', outside)
  {
  }

  /** A node that exists has a reference. */
  lemma Referenced(s: Store, outside: multiset<NodeId>, n: NodeId)
    requires ValidStore(s, outside) && n in s.g.nodes
    ensures s.refcnt[n] > 0
  {
    AbortedCount(s.g, s.tran, n);
  }

  // ----- Single edits. -----

  function Permitted(s: Store, e: EdgeId, perm: set<Perm>, shared: set<Perm>): Store
    requires e in s.g.edges
  {
    s.(g := s.g.(edges := s.g.edges[e := s.g.edges[e].(perm := perm, shared := shared)]),
       tran := s.tran + [SetPerm(e, s.g.edges[e].perm, s.g.edges[e].shared)])
  }

  lemma PermittedRecorded(s: Store, e: EdgeId, perm: set<Perm>, shared: set<Perm>)
    requires ValidLog(s.g, s.tran) && e in s.g.edges
    ensures var s' := Permitted(s, e, perm, shared);
            SameShape(s.g, s'.g) && ValidLog(s'.g, s'.tran) && Aborted(s'.g, s'.tran) == Aborted(s.g, s.tran)
  {
    var s' := Permitted(s, e, perm, shared);
    Restored(s.g.edges, e, s'.g.edges[e]);
    ShapeValid(s.g, s'.g);
    Recorded(s.g, s.tran, s'.g, SetPerm(e, s.g.edges[e].perm, s.g.edges[e].shared));
  }

  lemma PermittedValid(s: Store, outside: multiset<NodeId>, e: EdgeId, perm: set<Perm>, shared: set<Perm>)
    requires ValidStore(s, outside) && e in s.g.edges
    ensures var s' := Permitted(s, e, perm, shared);
            ValidStore(s', outside) && SameShape(s.g, s'.g) && Aborted(s'.g, s'.tran) == Aborted(s.g, s.tran)
  {
    var s', u := Permitted(s, e, perm, shared), SetPerm(e, s.g.edges[e].perm, s.g.edges[e].shared);
    PermittedRecorded(s, e, perm, shared);
    ShapeKeeps(s.g, s'.g);
    SameCounted(s, outside, s'.g, u);
    RemovedKept(s.g, s.tran, s'.g, u);
    StepValid(s, s', outside);
  }

  function Reffed(refcnt: map<NodeId, nat>, target: Option<NodeId>): map<NodeId, nat>
    requires target.Some? ==> target.value in refcnt
  {
    if target.Some? then refcnt[target.value := refcnt[target.value] + 1] else refcnt
  }

  function Replaced(s: Store, e: EdgeId, target: Option<NodeId>): Store
    requires e in s.g.edges && (target.Some? ==> target.value in s.refcnt)
  {
    s.(g := Pointed(s.g, e, target), tran := s.tran + [ReplaceChild(e, s.g.edges[e].bs)], refcnt := Reffed(s.refcnt, target))
  }

  lemma ReplacedCount(s: Store, outside: multiset<NodeId>, e: EdgeId, target: Option<NodeId>, n: NodeId)
    requires e in s.g.edges && s.g.edges[e].bs != target && (target.Some? ==> target.value in s.refcnt)
    requires n in s.refcnt && s.refcnt[n] == Refs(s.g, s.tran, s.scheduled, outside, n)
    ensures var s' := Replaced(s, e, target); s'.refcnt[n] == Refs(s'.g, s'.tran, s'.scheduled, outside, n)
  {
    HeldPush(s.tran, ReplaceChild(e, s.g.edges[e].bs));
    PointedCount(s.g, e, target, n);
    assert HeldBy(ReplaceChild(e, s.g.edges[e].bs))[n] == Points(s.g.edges[e].bs, n);
    assert Reffed(s.refcnt, target)[n] == s.refcnt[n] + Points(target, n);
  }

  lemma ReplacedCounted(s: Store, outside: multiset<NodeId>, e: EdgeId, target: Option<NodeId>)
    requires Counted(s.g, s.tran, s.refcnt, s.scheduled, outside)
    requires e in s.g.edges && s.g.edges[e].bs != target && (target.Some? ==> target.value in s.refcnt)
    ensures var s' := Replaced(s, e, target); Counted(s'.g, s'.tran, s'.refcnt, s'.scheduled, outside)
  {
    var s' := Replaced(s, e, target);
    assert s'.g.nodes.Keys == s.g.nodes.Keys;
    forall n | n in s'.g.nodes
      ensures s'.refcnt[n] == Refs(s'.g, s'.tran, s'.scheduled, outside, n)
    {
      ReplacedCount(s, outside, e, target, n);
    }
  }

  lemma ReplacedRecorded(s: Store, e: EdgeId, target: Option<NodeId>)
    requires ValidLog(s.g, s.tran) && MayPoint(s.g, e, target) && (target.Some? ==> target.value in s.refcnt)
    ensures var s' := Replaced(s, e, target); ValidLog(s'.g, s'.tran) && Aborted(s'.g, s'.tran) == Aborted(s.g, s.tran)
  {
    PointedValid(s.g, e, target);
    PointBack(s.g, e, target);
    Recorded(s.g, s.tran, Pointed(s.g, e, target), ReplaceChild(e, s.g.edges[e].bs));
  }

  lemma ReplacedFrame(s: Store, e: EdgeId, target: Option<NodeId>)
    requires RemovedEmpty(s.g, s.tran) && Allocated(s.g, s.nextEdge)
    requires e in s.g.edges && s.g.edges[e].bs.Some? && (target.Some? ==> target.value in s.refcnt)
    ensures var s' := Replaced(s, e, target); RemovedEmpty(s'.g, s'.tran) && Allocated(s'.g, s'.nextEdge)
  {
    RemovedKept(s.g, s.tran, Replaced(s, e, target).g, ReplaceChild(e, s.g.edges[e].bs));
  }

  lemma ReplacedValid(s: Store, outside: multiset<NodeId>, e: EdgeId, target: Option<NodeId>)
    requires ValidStore(s, outside) && MayPoint(s.g, e, target) && s.g.edges[e].bs.Some?
    ensures var s' := Replaced(s, e, target); ValidStore(s', outside) && Aborted(s'.g, s'.tran) == Aborted(s.g, s.tran)
  {
    ReplacedRecorded(s, e, target);
    ReplacedCounted(s, outside, e, target);
    ReplacedFrame(s, e, target);
    StepValid(s, Replaced(s, e, target), outside);
  }

  /** The store after bdrv_attach_child_common made a new edge: one more reference to the child. */
  function Attached(s: Store, owner: Owner, child: NodeId, role: set<Role>, perm: set<Perm>, shared: set<Perm>): Store
    requires child in s.refcnt
  {
    var e := s.nextEdge;
    var g1 := s.g.(edges := s.g.edges[e := Edge(owner, None, role, perm, shared, false)]);
    Store(Pointed(g1, e, Some(child)), s.tran + [AttachChild(e)], Reffed(s.refcnt, Some(child)), s.scheduled, e + 1)
  }

  /** What must hold to attach a child: its node exists, and a parent node takes it without a loop. */
  ghost predicate MayAttach(g: Graph, owner: Owner, child: NodeId, role: set<Role>) {
    && child in g.nodes
    && (owner.ByNode? ==>
          && owner.node in g.nodes && g.nodes[owner.node].drv.Some?
          && var drv := g.nodes[owner.node].drv.value;
             && drv.hasChildPerm && RoleFits(drv, role) && Link(g.nodes[owner.node].links, SlotOf(drv, role)).None?
             && !Reaches(g, child, owner.node))
  }

  lemma AttachedGraph(g: Graph, e: EdgeId, c: Edge, child: NodeId)
    requires ValidGraph(g) && e !in g.edges && c.bs.None? && !c.frozen && MayAttach(g, c.owner, child, c.role)
    ensures var g1 := g.(edges := g.edges[e := c]); var g2 := Pointed(g1, e, Some(child));
            ValidGraph(g2) && PointAsserts(g2, e, None) && Pointed(g2, e, None) == g1
  {
    var g1 := g.(edges := g.edges[e := c]);
    FreshEdge(g, e, c);
    if c.owner.ByNode? {
      assert LinksAt(g1, c.owner.node);
      AttachAssertsHold(g1, c.owner.node, c.role);
      SameArrowsSameReach(g, g1, child, c.owner.node);
    }
    PointedValid(g1, e, Some(child));
    PointBack(g1, e, Some(child));
  }

  lemma AttachedParents(g: Graph, e: EdgeId, c: Edge, child: NodeId, n: NodeId)
    requires e !in g.edges && c.bs.None?
    ensures |Parents(Pointed(g.(edges := g.edges[e := c]), e, Some(child)), n)| == |Parents(g, n)| + Points(Some(child), n)
  {
    var g1 := g.(edges := g.edges[e := c]);
    PointedCount(g1, e, Some(child), n);
    assert Parents(g1, n) == Parents(g, n);
  }

  lemma SameArrowsSameReach(g: Graph, g': Graph, a: NodeId, b: NodeId)
    requires forall x, y :: Arrow(g', x, y) <==> Arrow(g, x, y)
    ensures Reaches(g', a, b) <==> Reaches(g, a, b)
  {
    if path :| PathFromTo(g, path, a, b) {
      assert PathFromTo(g', path, a, b);
    }
    if path :| PathFromTo(g', path, a, b) {
      assert PathFromTo(g, path, a, b);
    }
  }

  lemma AttachedUndone(g: Graph, e: EdgeId, c: Edge, child: NodeId)
    requires ValidGraph(g) && e !in g.edges && c.bs.None? && !c.frozen && MayAttach(g, c.owner, child, c.role)
    ensures var g2 := Pointed(g.(edges := g.edges[e := c]), e, Some(child));
            UndoAsserts(g2, AttachChild(e)) && Undone(g2, AttachChild(e)) == g
  {
    AttachedGraph(g, e, c, child);
    Restored(g.edges, e, c);
  }

  lemma AttachedCounted(s: Store, outside: multiset<NodeId>, owner: Owner, child: NodeId, role: set<Role>, perm: set<Perm>, shared: set<Perm>)
    requires Counted(s.g, s.tran, s.refcnt, s.scheduled, outside) && child in s.refcnt && s.nextEdge !in s.g.edges
    ensures var s' := Attached(s, owner, child, role, perm, shared); Counted(s'.g, s'.tran, s'.refcnt, s'.scheduled, outside)
  {
    var s' := Attached(s, owner, child, role, perm, shared);
    HeldPush(s.tran, AttachChild(s.nextEdge));
    forall n | n in s'.g.nodes
      ensures s'.refcnt[n] == Refs(s'.g, s'.tran, s'.scheduled, outside, n)
    {
      AttachedParents(s.g, s.nextEdge, Edge(owner, None, role, perm, shared, false), child, n);
    }
  }

  lemma AttachedRecorded(g: Graph, tran: seq<Undo>, e: EdgeId, c: Edge, child: NodeId)
    requires ValidLog(g, tran) && e !in g.edges && c.bs.None? && !c.frozen && MayAttach(g, c.owner, child, c.role)
    ensures var g2 := Pointed(g.(edges := g.edges[e := c]), e, Some(child));
            ValidLog(g2, tran + [AttachChild(e)]) && Aborted(g2, tran + [AttachChild(e)]) == Aborted(g, tran)
  {
    AttachedGraph(g, e, c, child);
    AttachedUndone(g, e, c, child);
    Recorded(g, tran, Pointed(g.(edges := g.edges[e := c]), e, Some(child)), AttachChild(e));
  }

  lemma AttachedFrame(s: Store, g': Graph, e: EdgeId, c: Edge, child: NodeId)
    requires e == s.nextEdge && Allocated(s.g, e) && RemovedEmpty(s.g, s.tran)
    requires g' == Pointed(s.g.(edges := s.g.edges[e := c]), e, Some(child))
    ensures RemovedEmpty(g', s.tran + [AttachChild(e)]) && Allocated(g', e + 1)
  {
    RemovedKept(s.g, s.tran, g', AttachChild(e));
  }

  lemma AttachedValid(s: Store, outside: multiset<NodeId>, owner: Owner, child: NodeId, role: set<Role>, perm: set<Perm>, shared: set<Perm>)
    requires ValidStore(s, outside) && MayAttach(s.g, owner, child, role)
    ensures var s' := Attached(s, owner, child, role, perm, shared);
            ValidStore(s', outside) && Aborted(s'.g, s'.tran) == Aborted(s.g, s.tran)
  {
    var s', c := Attached(s, owner, child, role, perm, shared), Edge(owner, None, role, perm, shared, false);
    AttachedRecorded(s.g, s.tran, s.nextEdge, c, child);
    AttachedCounted(s, outside, owner, child, role, perm, shared);
    AttachedFrame(s, s'.g, s.nextEdge, c, child);
    StepValid(s, s', outside);
  }

  /** A record that an abort ignores. */
  lemma IdleValid(s: Store, outside: multiset<NodeId>, u: Undo)
    requires ValidStore(s, outside)
    requires u.DriverPerm? || (u.RemoveChild? && u.edge in s.g.edges && s.g.edges[u.edge].bs.None? && u !in s.tran)
    ensures var s' := s.(tran := s.tran + [u]); ValidStore(s', outside) && Aborted(s'.g, s'.tran) == Aborted(s.g, s.tran)
  {
    Recorded(s.g, s.tran, s.g, u);
    SameCounted(s, outside, s.g, u);
    StepValid(s, s.(tran := s.tran + [u]), outside);
  }

  /** The store after bdrv_set_inherits_from. */
  function Inherited(s: Store, n: NodeId, from: Option<NodeId>): Store
    requires n in s.g.nodes
  {
    s.(g := s.g.(nodes := s.g.nodes[n := s.g.nodes[n].(inheritsFrom := from)]),
       tran := s.tran + [SetInherits(n, s.g.nodes[n].inheritsFrom)])
  }

  lemma InheritedGraph(g: Graph, n: NodeId, from: Option<NodeId>, rank: map<NodeId, nat>)
    requires ValidGraph(g) && n in g.nodes && InheritsRanked(g, rank)
    requires from.Some? ==> from.value in g.nodes && n in rank && from.value in rank && rank[from.value] < rank[n]
    ensures var g' := g.(nodes := g.nodes[n := g.nodes[n].(inheritsFrom := from)]);
            && ValidGraph(g') && InheritsRanked(g', rank)
            && (forall m :: Children(g', m) == Children(g, m) && Parents(g', m) == Parents(g, m))
            && (forall a, b :: Arrow(g', a, b) <==> Arrow(g, a, b))
  {
    var g' := g.(nodes := g.nodes[n := g.nodes[n].(inheritsFrom := from)]);
    assert InheritsRanked(g', rank);
    assert forall m :: Children(g', m) == Children(g, m) && Parents(g', m) == Parents(g, m);
    forall a: NodeId, b: NodeId
      ensures Arrow(g', a, b) <==> Arrow(g, a, b)
    {
      assert Children(g', a) == Children(g, a);
    }
    FewerKeepsAcyclic(g, g');
    forall p | p in g'.nodes
      ensures LinksAt(g', p)
    {
      assert LinksAt(g, p) && Children(g', p) == Children(g, p);
    }
  }

  lemma InheritedUndone(g: Graph, n: NodeId, from: Option<NodeId>)
    requires n in g.nodes
    ensures Undone(g.(nodes := g.nodes[n := g.nodes[n].(inheritsFrom := from)]), SetInherits(n, g.nodes[n].inheritsFrom)) == g
  {
    Restored(g.nodes, n, g.nodes[n].(inheritsFrom := from));
  }

  lemma SameCounted(s: Store, outside: multiset<NodeId>, g': Graph, u: Undo)
    requires Counted(s.g, s.tran, s.refcnt, s.scheduled, outside) && g'.nodes.Keys == s.g.nodes.Keys && HeldBy(u) == multiset{}
    requires forall n :: Parents(g', n) == Parents(s.g, n)
    ensures Counted(g', s.tran + [u], s.refcnt, s.scheduled, outside)
  {
    HeldPush(s.tran, u);
  }

  lemma InheritedRecorded(s: Store, n: NodeId, from: Option<NodeId>, rank: map<NodeId, nat>)
    requires ValidLog(s.g, s.tran) && n in s.g.nodes && InheritsRanked(s.g, rank)
    requires from.Some? ==> from.value in s.g.nodes && n in rank && from.value in rank && rank[from.value] < rank[n]
    ensures var s' := Inherited(s, n, from); ValidLog(s'.g, s'.tran) && Aborted(s'.g, s'.tran) == Aborted(s.g, s.tran)
  {
    InheritedGraph(s.g, n, from, rank);
    InheritedUndone(s.g, n, from);
    Recorded(s.g, s.tran, Inherited(s, n, from).g, SetInherits(n, s.g.nodes[n].inheritsFrom));
  }

  lemma InheritedValid(s: Store, outside: multiset<NodeId>, n: NodeId, from: Option<NodeId>, rank: map<NodeId, nat>)
    requires ValidStore(s, outside) && n in s.g.nodes && InheritsRanked(s.g, rank)
    requires from.Some? ==> from.value in s.g.nodes && n in rank && from.value in rank && rank[from.value] < rank[n]
    ensures var s' := Inherited(s, n, from);
            ValidStore(s', outside) && InheritsRanked(s'.g, rank) && Aborted(s'.g, s'.tran) == Aborted(s.g, s.tran)
  {
    var s', u := Inherited(s, n, from), SetInherits(n, s.g.nodes[n].inheritsFrom);
    InheritedRecorded(s, n, from, rank);
    InheritedGraph(s.g, n, from, rank);
    SameCounted(s, outside, s'.g, u);
    RemovedKept(s.g, s.tran, s'.g, u);
    StepValid(s, s', outside);
  }

  // ----- Abort and commit. -----

  /** bdrv_unref of a node that keeps other references. */
  function Unreffed(refcnt: map<NodeId, nat>, n: Option<NodeId>): map<NodeId, nat>
    requires n.Some? ==> n.value in refcnt && refcnt[n.value] > 0
  {
    if n.Some? then refcnt[n.value := refcnt[n.value] - 1] else refcnt
  }

  /** What an abort keeps on the way: the counts, and a reference to every node. */
  ghost predicate Aborting(s: Store, outside: multiset<NodeId>) {
    && ValidLog(s.g, s.tran)
    && Counted(s.g, s.tran, s.refcnt, s.scheduled, outside)
    && Alive(s, outside)
  }

  /** An edge that points to a node is counted. */
  lemma EdgeIsCounted(s: Store, outside: multiset<NodeId>, e: EdgeId)
    requires Aborting(s, outside) && e in s.g.edges && s.g.edges[e].bs.Some?
    ensures s.g.edges[e].bs.value in s.refcnt && s.refcnt[s.g.edges[e].bs.value] > 0
  {
    assert ValidGraph(s.g);
    assert e in Parents(s.g, s.g.edges[e].bs.value);
  }

  predicate MayUnref(refcnt: map<NodeId, nat>, n: Option<NodeId>) {
    n.Some? ==> n.value in refcnt && refcnt[n.value] > 0
  }

  /** The abort callback of record u, with the counts. */
  function UndoneStore(s: Store, u: Undo): Store
    requires s.tran != [] && UndoAsserts(s.g, u) && MayUnref(s.refcnt, Drops(s.g, u))
  {
    Store(Undone(s.g, u), s.tran[..|s.tran| - 1], Unreffed(s.refcnt, Drops(s.g, u)),
          s.scheduled + (match DropsLater(s.g, u) case None => multiset{} case Some(n) => multiset{n}),
          s.nextEdge)
  }

  lemma UndoneCountAt(s: Store, outside: multiset<NodeId>, u: Undo, n: NodeId)
    requires s.tran != [] && u == s.tran[|s.tran| - 1] && UndoAsserts(s.g, u) && MayUnref(s.refcnt, Drops(s.g, u))
    requires n in s.refcnt && s.refcnt[n] == Refs(s.g, s.tran, s.scheduled, outside, n)
    ensures var s' := UndoneStore(s, u); s'.refcnt[n] == Refs(s'.g, s'.tran, s'.scheduled, outside, n)
  {
    UndoneParents(s.g, u, n);
    var s' := UndoneStore(s, u);
    assert s'.refcnt[n] == s.refcnt[n] - Points(Drops(s.g, u), n);
    assert s'.scheduled[n] == s.scheduled[n] + Points(DropsLater(s.g, u), n);
  }

  lemma UndoneCounted(s: Store, outside: multiset<NodeId>, u: Undo)
    requires s.tran != [] && u == s.tran[|s.tran| - 1] && UndoAsserts(s.g, u) && MayUnref(s.refcnt, Drops(s.g, u))
    requires Counted(s.g, s.tran, s.refcnt, s.scheduled, outside)
    ensures var s' := UndoneStore(s, u); Counted(s'.g, s'.tran, s'.refcnt, s'.scheduled, outside)
  {
    var s' := UndoneStore(s, u);
    forall n | n in s'.g.nodes
      ensures s'.refcnt[n] == Refs(s'.g, s'.tran, s'.scheduled, outside, n)
    {
      UndoneCountAt(s, outside, u, n);
    }
  }

  /** An abort callback meets its assertions, keeps the counts right, and every node keeps a reference. */
  lemma UndoneAborting(s: Store, outside: multiset<NodeId>, u: Undo)
    requires Aborting(s, outside) && s.tran != [] && u == s.tran[|s.tran| - 1]
    ensures UndoAsserts(s.g, u) && MayUnref(s.refcnt, Drops(s.g, u))
    ensures var s' := UndoneStore(s, u); Aborting(s', outside) && Aborted(s'.g, s'.tran) == Aborted(s.g, s.tran)
  {
    if Drops(s.g, u).Some? {
      EdgeIsCounted(s, outside, u.edge);
    }
    UndoneCounted(s, outside, u);
    var s' := UndoneStore(s, u);
    forall n | n in s'.g.nodes
      ensures |Parents(Aborted(s'.g, s'.tran), n)| + s'.scheduled[n] + outside[n] > 0
    {
      assert s'.scheduled[n] >= s.scheduled[n];
    }
  }

  /** The edges that a commit frees. */
  ghost function ToFree(tran: seq<Undo>): set<EdgeId> {
    set u | u in tran && u.RemoveChild? :: u.edge
  }

  /** The graph without those edges. */
  ghost function Committed(g: Graph, tran: seq<Undo>): Graph {
    g.(edges := g.edges - ToFree(tran))
  }

  /** What a commit keeps on the way. */
  ghost predicate Committing(s: Store, outside: multiset<NodeId>) {
    && ValidLog(s.g, []) && RemovedEmpty(s.g, s.tran)
    && Counted(s.g, s.tran, s.refcnt, s.scheduled, outside)
    && (forall n :: n in s.refcnt ==> s.refcnt[n] > 0)
    && Allocated(s.g, s.nextEdge)
  }

  lemma CommitStarts(s: Store, outside: multiset<NodeId>)
    requires ValidStore(s, outside)
    ensures Committing(s, outside)
  {
    forall n | n in s.refcnt
      ensures s.refcnt[n] > 0
    {
      Referenced(s, outside, n);
    }
  }

  lemma CommitEnds(s: Store, outside: multiset<NodeId>)
    requires Committing(s, outside) && s.tran == []
    ensures ValidStore(s, outside)
  {
    forall n | n in s.g.nodes
      ensures |Parents(Aborted(s.g, s.tran), n)| + s.scheduled[n] + outside[n] > 0
    {
      assert s.refcnt[n] > 0;
    }
  }

  /** Freeing an edge that points nowhere changes no list. */
  lemma FreedGraph(g: Graph, e: EdgeId)
    requires ValidLog(g, []) && e in g.edges && g.edges[e].bs.None?
    ensures ValidLog(g.(edges := g.edges - {e}), [])
    ensures forall n :: Parents(g.(edges := g.edges - {e}), n) == Parents(g, n)
  {
    var g' := g.(edges := g.edges - {e});
    assert forall n :: Children(g', n) == Children(g, n) && Parents(g', n) == Parents(g, n);
    EmptyEdges(g, g');
  }

  lemma ToFreeLast(tran: seq<Undo>)
    requires tran != []
    ensures var u := tran[|tran| - 1]; ToFree(tran) == ToFree(tran[..|tran| - 1]) + if u.RemoveChild? then {u.edge} else {}
  {
    var u, rest := tran[|tran| - 1], tran[..|tran| - 1];
    assert tran == rest + [u];
    forall e | e in ToFree(tran)
      ensures e in ToFree(rest) || (u.RemoveChild? && e == u.edge)
    {
      var v :| v in tran && v.RemoveChild? && v.edge == e;
      assert v in rest || v == u;
    }
  }

  /** The commit callback of record u. */
  function CommitStep(s: Store, u: Undo): Store
    requires s.tran != []
  {
    Store(if u.RemoveChild? then s.g.(edges := s.g.edges - {u.edge}) else s.g, s.tran[..|s.tran| - 1], s.refcnt,
          if u.ReplaceChild? && u.was.Some? then s.scheduled + multiset{u.was.value} else s.scheduled, s.nextEdge)
  }

  lemma CommitStepGraph(s: Store, outside: multiset<NodeId>, u: Undo)
    requires Committing(s, outside) && s.tran != [] && u == s.tran[|s.tran| - 1]
    ensures u.RemoveChild? ==> u.edge in s.g.edges && s.g.edges[u.edge].bs.None?
    ensures var s' := CommitStep(s, u);
            && ValidLog(s'.g, []) && RemovedEmpty(s'.g, s'.tran)
            && (forall n :: Parents(s'.g, n) == Parents(s.g, n))
            && Committed(s'.g, s'.tran) == Committed(s.g, s.tran)
  {
    var s' := CommitStep(s, u);
    ToFreeLast(s.tran);
    assert s.tran == s'.tran + [u];
    if u.RemoveChild? {
      FreedGraph(s.g, u.edge);
      assert s'.g.edges - ToFree(s'.tran) == s.g.edges - ToFree(s.tran);
    }
  }

  lemma CommitStepKeeps(s: Store, outside: multiset<NodeId>, u: Undo)
    requires Committing(s, outside) && s.tran != [] && u == s.tran[|s.tran| - 1]
    ensures u.RemoveChild? ==> u.edge in s.g.edges && s.g.edges[u.edge].bs.None?
    ensures var s' := CommitStep(s, u); Committing(s', outside) && Committed(s'.g, s'.tran) == Committed(s.g, s.tran)
  {
    CommitStepGraph(s, outside, u);
    var s' := CommitStep(s, u);
    forall n | n in s'.g.nodes
      ensures s'.refcnt[n] == Refs(s'.g, s'.tran, s'.scheduled, outside, n)
    {
      assert Held(s.tran)[n] == Held(s'.tran)[n] + HeldBy(u)[n];
    }
  }

  // ----- Steps that change permissions only. -----

  ghost predicate OnlyPerms(s: Store, s': Store) {
    s' == s.(g := s'.g, tran := s'.tran) && SameShape(s.g, s'.g) && ToFree(s'.tran) == ToFree(s.tran)
  }

  lemma OnlyPermsTrans(s: Store, s': Store, s'': Store)
    requires OnlyPerms(s, s') && OnlyPerms(s', s'')
    ensures OnlyPerms(s, s'')
  {
  }

  lemma PermittedOnlyPerms(s: Store, e: EdgeId, perm: set<Perm>, shared: set<Perm>)
    requires e in s.g.edges
    ensures OnlyPerms(s, Permitted(s, e, perm, shared))
  {
    PushOnlyPerms(s.tran, SetPerm(e, s.g.edges[e].perm, s.g.edges[e].shared));
  }

  lemma PushOnlyPerms(tran: seq<Undo>, u: Undo)
    requires !u.RemoveChild?
    ensures ToFree(tran + [u]) == ToFree(tran)
  {
    ToFreeLast(tran + [u]);
    assert (tran + [u])[..|tran|] == tran;
  }

  type Wanted = map<EdgeId, (set<Perm>, set<Perm>)>

  /** The edges in `done` were given, one after the other, the permissions wanted for them. */
  function PermitEach(s: Store, want: Wanted, done: seq<EdgeId>): (r: Store)
    requires forall e :: e in done ==> e in s.g.edges && e in want
    ensures r.g.edges.Keys == s.g.edges.Keys && r.g.nodes == s.g.nodes
  {
    if done == [] then s
    else
      var e := done[|done| - 1];
      Permitted(PermitEach(s, want, done[..|done| - 1]), e, want[e].0, want[e].1)
  }

  lemma {:induction false} PermitEachValid(s: Store, outside: multiset<NodeId>, want: Wanted, done: seq<EdgeId>)
    requires ValidStore(s, outside) && forall e :: e in done ==> e in s.g.edges && e in want
    ensures var r := PermitEach(s, want, done);
            ValidStore(r, outside) && OnlyPerms(s, r) && Aborted(r.g, r.tran) == Aborted(s.g, s.tran)
  {
    if done != [] {
      var front, e := done[..|done| - 1], done[|done| - 1];
      PermitEachValid(s, outside, want, front);
      PermittedValid(PermitEach(s, want, front), outside, e, want[e].0, want[e].1);
      PermittedOnlyPerms(PermitEach(s, want, front), e, want[e].0, want[e].1);
      OnlyPermsTrans(s, PermitEach(s, want, front), PermitEach(s, want, done));
    }
  }

  lemma {:induction false} PermitEachAt(s: Store, want: Wanted, done: seq<EdgeId>, e: EdgeId)
    requires (forall x :: x in done ==> x in s.g.edges && x in want) && e in s.g.edges
    ensures PermitEach(s, want, done).g.edges[e] ==
            if e in done then s.g.edges[e].(perm := want[e].0, shared := want[e].1) else s.g.edges[e]
  {
    if done != [] {
      PermitEachAt(s, want, done[..|done| - 1], e);
      assert done == done[..|done| - 1] + [done[|done| - 1]];
    }
  }

  /** What node n asks for on each of its child edges. */
  ghost function WantedBy(h: Hooks, g: Graph, n: NodeId): Wanted
    requires Closed(g)
  {
    map e | e in Children(g, n) :: (Asked(h, g, n, e, CumPerm(g, n), CumShared(g, n)).perm, Asked(h, g, n, e, CumPerm(g, n), CumShared(g, n)).shared)
  }

  /** The next child: what is computed for it is what was wanted at the start. */
  lemma NextChild(h: Hooks, s: Store, n: NodeId, done: seq<EdgeId>, c: EdgeId)
    requires Closed(s.g) && n in s.g.nodes && c in Children(s.g, n) && c !in done && forall e :: e in done ==> e in Children(s.g, n)
    ensures var r := PermitEach(s, WantedBy(h, s.g, n), done);
            && c in r.g.edges && r.g.edges[c].bs.Some? && r.g.edges[c].bs.value in r.g.nodes
            && var asked := ChildPerm(h, n, Some(c), r.g.nodes[r.g.edges[c].bs.value], r.g.edges[c].role, CumPerm(s.g, n), CumShared(s.g, n));
               PermitEach(s, WantedBy(h, s.g, n), done + [c]) == Permitted(r, c, asked.0, asked.1)
  {
    PermitEachAt(s, WantedBy(h, s.g, n), done, c);
    assert (done + [c])[..|done|] == done;
  }

  lemma PermitEachRefreshes(h: Hooks, s: Store, n: NodeId, done: seq<EdgeId>)
    requires Closed(s.g) && n in s.g.nodes && s.g.nodes[n].drv.Some? && (forall e :: e in done <==> e in Children(s.g, n))
    ensures PermitEach(s, WantedBy(h, s.g, n), done).g == Refreshed(h, s.g, n)
  {
    var r := PermitEach(s, WantedBy(h, s.g, n), done);
    forall e | e in s.g.edges
      ensures r.g.edges[e] == Refreshed(h, s.g, n).edges[e]
    {
      PermitEachAt(s, WantedBy(h, s.g, n), done, e);
    }
    assert r.g.edges == Refreshed(h, s.g, n).edges;
  }

  lemma AllPermitted(h: Hooks, s: Store, outside: multiset<NodeId>, n: NodeId, done: seq<EdgeId>)
    requires ValidStore(s, outside) && n in s.g.nodes && s.g.nodes[n].drv.Some? && forall e :: e in done <==> e in Children(s.g, n)
    ensures Closed(s.g) && var t := PermitEach(s, WantedBy(h, s.g, n), done);
            ValidStore(t, outside) && OnlyPerms(s, t) && Aborted(t.g, t.tran) == Aborted(s.g, s.tran) && t.g == Refreshed(h, s.g, n)
  {
    PermitEachValid(s, outside, WantedBy(h, s.g, n), done);
    PermitEachRefreshes(h, s, n, done);
  }

  /** The loop of bdrv_node_refresh_perm over the children. */
  method AskChildren(h: Hooks, s: Store, n: NodeId, perm: set<Perm>, shared: set<Perm>) returns (t: Store, ghost done: seq<EdgeId>)
    requires Closed(s.g) && n in s.g.nodes && perm == CumPerm(s.g, n) && shared == CumShared(s.g, n)
    ensures forall e :: e in done <==> e in Children(s.g, n)
    ensures t == PermitEach(s, WantedBy(h, s.g, n), done)
  {
    t, done := s, [];
    var todo := Children(s.g, n);
    while todo != {}
      invariant forall e :: e in Children(s.g, n) <==> e in todo || e in done
      invariant forall e :: e in done ==> e !in todo
      invariant t == PermitEach(s, WantedBy(h, s.g, n), done)
      decreases todo
    {
      var c :| c in todo;
      NextChild(h, s, n, done, c);
      var asked := ChildPerm(h, n, Some(c), t.g.nodes[t.g.edges[c].bs.value], t.g.edges[c].role, perm, shared);
      t := Permitted(t, c, asked.0, asked.1);
      done, todo := done + [c], todo - {c};
    }
  }
}
