/**
 Setting or clearing the file or backing child of a node, without permission update.
 */
module BlockBacking {
  import opened Wrappers
  import opened BlockGraph
  import opened BlockPerms
  import opened BlockEdits
  import opened BlockTransactions
  import opened BlockStore
  import opened BlockSteps
  import opened BlockMoves
  import opened BlockInherits

  /** The store after bdrv_remove_child of an edge in use: it points nowhere, and a commit frees it. */
  function Taken(s: Store, e: EdgeId): Store
    requires e in s.g.edges
  {
    var s1 := Replaced(s, e, None);
    s1.(tran := s1.tran + [RemoveChild(e)])
  }

  lemma TakenOnce(s: Store, e: EdgeId)
    requires RemovedEmpty(s.g, s.tran) && e in s.g.edges && s.g.edges[e].bs.Some?
    ensures RemoveChild(e) !in Replaced(s, e, None).tran
  {
  }

  lemma TakenFrees(s: Store, e: EdgeId)
    requires e in s.g.edges
    ensures ToFree(Taken(s, e).tran) == ToFree(s.tran) + {e}
  {
    PushOnlyPerms(s.tran, ReplaceChild(e, s.g.edges[e].bs));
    ToFreePush(Replaced(s, e, None).tran, e);
  }

  lemma TakenValid(s: Store, outside: multiset<NodeId>, e: EdgeId)
    requires ValidStore(s, outside) && PointAsserts(s.g, e, None) && s.g.edges[e].bs.Some?
    ensures Rolls(s, Taken(s, e), outside)
  {
    ReplacedValid(s, outside, e, None);
    TakenOnce(s, e);
    IdleValid(Replaced(s, e, None), outside, RemoveChild(e));
  }

  lemma ToFreePush(tran: seq<Undo>, e: EdgeId)
    ensures ToFree(tran + [RemoveChild(e)]) == ToFree(tran) + {e}
  {
    ToFreeLast(tran + [RemoveChild(e)]);
    assert (tran + [RemoveChild(e)])[..|tran|] == tran;
  }

  function SlotLink(bs: Node, isBacking: bool): Option<EdgeId> {
    if isBacking then bs.links.backing else bs.links.file
  }

  /** The role of the new child; a format node takes that of its file child, and is refused without one. */
  function RoleOfNew(g: Graph, parent: NodeId, isBacking: bool): set<Role>
    requires parent in g.nodes
  {
    var bs := g.nodes[parent];
    if bs.drv.Some? && bs.drv.value.isFilter then {FilteredRole, PrimaryRole}
    else if isBacking then {CowRole}
    else if bs.links.file.Some? && bs.links.file.value in g.edges then g.edges[bs.links.file.value].role
    else {}
  }

  /** What callers must see to: a driver with children, and filters asked for the link they use. */
  predicate SettableLink(bs: Node, isBacking: bool) {
    bs.drv.Some? ==> bs.drv.value.hasChildPerm && (bs.drv.value.isFilter ==> bs.drv.value.filteredChildIsBacking == isBacking)
  }

  lemma LinkedChild(g: Graph, p: NodeId, isBacking: bool)
    requires ValidGraph(g) && p in g.nodes && SlotLink(g.nodes[p], isBacking).Some?
    ensures var e := SlotLink(g.nodes[p], isBacking).value;
            && g.nodes[p].drv.Some? && e in Children(g, p)
            && SlotOf(g.nodes[p].drv.value, g.edges[e].role) == (if isBacking then BackingSlot else FileSlot)
            && !Reaches(g, g.edges[e].bs.value, p)
  {
    var e := SlotLink(g.nodes[p], isBacking).value;
    assert LinksAt(g, p);
    assert Arrow(g, p, g.edges[e].bs.value);
  }

  lemma NewRoleFits(g: Graph, parent: NodeId, isBacking: bool)
    requires ValidGraph(g) && parent in g.nodes && SettableLink(g.nodes[parent], isBacking) && !LinkRefused(g, parent, isBacking)
    ensures var drv, role := g.nodes[parent].drv.value, RoleOfNew(g, parent, isBacking);
            RoleFits(drv, role) && SlotOf(drv, role) == if isBacking then BackingSlot else FileSlot
  {
    if g.nodes[parent].links.file.Some? {
      LinkedChild(g, parent, false);
      assert LinksAt(g, parent);
    }
  }

  /** The graph with the old child taken away, and the inherits_from links through it cleared. */
  ghost function Bare(g: Graph, parent: NodeId, isBacking: bool): (r: Graph)
    requires parent in g.nodes
    ensures r.nodes.Keys == g.nodes.Keys
  {
    var link := SlotLink(g.nodes[parent], isBacking);
    if link.None? || link.value !in g.edges || g.edges[link.value].bs.None? then g
    else Pointed(Cleared(g, Orphans(g, parent, link.value)), link.value, None)
  }

  /** Graph g' is g without the old child: its edge points nowhere, the other edges are as they were. */
  ghost predicate WithoutChild(g: Graph, g': Graph, parent: NodeId, isBacking: bool)
    requires parent in g.nodes
  {
    var link := SlotLink(g.nodes[parent], isBacking);
    && g'.nodes.Keys == g.nodes.Keys && g'.edges.Keys == g.edges.Keys
    && (forall e :: e in g.edges && Some(e) != link ==> g'.edges[e] == g.edges[e])
    && (link.Some? ==> link.value in g.edges && g'.edges[link.value].bs.None?)
    && SlotLink(g'.nodes[parent], isBacking).None? && g'.nodes[parent].drv == g.nodes[parent].drv
  }

  lemma TakenGraph(g: Graph, x: set<NodeId>, parent: NodeId, isBacking: bool, e: EdgeId)
    requires parent in g.nodes && LinksAt(g, parent) && SlotLink(g.nodes[parent], isBacking) == Some(e)
    requires e in Children(g, parent) && g.nodes[parent].drv.Some?
    ensures !g.edges[e].frozen ==> PointAsserts(Cleared(g, x), e, None)
    ensures WithoutChild(g, Pointed(Cleared(g, x), e, None), parent, isBacking)
  {
    var u := Cleared(g, x);
    assert u.nodes[parent].links == g.nodes[parent].links && u.nodes[parent].drv == g.nodes[parent].drv;
  }

  lemma BareWithout(g: Graph, parent: NodeId, isBacking: bool)
    requires ValidGraph(g) && parent in g.nodes
    ensures WithoutChild(g, Bare(g, parent, isBacking), parent, isBacking)
  {
    var link := SlotLink(g.nodes[parent], isBacking);
    if link.Some? {
      LinkedChild(g, parent, isBacking);
      TakenGraph(g, Orphans(g, parent, link.value), parent, isBacking, link.value);
    }
  }

  /** The edge that a commit will free. */
  function OldLink(bs: Node, isBacking: bool): set<EdgeId> {
    if SlotLink(bs, isBacking).Some? then {SlotLink(bs, isBacking).value} else {}
  }

  /** The bookkeeping of taking the old child away. */
  ghost predicate OldChildTaken(s: Store, t: Store, parent: NodeId, isBacking: bool)
    requires parent in s.g.nodes
  {
    && t.g == Bare(s.g, parent, isBacking) && t.nextEdge == s.nextEdge
    && ToFree(t.tran) == ToFree(s.tran) + OldLink(s.g.nodes[parent], isBacking)
  }

  lemma OldChildGone(s: Store, u: Store, parent: NodeId, isBacking: bool, e: EdgeId, rank: map<NodeId, nat>, outside: multiset<NodeId>)
    requires ValidStore(s, outside) && parent in s.g.nodes && SlotLink(s.g.nodes[parent], isBacking) == Some(e)
    requires e in Children(s.g, parent) && !s.g.edges[e].frozen && s.g.nodes[parent].drv.Some?
    requires OnlyInherits(s, u, outside) && InheritsRanked(u.g, rank) && u.g == Cleared(s.g, Orphans(s.g, parent, e))
    ensures e in u.g.edges && var t := Taken(u, e); Rolls(s, t, outside) && InheritsRanked(t.g, rank) && OldChildTaken(s, t, parent, isBacking)
  {
    TakenGraph(s.g, Orphans(s.g, parent, e), parent, isBacking, e);
    TakenValid(u, outside, e);
    TakenFrees(u, e);
    PointedInherits(u.g, e, None, rank);
  }

  /** The first half: the old child, if any, is taken away, with the inherits_from links through it. */
  method TakeOldChild(s: Store, parent: NodeId, isBacking: bool, ghost rank: map<NodeId, nat>, ghost outside: multiset<NodeId>) returns (t: Store)
    requires ValidStore(s, outside) && parent in s.g.nodes && s.g.nodes[parent].drv.Some? && InheritsRanked(s.g, rank)
    requires var c := SlotLink(s.g.nodes[parent], isBacking); c.Some? && c.value in s.g.edges ==> !s.g.edges[c.value].frozen
    ensures Rolls(s, t, outside) && InheritsRanked(t.g, rank) && OldChildTaken(s, t, parent, isBacking)
  {
    t := s;
    var link := SlotLink(s.g.nodes[parent], isBacking);
    if link.Some? {
      LinkedChild(s.g, parent, isBacking);
      t := UnsetInheritsFrom(s, parent, link.value, rank, outside);
      OldChildGone(s, t, parent, isBacking, link.value, rank, outside);
      t := Taken(t, link.value);
    }
  }

  // ----- The new child. -----

  /** The graph with the new child, which inherits from the parent if it did so before, perhaps indirectly. */
  ghost function Adopted(h: Hooks, g: Graph, e: EdgeId, parent: NodeId, child: NodeId, role: set<Role>, inherits: bool): Graph
    requires child in g.nodes
  {
    var a := WithNewChild(h, g, e, parent, child, role);
    if inherits then a.(nodes := a.nodes[child := a.nodes[child].(inheritsFrom := Some(parent))]) else a
  }

  lemma AttachedRanked(s: Store, owner: Owner, child: NodeId, role: set<Role>, perm: set<Perm>, shared: set<Perm>, rank: map<NodeId, nat>)
    requires child in s.refcnt && s.nextEdge !in s.g.edges && InheritsRanked(s.g, rank)
    ensures InheritsRanked(Attached(s, owner, child, role, perm, shared).g, rank)
  {
    PointedInherits(s.g.(edges := s.g.edges[s.nextEdge := Edge(owner, None, role, perm, shared, false)]), s.nextEdge, Some(child), rank);
  }

  /** The second half: attach the new child, and let it inherit from the parent if it did so indirectly. */
  method AddNewChild(h: Hooks, bare: Store, parent: NodeId, child: NodeId, role: set<Role>, inherits: bool,
                     ghost rank: map<NodeId, nat>, ghost outside: multiset<NodeId>)
    returns (t: Store, ok: bool)
    requires ValidStore(bare, outside) && parent in bare.g.nodes && child in bare.g.nodes && TakesChild(bare.g.nodes[parent], role)
    requires InheritsRanked(bare.g, rank) && (inherits && child != parent ==> child in rank && parent in rank && rank[parent] < rank[child])
    ensures Rolls(bare, t, outside)
    ensures ok <==> AttachAllowed(h, bare.g, parent, child, role)
    ensures ok ==> t.g == Adopted(h, bare.g, bare.nextEdge, parent, child, role, inherits) && ToFree(t.tran) == ToFree(bare.tran)
  {
    var e;
    t, e := AttachChildNoperm(h, bare, parent, child, role, outside);
    ok := e.Some?;
    if ok {
      PushOnlyPerms(bare.tran, AttachChild(bare.nextEdge));
      if inherits {
        ghost var asked := AskedOfNew(h, bare.g, parent, child, role);
        AttachedRanked(bare, ByNode(parent), child, role, asked.0, asked.1, rank);
        assert child != parent by {
          ReachesSelf(bare.g, child);
        }
        InheritedValid(t, outside, child, Some(parent), rank);
        PushOnlyPerms(t.tran, SetInherits(child, t.g.nodes[child].inheritsFrom));
        t := Inherited(t, child, Some(parent));
      }
    }
  }

  /** Why bdrv_set_file_or_backing_noperm refuses before it touches the graph. */
  predicate LinkRefused(g: Graph, parent: NodeId, isBacking: bool)
    requires parent in g.nodes
  {
    var bs, link := g.nodes[parent], SlotLink(g.nodes[parent], isBacking);
    || bs.drv.None?
    || (link.Some? && link.value in g.edges && g.edges[link.value].frozen)
    || (isBacking && !bs.drv.value.isFilter && !bs.drv.value.supportsBacking)
    || (!isBacking && !bs.drv.value.isFilter && bs.links.file.None?)
  }

  /** When it succeeds: not refused, and the new child, attached in place of the old one, closes no loop and is not inactive. */
  ghost predicate LinkAllowed(h: Hooks, g: Graph, parent: NodeId, child: Option<NodeId>, isBacking: bool)
    requires parent in g.nodes && (child.Some? ==> child.value in g.nodes)
  {
    && !LinkRefused(g, parent, isBacking)
    && (child.Some? ==> AttachAllowed(h, Bare(g, parent, isBacking), parent, child.value, RoleOfNew(g, parent, isBacking)))
  }

  /** The graph with the link changed. */
  ghost function LinkSet(h: Hooks, g: Graph, e: EdgeId, parent: NodeId, child: Option<NodeId>, isBacking: bool): Graph
    requires parent in g.nodes && (child.Some? ==> child.value in g.nodes)
  {
    var bare := Bare(g, parent, isBacking);
    if child.None? then bare
    else Adopted(h, bare, e, parent, child.value, RoleOfNew(g, parent, isBacking), Inherits(g, child.value, parent))
  }

  /**
   The same, seen from the graph before: the driver exists and takes such a link, the old
   edge is not frozen, the parent is not below the child, and an inactive child is only read,
   and only by an inactive parent.
   */
  lemma LinkAllowedMeans(h: Hooks, g: Graph, parent: NodeId, child: NodeId, isBacking: bool)
    requires ValidGraph(g) && parent in g.nodes && child in g.nodes
    ensures LinkAllowed(h, g, parent, Some(child), isBacking) <==>
            && var bs, link := g.nodes[parent], SlotLink(g.nodes[parent], isBacking);
            && bs.drv.Some? && (link.Some? ==> link.value in g.edges && !g.edges[link.value].frozen)
            && (bs.drv.value.isFilter || if isBacking then bs.drv.value.supportsBacking else bs.links.file.Some?)
            && !Reaches(g, child, parent)
            && (g.nodes[child].inactive ==>
                  bs.inactive && h.childPerm(parent, None, RoleOfNew(g, parent, isBacking), CumPerm(g, parent), CumShared(g, parent)).0 <= {ConsistentRead})
  {
    var b := Bare(g, parent, isBacking);
    BareWithout(g, parent, isBacking);
    OldLinkFacts(g, parent, isBacking);
    BareReaches(g, b, parent, child, isBacking);
    BareParents(g, b, parent, isBacking);
    BareNode(g, parent, parent, isBacking);
    BareNode(g, parent, child, isBacking);
  }

  lemma OldLinkFacts(g: Graph, parent: NodeId, isBacking: bool)
    requires ValidGraph(g) && parent in g.nodes
    ensures OwnLink(g, parent, isBacking)
    ensures var link := SlotLink(g.nodes[parent], isBacking); link.Some? ==> link.value in g.edges && g.edges[link.value].bs != Some(parent)
  {
    if SlotLink(g.nodes[parent], isBacking).Some? {
      LinkedChild(g, parent, isBacking);
      ReachesSelf(g, parent);
    }
  }

  lemma PointedNode(g: Graph, e: EdgeId, target: Option<NodeId>, n: NodeId)
    requires e in g.edges && n in g.nodes
    ensures var x := Pointed(g, e, target).nodes[n]; x == g.nodes[n].(links := x.links)
  {
  }

  /** The nodes below the old child that stop inheriting from the parent. */
  ghost function Orphaned(g: Graph, parent: NodeId, isBacking: bool): set<NodeId>
    requires parent in g.nodes
  {
    var link := SlotLink(g.nodes[parent], isBacking);
    if link.None? || link.value !in g.edges || g.edges[link.value].bs.None? then {} else Orphans(g, parent, link.value)
  }

  /** Of a node, only the parent's links and the inheritance change. */
  lemma BareNode(g: Graph, parent: NodeId, n: NodeId, isBacking: bool)
    requires parent in g.nodes && n in g.nodes
    ensures var x := Bare(g, parent, isBacking).nodes[n];
            x == g.nodes[n].(links := x.links, inheritsFrom := if n in Orphaned(g, parent, isBacking) then None else g.nodes[n].inheritsFrom)
  {
    var link := SlotLink(g.nodes[parent], isBacking);
    if link.Some? && link.value in g.edges && g.edges[link.value].bs.Some? {
      var u := Cleared(g, Orphans(g, parent, link.value));
      PointedNode(u, link.value, None, n);
      assert Bare(g, parent, isBacking) == Pointed(u, link.value, None);
    }
  }

  /** Taking the old child away changes nothing about what is above the parent... */
  lemma BareParents(g: Graph, b: Graph, parent: NodeId, isBacking: bool)
    requires parent in g.nodes && WithoutChild(g, b, parent, isBacking)
    requires var link := SlotLink(g.nodes[parent], isBacking); link.Some? ==> link.value in g.edges && g.edges[link.value].bs != Some(parent)
    ensures CumPerm(b, parent) == CumPerm(g, parent) && CumShared(b, parent) == CumShared(g, parent)
  {
    assert Parents(b, parent) == Parents(g, parent);
    assert forall e :: e in Parents(g, parent) ==> b.edges[e] == g.edges[e];
  }

  /** ...nor about who reaches it. */
  lemma BareReaches(g: Graph, b: Graph, parent: NodeId, child: NodeId, isBacking: bool)
    requires Acyclic(g) && parent in g.nodes && WithoutChild(g, b, parent, isBacking) && OwnLink(g, parent, isBacking)
    ensures Reaches(b, child, parent) <==> Reaches(g, child, parent)
  {
    if path :| PathFromTo(b, path, child, parent) {
      forall i | 0 <= i < |path| - 1
        ensures Arrow(g, path[i], path[i + 1])
      {
        assert Arrow(b, path[i], path[i + 1]);
        BareArrow(g, b, parent, isBacking, path[i], path[i + 1]);
      }
      assert PathFromTo(g, path, child, parent);
    }
    if path :| PathFromTo(g, path, child, parent) {
      forall i | 0 <= i < |path| - 1
        ensures Arrow(b, path[i], path[i + 1])
      {
        assert Arrow(g, path[i], path[i + 1]);
        NoReturn(g, path, i);
        BareArrow(g, b, parent, isBacking, path[i], path[i + 1]);
      }
      assert PathFromTo(b, path, child, parent);
    }
  }

  ghost predicate OwnLink(g: Graph, parent: NodeId, isBacking: bool)
    requires parent in g.nodes
  {
    var link := SlotLink(g.nodes[parent], isBacking);
    link.Some? ==> link.value in g.edges && g.edges[link.value].owner == ByNode(parent)
  }

  lemma BareArrow(g: Graph, b: Graph, parent: NodeId, isBacking: bool, x: NodeId, y: NodeId)
    requires parent in g.nodes && WithoutChild(g, b, parent, isBacking) && OwnLink(g, parent, isBacking)
    ensures Arrow(b, x, y) ==> Arrow(g, x, y)
    ensures Arrow(g, x, y) && x != parent ==> Arrow(b, x, y)
  {
    if d :| d in Children(b, x) && b.edges[d].bs == Some(y) {
      assert d in Children(g, x) && g.edges[d].bs == Some(y);
    }
    if d :| d in Children(g, x) && g.edges[d].bs == Some(y) && x != parent {
      assert d in Children(b, x) && b.edges[d].bs == Some(y);
    }
  }

  lemma BareTakes(g: Graph, parent: NodeId, isBacking: bool)
    requires ValidGraph(g) && parent in g.nodes && SettableLink(g.nodes[parent], isBacking) && !LinkRefused(g, parent, isBacking)
    ensures TakesChild(Bare(g, parent, isBacking).nodes[parent], RoleOfNew(g, parent, isBacking))
  {
    BareWithout(g, parent, isBacking);
    NewRoleFits(g, parent, isBacking);
  }

  /** The exchange itself, once nothing speaks against it. */
  method ExchangeChild(h: Hooks, s: Store, parent: NodeId, child: Option<NodeId>, role: set<Role>, isBacking: bool, inherits: bool,
                       ghost rank: map<NodeId, nat>, ghost outside: multiset<NodeId>)
    returns (t: Store, ok: bool)
    requires ValidStore(s, outside) && parent in s.g.nodes && (child.Some? ==> child.value in s.g.nodes) && InheritsRanked(s.g, rank)
    requires !LinkRefused(s.g, parent, isBacking) && TakesChild(Bare(s.g, parent, isBacking).nodes[parent], role)
    requires inherits && child.Some? && child.value != parent ==> child.value in rank && parent in rank && rank[parent] < rank[child.value]
    ensures Rolls(s, t, outside)
    ensures ok <==> (child.Some? ==> AttachAllowed(h, Bare(s.g, parent, isBacking), parent, child.value, role))
    ensures ok ==> && ToFree(t.tran) == ToFree(s.tran) + OldLink(s.g.nodes[parent], isBacking)
                   && t.g == if child.None? then Bare(s.g, parent, isBacking)
                             else Adopted(h, Bare(s.g, parent, isBacking), s.nextEdge, parent, child.value, role, inherits)
  {
    t := TakeOldChild(s, parent, isBacking, rank, outside);
    ok := true;
    if child.Some? {
      t, ok := AddNewChild(h, t, parent, child.value, role, inherits, rank, outside);
    }
  }

  /** The rest of bdrv_set_file_or_backing_noperm, after its first checks. */
  method ChangeLink(h: Hooks, s: Store, parent: NodeId, child: Option<NodeId>, isBacking: bool, ghost rank: map<NodeId, nat>, ghost outside: multiset<NodeId>)
    returns (t: Store, ok: bool)
    requires ValidStore(s, outside) && parent in s.g.nodes && (child.Some? ==> child.value in s.g.nodes) && InheritsRanked(s.g, rank)
    requires SettableLink(s.g.nodes[parent], isBacking) && !LinkRefused(s.g, parent, isBacking)
    ensures Rolls(s, t, outside)
    ensures ok <==> LinkAllowed(h, s.g, parent, child, isBacking)
    ensures ok ==> t.g == LinkSet(h, s.g, s.nextEdge, parent, child, isBacking)
    ensures ok ==> ToFree(t.tran) == ToFree(s.tran) + OldLink(s.g.nodes[parent], isBacking)
  {
    var inherits := InheritsFromRecursive(s.g, child, parent, rank);
    if inherits && child.value != parent {
      InheritsLowersRank(s.g, rank, child.value, parent);
    }
    SomeRank(s.g, rank, child, parent);
    BareTakes(s.g, parent, isBacking);
    t, ok := ExchangeChild(h, s, parent, child, RoleOfNew(s.g, parent, isBacking), isBacking, inherits, rank, outside);
  }

  /**
   bdrv_set_file_or_backing_noperm: fails exactly if it is refused, or if the new child would
   close a loop or be inactive; otherwise the old child is taken away and the new one, if
   any, is in its place.
   */
  method SetFileOrBackingNoperm(h: Hooks, s: Store, parent: NodeId, child: Option<NodeId>, isBacking: bool, ghost outside: multiset<NodeId>)
    returns (t: Store, ok: bool)
    requires ValidStore(s, outside) && parent in s.g.nodes && (child.Some? ==> child.value in s.g.nodes)
    requires SettableLink(s.g.nodes[parent], isBacking)
    ensures Rolls(s, t, outside)
    ensures ok <==> LinkAllowed(h, s.g, parent, child, isBacking)
    ensures ok ==> t.g == LinkSet(h, s.g, s.nextEdge, parent, child, isBacking)
    ensures ok ==> ToFree(t.tran) == ToFree(s.tran) + OldLink(s.g.nodes[parent], isBacking)
  {
    t, ok := s, false;
    if !LinkRefused(s.g, parent, isBacking) {
      ghost var rank :| InheritsRanked(s.g, rank);
      t, ok := ChangeLink(h, s, parent, child, isBacking, rank, outside);
    }
  }

  /** What the change means: the old edge points nowhere, the new one is named by the parent's link, all others are as they were. */
  ghost predicate LinkChanged(g: Graph, g': Graph, e: EdgeId, parent: NodeId, child: Option<NodeId>, isBacking: bool)
    requires parent in g.nodes
  {
    var link := SlotLink(g.nodes[parent], isBacking);
    && g'.nodes.Keys == g.nodes.Keys && g'.edges.Keys == g.edges.Keys + (if child.Some? then {e} else {})
    && (forall x :: x in g.edges && Some(x) != link ==> g'.edges[x] == g.edges[x])
    && (link.Some? ==> link.value in g'.edges && g'.edges[link.value].bs.None?)
    && SlotLink(g'.nodes[parent], isBacking) == (if child.Some? then Some(e) else None)
    && (child.Some? ==> g'.edges[e].owner == ByNode(parent) && g'.edges[e].bs == child)
  }

  /** The new edge is filtered for a filter, a backing edge, or takes the role of the old file edge. */
  ghost predicate RoleTaken(g: Graph, g': Graph, e: EdgeId, parent: NodeId, isBacking: bool)
    requires parent in g.nodes && g.nodes[parent].drv.Some? && e in g'.edges
  {
    var file := g.nodes[parent].links.file;
    if g.nodes[parent].drv.value.isFilter then g'.edges[e].role == {FilteredRole, PrimaryRole}
    else if isBacking then g'.edges[e].role == {CowRole}
    else file.Some? && file.value in g.edges && g'.edges[e].role == g.edges[file.value].role
  }

  /** The new child inherits from the parent if it did so before over any steps; links through the old child are cleared. */
  ghost predicate InheritsRight(g: Graph, g': Graph, parent: NodeId, child: Option<NodeId>, isBacking: bool)
    requires parent in g.nodes && g'.nodes.Keys == g.nodes.Keys
  {
    forall n :: n in g.nodes ==>
      g'.nodes[n].inheritsFrom ==
      if child == Some(n) && Inherits(g, n, parent) then Some(parent)
      else if n in Orphaned(g, parent, isBacking) then None
      else g.nodes[n].inheritsFrom
  }

  lemma LinkSetMeans(h: Hooks, g: Graph, e: EdgeId, parent: NodeId, child: Option<NodeId>, isBacking: bool)
    requires ValidGraph(g) && parent in g.nodes && (child.Some? ==> child.value in g.nodes) && e !in g.edges
    requires SettableLink(g.nodes[parent], isBacking) && LinkAllowed(h, g, parent, child, isBacking)
    ensures LinkChanged(g, LinkSet(h, g, e, parent, child, isBacking), e, parent, child, isBacking)
  {
    BareWithout(g, parent, isBacking);
    NewRoleFits(g, parent, isBacking);
    if child.Some? {
      AdoptedLinks(h, Bare(g, parent, isBacking), e, parent, child.value, RoleOfNew(g, parent, isBacking), Inherits(g, child.value, parent), isBacking);
    }
  }

  lemma LinkSetRole(h: Hooks, g: Graph, e: EdgeId, parent: NodeId, child: NodeId, isBacking: bool)
    requires ValidGraph(g) && parent in g.nodes && child in g.nodes && LinkAllowed(h, g, parent, Some(child), isBacking)
    ensures var g' := LinkSet(h, g, e, parent, Some(child), isBacking); e in g'.edges && RoleTaken(g, g', e, parent, isBacking)
  {
    AdoptedEdge(h, Bare(g, parent, isBacking), e, parent, child, RoleOfNew(g, parent, isBacking), Inherits(g, child, parent));
    if g.nodes[parent].links.file.Some? {
      OldLinkFacts(g, parent, false);
    }
  }

  lemma AdoptedEdge(h: Hooks, g: Graph, e: EdgeId, parent: NodeId, child: NodeId, role: set<Role>, inherits: bool)
    requires child in g.nodes
    ensures var g' := Adopted(h, g, e, parent, child, role, inherits); e in g'.edges && g'.edges[e].role == role
  {
  }

  lemma LinkSetInherits(h: Hooks, g: Graph, e: EdgeId, parent: NodeId, child: Option<NodeId>, isBacking: bool)
    requires parent in g.nodes && (child.Some? ==> child.value in g.nodes)
    ensures var g' := LinkSet(h, g, e, parent, child, isBacking);
            g'.nodes.Keys == g.nodes.Keys && InheritsRight(g, g', parent, child, isBacking)
  {
    forall n | n in g.nodes
      ensures var g' := LinkSet(h, g, e, parent, child, isBacking);
              n in g'.nodes && g'.nodes[n].inheritsFrom ==
              if child == Some(n) && Inherits(g, n, parent) then Some(parent)
              else if n in Orphaned(g, parent, isBacking) then None
              else g.nodes[n].inheritsFrom
    {
      BareNode(g, parent, n, isBacking);
      if child.Some? {
        AdoptedNode(h, Bare(g, parent, isBacking), e, parent, child.value, RoleOfNew(g, parent, isBacking), Inherits(g, child.value, parent), n);
      }
    }
    if child.Some? {
      AdoptedKeys(h, Bare(g, parent, isBacking), e, parent, child.value, RoleOfNew(g, parent, isBacking), Inherits(g, child.value, parent));
    }
  }

  lemma AdoptedKeys(h: Hooks, g: Graph, e: EdgeId, parent: NodeId, child: NodeId, role: set<Role>, inherits: bool)
    requires child in g.nodes
    ensures Adopted(h, g, e, parent, child, role, inherits).nodes.Keys == g.nodes.Keys
  {
  }

  lemma AdoptedNode(h: Hooks, g: Graph, e: EdgeId, parent: NodeId, child: NodeId, role: set<Role>, inherits: bool, n: NodeId)
    requires child in g.nodes && n in g.nodes
    ensures var g' := Adopted(h, g, e, parent, child, role, inherits);
            n in g'.nodes && g'.nodes[n].inheritsFrom == if inherits && n == child then Some(parent) else g.nodes[n].inheritsFrom
  {
    var asked := AskedOfNew(h, g, parent, child, role);
    PointedNode(g.(edges := g.edges[e := Edge(ByNode(parent), None, role, asked.0, asked.1, false)]), e, Some(child), n);
  }

  lemma AdoptedLinks(h: Hooks, g: Graph, e: EdgeId, parent: NodeId, child: NodeId, role: set<Role>, inherits: bool, isBacking: bool)
    requires parent in g.nodes && child in g.nodes && e !in g.edges && g.nodes[parent].drv.Some?
    requires SlotOf(g.nodes[parent].drv.value, role) == if isBacking then BackingSlot else FileSlot
    requires SlotLink(g.nodes[parent], isBacking).None?
    ensures LinkChanged(g, Adopted(h, g, e, parent, child, role, inherits), e, parent, Some(child), isBacking)
  {
  }

  lemma SomeRank(g: Graph, rank: map<NodeId, nat>, child: Option<NodeId>, parent: NodeId)
    requires InheritsRanked(g, rank) && (child.Some? ==> child.value in g.nodes)
    ensures child.Some? ==> (Inherits(g, child.value, parent) <==> InheritsFrom(g, rank, child.value, parent))
  {
    if child.Some? {
      if other :| InheritsRanked(g, other) && InheritsFrom(g, other, child.value, parent) {
        AnyRank(g, rank, other, child.value, parent);
      }
    }
  }
}
