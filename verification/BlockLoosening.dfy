/**
 The default permission functions are monotone, so taking permissions back (lowering what
 an edge requires, raising what it shares, or removing it) never makes parents conflict
 and never needs a write to a read-only node.  What is left to fail are the size of an
 image and the check of a driver, and the refresh fails exactly if one of them refuses.
 */
module BlockLoosening {
  import opened Wrappers
  import opened BlockGraph
  import opened BlockPerms

  const PERM_PASSTHROUGH: set<Perm> := {ConsistentRead, Write, WriteUnchanged, Resize}
  const PERM_UNCHANGED: set<Perm> := ALL_PERMS - PERM_PASSTHROUGH

  /** bdrv_filter_default_perms. */
  function FilterDefaultPerms(perm: set<Perm>, shared: set<Perm>): (set<Perm>, set<Perm>) {
    (perm * PERM_PASSTHROUGH, shared * PERM_PASSTHROUGH + PERM_UNCHANGED)
  }

  /** bdrv_default_perms_for_cow. */
  function DefaultPermsForCow(bs: Node, perm: set<Perm>, shared: set<Perm>): (set<Perm>, set<Perm>) {
    (perm * {ConsistentRead},
     (if Write in shared then {Write, Resize} else {})
     + {ConsistentRead, WriteUnchanged}
     + (if bs.inactive then {Write, Resize} else {}))
  }

  /** bdrv_default_perms_for_storage. */
  function DefaultPermsForStorage(bs: Node, role: set<Role>, perm0: set<Perm>, shared0: set<Perm>): (set<Perm>, set<Perm>) {
    var (perm1, shared1) := FilterDefaultPerms(perm0, shared0);
    var (perm2, shared2) :=
      if MetadataRole in role then
        (perm1 + (if bs.writable then {Write, Resize} else {}) + (if bs.noIo then {} else {ConsistentRead}),
         shared1 - {Write, Resize})
      else (perm1, shared1);
    var (perm3, shared3) :=
      if DataRole in role then
        var p := if WriteUnchanged in perm2 then perm2 + {Write} else perm2;
        (if Write in p then p + {Resize} else p, shared2 - {Resize})
      else (perm2, shared2);
    (perm3, if bs.inactive then shared3 + {Write, Resize} else shared3)
  }

  /** The roles bdrv_default_perms accepts. */
  predicate ProperRole(role: set<Role>) {
    if FilteredRole in role then {DataRole, MetadataRole, CowRole} !! role
    else if CowRole in role then {DataRole, MetadataRole} !! role
    else DataRole in role || MetadataRole in role
  }

  /** bdrv_default_perms. */
  function DefaultPerms(bs: Node, role: set<Role>, perm: set<Perm>, shared: set<Perm>): (set<Perm>, set<Perm>)
    requires ProperRole(role)
  {
    if FilteredRole in role then FilterDefaultPerms(perm, shared)
    else if CowRole in role then DefaultPermsForCow(bs, perm, shared)
    else DefaultPermsForStorage(bs, role, perm, shared)
  }

  /**
   What the roles come to, permission by permission: filters hand everything on; a backing
   file is never asked for a write; a format driver always gets to read and, if writable, to
   write its metadata, which nobody else may then change; a data file that is written to can
   grow; and an inactive node lets others write.
   */
  lemma RolePromises(bs: Node, role: set<Role>, perm: set<Perm>, shared: set<Perm>)
    requires ProperRole(role)
    ensures var (p, s) := DefaultPerms(bs, role, perm, shared); var meta, data := MetadataRole in role, DataRole in role;
            if FilteredRole in role then p == perm && s == shared
            else if CowRole in role then
              && p == perm * {ConsistentRead} && {ConsistentRead, WriteUnchanged} <= s
              && (Write in s <==> Write in shared || bs.inactive) && (Resize in s <==> Write in shared || bs.inactive)
            else
              && (ConsistentRead in p <==> ConsistentRead in perm || (meta && !bs.noIo))
              && (Write in p <==> Write in perm || (meta && bs.writable) || (data && WriteUnchanged in perm))
              && (WriteUnchanged in p <==> WriteUnchanged in perm)
              && (Resize in p <==> Resize in perm || (meta && bs.writable) || (data && Write in p))
              && (ConsistentRead in s <==> ConsistentRead in shared) && (WriteUnchanged in s <==> WriteUnchanged in shared)
              && (Write in s <==> bs.inactive || (Write in shared && !meta))
              && (Resize in s <==> bs.inactive || (Resize in shared && !meta && !data))
  {
    AllPerms();
  }

  /** Who must grant less and may share more asks for less and shares more. */
  lemma DefaultPermsMonotone(bs: Node, role: set<Role>, perm: set<Perm>, shared: set<Perm>, perm': set<Perm>, shared': set<Perm>)
    requires ProperRole(role) && perm' <= perm && shared <= shared'
    ensures DefaultPerms(bs, role, perm', shared').0 <= DefaultPerms(bs, role, perm, shared).0
    ensures DefaultPerms(bs, role, perm, shared).1 <= DefaultPerms(bs, role, perm', shared').1
  {
  }

  /** The driver of n is monotone on each of its child edges. */
  ghost predicate MonotoneAt(h: Hooks, g: Graph, n: NodeId) {
    forall e, perm, shared, perm', shared' :: e in Children(g, n) && perm' <= perm && shared <= shared' ==>
      && h.childPerm(n, Some(e), g.edges[e].role, perm', shared').0 <= h.childPerm(n, Some(e), g.edges[e].role, perm, shared).0
      && h.childPerm(n, Some(e), g.edges[e].role, perm, shared).1 <= h.childPerm(n, Some(e), g.edges[e].role, perm', shared').1
  }

  /** The driver of n uses the default functions. */
  ghost predicate DefaultsAt(h: Hooks, g: Graph, n: NodeId)
    requires n in g.nodes
  {
    && (forall e :: e in Children(g, n) ==> ProperRole(g.edges[e].role))
    && (forall e, perm, shared :: e in Children(g, n) ==>
          h.childPerm(n, Some(e), g.edges[e].role, perm, shared) == DefaultPerms(g.nodes[n], g.edges[e].role, perm, shared))
  }

  lemma DefaultsAreMonotone(h: Hooks, g: Graph, n: NodeId)
    requires n in g.nodes && DefaultsAt(h, g, n)
    ensures MonotoneAt(h, g, n)
  {
    forall e, perm: set<Perm>, shared: set<Perm>, perm': set<Perm>, shared': set<Perm> |
      e in Children(g, n) && perm' <= perm && shared <= shared'
      ensures h.childPerm(n, Some(e), g.edges[e].role, perm', shared').0 <= h.childPerm(n, Some(e), g.edges[e].role, perm, shared).0
      ensures h.childPerm(n, Some(e), g.edges[e].role, perm, shared).1 <= h.childPerm(n, Some(e), g.edges[e].role, perm', shared').1
    {
      DefaultPermsMonotone(g.nodes[n], g.edges[e].role, perm, shared, perm', shared');
    }
  }

  /** Graph g' has only edges of g, and they require no more and share no less. */
  ghost predicate Looser(g: Graph, g': Graph) {
    && g'.nodes.Keys == g.nodes.Keys && (forall n :: n in g.nodes ==> g'.nodes[n] == g.nodes[n].(links := g'.nodes[n].links))
    && forall e :: e in g'.edges && g'.edges[e].bs.Some? ==>
         && e in g.edges
         && g'.edges[e] == g.edges[e].(perm := g'.edges[e].perm, shared := g'.edges[e].shared, frozen := g'.edges[e].frozen)
         && g'.edges[e].perm <= g.edges[e].perm
         && g.edges[e].shared <= g'.edges[e].shared
  }

  lemma LooserCum(g: Graph, g': Graph, n: NodeId)
    requires Looser(g, g')
    ensures Parents(g', n) <= Parents(g, n) && Children(g', n) <= Children(g, n)
    ensures CumPerm(g', n) <= CumPerm(g, n) && CumShared(g, n) <= CumShared(g', n)
    ensures Conflict(g', n) ==> Conflict(g, n)
  {
    assert Parents(g', n) <= Parents(g, n);
    forall p | p in CumPerm(g', n)
      ensures p in CumPerm(g, n)
    {
      var e :| e in Parents(g', n) && p in g'.edges[e].perm;
      assert e in Parents(g, n) && p in g.edges[e].perm;
    }
    if a, b :| a in Parents(g', n) && b in Parents(g', n) && a != b && !(g'.edges[b].perm <= g'.edges[a].shared) {
      assert a in Parents(g, n) && b in Parents(g, n);
    }
  }

  /** One node of a looser graph: its children become no tighter than in the settled graph. */
  lemma RefreshedIsLooser(h: Hooks, g: Graph, g': Graph, n: NodeId)
    requires Closed(g) && Closed(g') && n in g.nodes && Looser(g, g') && Settled(h, g, n) && MonotoneAt(h, g, n)
    ensures Looser(g, Refreshed(h, g', n))
  {
    var r := Refreshed(h, g', n);
    LooserCum(g, g', n);
    forall e | e in r.edges && r.edges[e].bs.Some?
      ensures e in g.edges && r.edges[e].perm <= g.edges[e].perm && g.edges[e].shared <= r.edges[e].shared
    {
      if e in Children(g', n) && g'.nodes[n].drv.Some? {
        var role := g.edges[e].role;
        assert g.edges[e] == Asked(h, g, n, e, CumPerm(g, n), CumShared(g, n));
        var tight := h.childPerm(n, Some(e), role, CumPerm(g, n), CumShared(g, n));
        var loose := h.childPerm(n, Some(e), role, CumPerm(g', n), CumShared(g', n));
        assert loose.0 <= tight.0 && tight.1 <= loose.1;
        ShareAll(loose.1);
      }
    }
  }

  lemma ShareAll(shared: set<Perm>)
    ensures shared <= ALL_PERMS
  {
    AllPerms();
  }

  /** Writing without the permission to resize needs an aligned size. */
  ghost predicate SizeFits(g: Graph, n: NodeId)
    requires n in g.nodes
  {
    g.nodes[n].aligned || Resize in CumPerm(g, n) || (Write !in CumPerm(g, n) && WriteUnchanged !in CumPerm(g, n))
  }

  /** Neither the size nor the driver of n refuses what its parents require. */
  ghost predicate Admits(h: Hooks, g: Graph, n: NodeId)
    requires n in g.nodes
  {
    SizeFits(g, n) && (g.nodes[n].drv.Some? ==> h.checkPerm(n, CumPerm(g, n), CumShared(g, n)))
  }

  /** So for each node of the list, when permissions are handed down in its order. */
  ghost predicate AdmitsAll(h: Hooks, g: Graph, list: seq<NodeId>)
    requires Closed(g) && forall n :: n in list ==> n in g.nodes
    decreases |list|
  {
    list == [] || (Admits(h, g, list[0]) && AdmitsAll(h, Refreshed(h, g, list[0]), list[1..]))
  }

  /** One node of a looser graph: parents do not conflict and writes are allowed, so only its size and its driver can refuse. */
  lemma LooserNode(h: Hooks, g: Graph, g': Graph, n: NodeId)
    requires Closed(g) && n in g.nodes && n in g'.nodes && Looser(g, g') && Settled(h, g, n)
    ensures (!Conflict(g', n) && Granted(h, g', n, CumPerm(g', n), CumShared(g', n))) <==> Admits(h, g', n)
  {
    LooserCum(g, g', n);
  }

  /**
   Exactly when loosening fails: in a settled graph with monotone drivers, the refresh of
   any looser graph succeeds if and only if no node on the way down has a size or a driver
   that refuses; and then no edge ends up requiring more or sharing less than it did.
   */
  lemma {:induction false} LooseningFails(h: Hooks, g: Graph, g': Graph, list: seq<NodeId>)
    requires Closed(g) && Closed(g') && Looser(g, g')
    requires forall n :: n in list ==> n in g.nodes && Settled(h, g, n) && MonotoneAt(h, g, n)
    ensures RefreshAll(h, g', list).Some? <==> AdmitsAll(h, g', list)
    ensures RefreshAll(h, g', list).Some? ==> Looser(g, RefreshAll(h, g', list).value)
    decreases |list|
  {
    if list != [] {
      LooserNode(h, g, g', list[0]);
      RefreshedIsLooser(h, g, g', list[0]);
      ShapeKeeps(g', Refreshed(h, g', list[0]));
      LooseningFails(h, g, Refreshed(h, g', list[0]), list[1..]);
    }
  }

  /** Node n refuses nothing for its size or by its driver. */
  ghost predicate Accepts(h: Hooks, g: Graph, n: NodeId)
    requires n in g.nodes
  {
    g.nodes[n].aligned && (g.nodes[n].drv.Some? ==> forall perm, shared :: h.checkPerm(n, perm, shared))
  }

  /** With aligned sizes and accepting driver checks nothing is left that could refuse. */
  lemma {:induction false} AcceptingAdmits(h: Hooks, g: Graph, list: seq<NodeId>)
    requires Closed(g) && forall n :: n in list ==> n in g.nodes && Accepts(h, g, n)
    ensures AdmitsAll(h, g, list)
    decreases |list|
  {
    if list != [] {
      var g', rest := Refreshed(h, g, list[0]), list[1..];
      ShapeKeeps(g, g');
      forall n | n in rest
        ensures n in g'.nodes && Accepts(h, g', n)
      {
        assert n in list;
      }
      AcceptingAdmits(h, g', rest);
      assert Accepts(h, g, list[0]);
    }
  }
}
