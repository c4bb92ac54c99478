/**
 Refreshing the permissions of a subtree, and exactly when this fails after a settled
 graph was only loosened.
 */
module BlockRefresh {
  import opened Wrappers
  import opened BlockGraph
  import opened BlockPerms
  import opened BlockLoosening
  import opened BlockStore
  import opened BlockSteps

  /** Everything in the subtree of n is settled. */
  ghost predicate SettledUnder(h: Hooks, g: Graph, n: NodeId)
    requires Closed(g)
  {
    forall m :: m in g.nodes && Reaches(g, n, m) ==> Settled(h, g, m)
  }

  lemma SettledRoot(h: Hooks, g: Graph, roots: seq<NodeId>, g': Graph, n: NodeId)
    requires SettledBelow(h, g, roots, g') && n in roots
    ensures SettledUnder(h, g', n)
  {
    ShapeKeepsArrow(g, g');
    forall m | m in g'.nodes && Reaches(g', n, m)
      ensures Settled(h, g', m)
    {
      SameArrowsSameReach(g, g', n, m);
      assert Below(g, roots, m);
    }
  }

  /** bdrv_refresh_perms within a transaction. */
  method RefreshSubtree(h: Hooks, s: Store, n: NodeId, ghost outside: multiset<NodeId>) returns (t: Store, ok: bool, ghost list: seq<NodeId>)
    requires ValidStore(s, outside) && n in s.g.nodes
    ensures Rolls(s, t, outside) && OnlyPerms(s, t)
    ensures ok <==> Settleable(h, s.g, [n])
    ensures ok ==> t.g == Settling(h, s.g, [n])
    ensures Sorted(s.g, n, list)
  {
    var sorted := SortBelow(s.g, [n]);
    list := sorted;
    t, ok := DoRefreshPerms(h, s, sorted, outside);
    RefreshDecides(h, s.g, [n], list);
  }

  // ----- Loosening. -----

  /** The list is the subtree of n, sorted. */
  ghost predicate Sorted(g: Graph, n: NodeId, list: seq<NodeId>) {
    Lists(g, [n], list) && forall m :: m in list ==> m in g.nodes
  }

  /** Everything in the subtree of n is settled and monotone. */
  ghost predicate SafeToLoosen(h: Hooks, g: Graph, n: NodeId)
    requires Closed(g)
  {
    forall m :: m in g.nodes && Reaches(g, n, m) ==> Settled(h, g, m) && MonotoneAt(h, g, m)
  }

  /** Neither sizes nor drivers refuse, when permissions are handed down the subtree of n. */
  ghost predicate AdmitsBelow(h: Hooks, g: Graph, n: NodeId)
    requires Closed(g)
  {
    exists list :: Sorted(g, n, list) && AdmitsAll(h, g, list)
  }

  lemma LooserReach(g: Graph, g': Graph, a: NodeId, b: NodeId)
    requires Looser(g, g') && Reaches(g', a, b)
    ensures Reaches(g, a, b)
  {
    var path :| PathFromTo(g', path, a, b);
    forall i | 0 <= i < |path| - 1
      ensures Arrow(g, path[i], path[i + 1])
    {
      assert Arrow(g', path[i], path[i + 1]);
      var e :| e in Children(g', path[i]) && g'.edges[e].bs == Some(path[i + 1]);
      assert e in Children(g, path[i]) && g.edges[e].bs == Some(path[i + 1]);
    }
    assert PathFromTo(g, path, a, b);
  }

  lemma SafeRefreshList(h: Hooks, g: Graph, g': Graph, n: NodeId, list: seq<NodeId>)
    requires Closed(g) && Closed(g') && Looser(g, g') && SafeToLoosen(h, g, n) && Sorted(g', n, list)
    ensures RefreshAll(h, g', list).Some? <==> AdmitsAll(h, g', list)
    ensures RefreshAll(h, g', list).Some? ==> Looser(g, RefreshAll(h, g', list).value)
  {
    forall m | m in list
      ensures Settled(h, g, m) && MonotoneAt(h, g, m)
    {
      assert Below(g', [n], m);
      LooserReach(g, g', n, m);
    }
    LooseningFails(h, g, g', list);
  }

  /** When a safe graph was loosened, its subtree can be settled exactly if neither sizes nor drivers refuse, and nothing gets tighter. */
  lemma SafeRefresh(h: Hooks, g: Graph, g': Graph, n: NodeId, list: seq<NodeId>)
    requires Closed(g) && Closed(g') && Looser(g, g') && SafeToLoosen(h, g, n) && Sorted(g', n, list)
    ensures Settleable(h, g', [n]) <==> AdmitsBelow(h, g', n)
    ensures RefreshAll(h, g', list).Some? ==> Looser(g, RefreshAll(h, g', list).value)
  {
    SafeRefreshList(h, g, g', n, list);
    RefreshDecides(h, g', [n], list);
    if other :| Sorted(g', n, other) && AdmitsAll(h, g', other) {
      SafeRefreshList(h, g, g', n, other);
      RefreshDecides(h, g', [n], other);
    }
  }

  /** What a refresh after a change from g0 to g comes to, if the change only loosened a safe graph. */
  ghost predicate LoosenedRight(h: Hooks, g0: Graph, g: Graph, n: NodeId, g': Graph)
    requires Closed(g0) && Closed(g)
  {
    Looser(g0, g) && SafeToLoosen(h, g0, n) ==>
      (Settleable(h, g, [n]) <==> AdmitsBelow(h, g, n)) && (Settleable(h, g, [n]) ==> Looser(g0, g'))
  }

  lemma LoosenedRefresh(h: Hooks, g0: Graph, g: Graph, n: NodeId, list: seq<NodeId>, g': Graph)
    requires Closed(g0) && Closed(g) && Sorted(g, n, list)
    requires Settleable(h, g, [n]) ==> g' == Settling(h, g, [n])
    ensures LoosenedRight(h, g0, g, n, g')
  {
    if Looser(g0, g) && SafeToLoosen(h, g0, n) {
      SafeRefresh(h, g0, g, n, list);
      RefreshDecides(h, g, [n], list);
    }
  }

  /** Loosening never fails where all sizes are aligned and all drivers accept. */
  lemma LooseningNeverFails(h: Hooks, g: Graph, g': Graph, n: NodeId, list: seq<NodeId>)
    requires Closed(g) && Closed(g') && Looser(g, g') && SafeToLoosen(h, g, n) && Sorted(g', n, list)
    requires forall m :: m in g.nodes && Reaches(g, n, m) ==> Accepts(h, g, m)
    ensures AdmitsBelow(h, g', n) && Settleable(h, g', [n])
  {
    forall m | m in list
      ensures Accepts(h, g', m)
    {
      assert Below(g', [n], m);
      LooserReach(g, g', n, m);
    }
    AcceptingAdmits(h, g', list);
    SafeRefresh(h, g, g', n, list);
  }
}
