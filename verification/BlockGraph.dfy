/**
 The block graph: nodes joined by edges (BdrvChild), its searches, and what it means
 for it to have no loop.  The C lists are kept in no particular order, so they are
 sets here and every loop over one takes its elements in any order.
 */
module BlockGraph {
  import opened Wrappers

  type NodeId = nat
  type EdgeId = nat

  datatype Perm = ConsistentRead | Write | WriteUnchanged | Resize

  const ALL_PERMS: set<Perm> := {ConsistentRead, Write, WriteUnchanged, Resize}

  datatype Role = DataRole | MetadataRole | FilteredRole | CowRole | PrimaryRole

  /** Who holds an edge: another node, or a user (a block backend, or a job, whose edges stay at their node). */
  datatype Owner = ByNode(node: NodeId) | ByUser(stayAtNode: bool)

  datatype Edge = Edge(owner: Owner, bs: Option<NodeId>, role: set<Role>, perm: set<Perm>, shared: set<Perm>, frozen: bool)

  /** The parts of a BlockDriver that the graph code looks at. */
  datatype Driver = Driver(isFilter: bool, filteredChildIsBacking: bool, supportsBacking: bool, hasChildPerm: bool)

  /** bs->file and bs->backing. */
  datatype Links = Links(file: Option<EdgeId>, backing: Option<EdgeId>)

  datatype Node = Node(
    drv: Option<Driver>,
    links: Links,
    inheritsFrom: Option<NodeId>,
    writable: bool,
    inactive: bool,
    noIo: bool,
    aligned: bool,       // the image size is a multiple of the request alignment
    forceShare: bool
  )

  datatype Graph = Graph(nodes: map<NodeId, Node>, edges: map<EdgeId, Edge>)

  /** bs->children: an edge is in its parent's list exactly while it points to a node. */
  function Children(g: Graph, n: NodeId): set<EdgeId> {
    set e | e in g.edges && g.edges[e].owner == ByNode(n) && g.edges[e].bs.Some?
  }

  /** bs->parents. */
  function Parents(g: Graph, n: NodeId): set<EdgeId> {
    set e | e in g.edges && g.edges[e].bs == Some(n)
  }

  ghost predicate Closed(g: Graph) {
    forall e :: e in g.edges ==>
                  && (g.edges[e].bs.Some? ==> g.edges[e].bs.value in g.nodes)
                  && (g.edges[e].owner.ByNode? ==> g.edges[e].owner.node in g.nodes)
  }

  // ----- Paths. -----

  /** Node a has node b as a child. */
  ghost predicate Arrow(g: Graph, a: NodeId, b: NodeId) {
    exists e :: e in Children(g, a) && g.edges[e].bs == Some(b)
  }

  ghost predicate Path(g: Graph, p: seq<NodeId>) {
    p != [] && forall i :: 0 <= i < |p| - 1 ==> Arrow(g, p[i], p[i + 1])
  }

  ghost predicate PathFromTo(g: Graph, p: seq<NodeId>, a: NodeId, b: NodeId) {
    Path(g, p) && p[0] == a && p[|p| - 1] == b
  }

  /** Node b is in the subtree of node a, a included. */
  ghost predicate Reaches(g: Graph, a: NodeId, b: NodeId) {
    exists p :: PathFromTo(g, p, a, b)
  }

  ghost predicate Acyclic(g: Graph) {
    forall a, b :: Arrow(g, a, b) ==> !Reaches(g, b, a)
  }

  lemma ReachesSelf(g: Graph, a: NodeId)
    ensures Reaches(g, a, a)
  {
    assert PathFromTo(g, [a], a, a);
  }

  lemma ArrowReaches(g: Graph, a: NodeId, b: NodeId)
    requires Arrow(g, a, b)
    ensures Reaches(g, a, b)
  {
    assert PathFromTo(g, [a, b], a, b);
  }

  lemma ReachesTrans(g: Graph, a: NodeId, b: NodeId, c: NodeId)
    requires Reaches(g, a, b) && Reaches(g, b, c)
    ensures Reaches(g, a, c)
  {
    var p :| PathFromTo(g, p, a, b);
    var q :| PathFromTo(g, q, b, c);
    var r := p + q[1..];
    forall i | 0 <= i < |r| - 1
      ensures Arrow(g, r[i], r[i + 1])
    {
      if i < |p| - 1 {
        assert Arrow(g, p[i], p[i + 1]);
      } else {
        assert Arrow(g, q[i - |p| + 1], q[i - |p| + 2]);
      }
    }
    assert PathFromTo(g, r, a, c);
  }

  /** The first arrow of a path. */
  lemma ReachesFirst(g: Graph, a: NodeId, b: NodeId) returns (m: NodeId)
    requires Reaches(g, a, b) && a != b
    ensures Arrow(g, a, m) && Reaches(g, m, b)
  {
    var p :| PathFromTo(g, p, a, b);
    m := p[1];
    assert Arrow(g, p[0], p[1]);
    forall i | 0 <= i < |p| - 2
      ensures Arrow(g, p[1..][i], p[1..][i + 1])
    {
      assert Arrow(g, p[i + 1], p[i + 2]);
    }
    assert PathFromTo(g, p[1..], m, b);
  }

  ghost predicate ClosedUnder(g: Graph, s: set<NodeId>) {
    forall a, b :: a in s && Arrow(g, a, b) ==> b in s
  }

  /** A set closed under children holds the subtree of each of its nodes. */
  lemma ReachStays(g: Graph, s: set<NodeId>, a: NodeId, b: NodeId)
    requires ClosedUnder(g, s) && a in s && Reaches(g, a, b)
    ensures b in s
  {
    var p :| PathFromTo(g, p, a, b);
    PathStays(g, s, p, |p| - 1);
  }

  lemma {:induction false} PathStays(g: Graph, s: set<NodeId>, p: seq<NodeId>, i: nat)
    requires ClosedUnder(g, s) && Path(g, p) && p[0] in s && i < |p|
    ensures p[i] in s
  {
    if i > 0 {
      PathStays(g, s, p, i - 1);
      assert Arrow(g, p[i - 1], p[i]);
    }
  }

  /** The subtree of n. */
  ghost function Subtree(g: Graph, n: NodeId): set<NodeId> {
    set m | m in g.nodes && Reaches(g, n, m)
  }

  /** Without loops the subtree of a child is smaller: what the recursions below rely on to end. */
  lemma SubtreeShrinks(g: Graph, a: NodeId, b: NodeId)
    requires Closed(g) && Acyclic(g) && a in g.nodes && Arrow(g, a, b)
    ensures Subtree(g, b) < Subtree(g, a)
  {
    ArrowReaches(g, a, b);
    ReachesSelf(g, a);
    forall m | m in Subtree(g, b)
      ensures m in Subtree(g, a)
    {
      ReachesTrans(g, a, b, m);
    }
    assert a in Subtree(g, a) && a !in Subtree(g, b);
  }

  // ----- Searches. -----

  /** The part of a list that a loop has behind it grows by the element it takes. */
  lemma OneDone(all: set<EdgeId>, todo: set<EdgeId>, d: EdgeId)
    requires d in todo && todo <= all
    ensures all - todo + {d} == all - (todo - {d})
  {
  }

  lemma NoneAndAllDone(all: set<EdgeId>)
    ensures all - all == {} && all - {} == all
  {
  }

  lemma NoneBelow(g: Graph, a: NodeId, b: NodeId)
    requires a != b && forall e :: e in Children(g, a) ==> !Reaches(g, g.edges[e].bs.value, b)
    ensures !Reaches(g, a, b)
  {
    if Reaches(g, a, b) {
      var m := ReachesFirst(g, a, b);
    }
  }

  /** bdrv_recurse_has_child decides whether one node is in the subtree of another. */
  method RecurseHasChild(g: Graph, bs: NodeId, child: NodeId) returns (r: bool)
    requires Closed(g) && Acyclic(g) && bs in g.nodes
    ensures r == Reaches(g, bs, child)
    decreases Subtree(g, bs)
  {
    if bs == child {
      ReachesSelf(g, bs);
      return true;
    }
    var todo := Children(g, bs);
    while todo != {}
      invariant todo <= Children(g, bs)
      invariant forall e :: e in Children(g, bs) - todo ==> !Reaches(g, g.edges[e].bs.value, child)
      decreases |todo|
    {
      var c :| c in todo;
      var next := g.edges[c].bs.value;
      assert Arrow(g, bs, next);
      SubtreeShrinks(g, bs, next);
      var below := RecurseHasChild(g, next, child);
      if below {
        ArrowReaches(g, bs, next);
        ReachesTrans(g, bs, next, child);
        return true;
      }
      todo := todo - {c};
    }
    NoneBelow(g, bs, child);
    return false;
  }

  /** Edge c hangs below node `to`: the node that holds it is in the subtree of `to`. */
  ghost predicate HangsBelow(g: Graph, c: EdgeId, to: NodeId) {
    c in g.edges && g.edges[c].bs.Some? && g.edges[c].owner.ByNode? && Reaches(g, to, g.edges[c].owner.node)
  }

  /** What the breadth-first search of should_update_child knows after looking at the children of all of `done`. */
  ghost predicate Searched(g: Graph, c: EdgeId, to: NodeId, found: set<NodeId>, done: set<NodeId>, ret: bool) {
    && to in found && done <= found <= g.nodes.Keys
    && (forall n :: n in found ==> Reaches(g, to, n))
    && (ret ==> forall n, e :: n in done && e in Children(g, n) ==> e != c && g.edges[e].bs.value in found)
    && (!ret ==> HangsBelow(g, c, to))
  }

  /** The queue holds each of the nodes s once. */
  ghost predicate Queued(queue: seq<NodeId>, s: set<NodeId>) {
    && (forall n :: n in queue <==> n in s)
    && (forall i, j :: 0 <= i < j < |queue| ==> queue[i] != queue[j])
  }

  lemma Enqueue(queue: seq<NodeId>, s: set<NodeId>, n: NodeId)
    requires Queued(queue, s) && n !in s
    ensures Queued(queue + [n], s + {n})
  {
  }

  /**
   should_update_child: false for an edge that stays at its node, and otherwise false
   exactly if the edge hangs below the new node, that is if redirecting it closes a loop.
   */
  method ShouldUpdateChild(g: Graph, c: EdgeId, to: NodeId) returns (ret: bool)
    requires Closed(g) && c in g.edges && g.edges[c].bs.Some? && to in g.nodes
    ensures ret <==> g.edges[c].owner != ByUser(true) && !HangsBelow(g, c, to)
  {
    if g.edges[c].owner == ByUser(true) {
      return false;
    }
    ret := true;
    var found := {to};
    var queue := [to];
    ghost var done := {};
    ReachesSelf(g, to);
    while queue != []
      invariant Searched(g, c, to, found, done, ret)
      invariant Queued(queue, found - done)
      decreases g.nodes.Keys - done
    {
      var v := queue[0];
      assert v in queue;
      queue := queue[1..];
      found, queue, ret := SearchChildren(g, c, to, v, found, done, queue, ret);
      done := done + {v};
    }
    if ret {
      forall n | n in found
        ensures n in done
      {
        assert n in found - done <==> n in queue;
      }
      assert done == found;
      NotFound(g, c, to, found);
    }
  }

  /** Once every found node is done and the edge was not met, it is not there. */
  lemma NotFound(g: Graph, c: EdgeId, to: NodeId, found: set<NodeId>)
    requires Searched(g, c, to, found, found, true)
    ensures !HangsBelow(g, c, to)
  {
    if HangsBelow(g, c, to) {
      var owner := g.edges[c].owner.node;
      assert c in Children(g, owner);
      forall a, b | a in found && Arrow(g, a, b)
        ensures b in found
      {
        var e :| e in Children(g, a) && g.edges[e].bs == Some(b);
      }
      ReachStays(g, found, to, owner);
    }
  }

  /** The body of the search loop: the children of one node. */
  method SearchChildren(g: Graph, c: EdgeId, to: NodeId, v: NodeId, found0: set<NodeId>, ghost done: set<NodeId>, queue0: seq<NodeId>, ret0: bool)
    returns (found: set<NodeId>, queue: seq<NodeId>, ret: bool)
    requires Closed(g) && c in g.edges && v in found0 - done
    requires Searched(g, c, to, found0, done, ret0) && Queued(queue0, found0 - done - {v})
    ensures Searched(g, c, to, found, done + {v}, ret) && Queued(queue, found - (done + {v}))
  {
    found, queue, ret := found0, queue0, ret0;
    var todo := Children(g, v);
    while todo != {}
      invariant todo <= Children(g, v) && v in found
      invariant Searched(g, c, to, found, done, ret)
      invariant Queued(queue, found - done - {v})
      invariant ret ==> forall e :: e in Children(g, v) - todo ==> e != c && g.edges[e].bs.value in found
      decreases |todo|
    {
      var c2 :| c2 in todo;
      todo := todo - {c2};
      if c2 == c {
        ret := false;
        break;
      }
      var next := g.edges[c2].bs.value;
      if next !in found {
        assert Arrow(g, v, next);
        ArrowReaches(g, v, next);
        ReachesTrans(g, to, v, next);
        Enqueue(queue, found - done - {v}, next);
        assert found + {next} - done - {v} == found - done - {v} + {next};
        queue := queue + [next];
        found := found + {next};
      }
    }
    assert found - (done + {v}) == found - done - {v};
  }

  // ----- Topological order. -----

  /** No node twice, and every child of a listed node further down the list. */
  ghost predicate Topological(g: Graph, list: seq<NodeId>) {
    && (forall i, j :: 0 <= i < j < |list| ==> list[i] != list[j])
    && (forall i, m :: 0 <= i < |list| && Arrow(g, list[i], m) ==> m in list[i + 1..])
  }

  /** Between calls every found node is listed; during a call those above bs, still in progress, are not. */
  ghost predicate InProgress(g: Graph, list: seq<NodeId>, found: set<NodeId>, bs: NodeId) {
    && (forall n :: n in list ==> n in found)
    && (forall n :: n in found && n !in list ==> n != bs && Reaches(g, n, bs))
  }

  /** Only nodes below bs were added. */
  ghost predicate Grown(g: Graph, bs: NodeId, list0: seq<NodeId>, list: seq<NodeId>) {
    (forall n :: n in list0 ==> n in list) && (forall n :: n in list && n !in list0 ==> Reaches(g, bs, n))
  }

  lemma Prepend(g: Graph, list: seq<NodeId>, bs: NodeId)
    requires Topological(g, list) && bs !in list
    requires forall m :: Arrow(g, bs, m) ==> m in list
    ensures Topological(g, [bs] + list)
  {
    var longer := [bs] + list;
    forall i, m | 0 <= i < |longer| && Arrow(g, longer[i], m)
      ensures m in longer[i + 1..]
    {
      if i > 0 {
        assert longer[i + 1..] == list[i..];
      } else {
        assert longer[1..] == list;
      }
    }
  }

  /**
   bdrv_topological_dfs: lists bs and its subtree in front of what is listed already, so
   that the list stays topologically sorted.  In-progress nodes stay unlisted.
   */
  method TopologicalDfs(g: Graph, list0: seq<NodeId>, found0: set<NodeId>, bs: NodeId)
    returns (list: seq<NodeId>, found: set<NodeId>)
    requires Closed(g) && Acyclic(g) && bs in g.nodes && found0 <= g.nodes.Keys
    requires Topological(g, list0) && InProgress(g, list0, found0, bs)
    ensures Topological(g, list) && bs in list && found <= g.nodes.Keys
    ensures Grown(g, bs, list0, list)
    ensures (forall n :: n in list ==> n in found) && found0 <= found
    ensures forall n :: n in found && n !in list <==> n in found0 && n !in list0
    decreases g.nodes.Keys - found0
  {
    list, found := list0, found0;
    if bs in found {
      return;
    }
    found := found + {bs};
    var todo := Children(g, bs);
    while todo != {}
      invariant todo <= Children(g, bs)
      invariant Topological(g, list) && Grown(g, bs, list0, list)
      invariant (forall n :: n in list ==> n in found) && found0 + {bs} <= found <= g.nodes.Keys
      invariant forall n :: n in found && n !in list <==> n == bs || (n in found0 && n !in list0)
      invariant forall e :: e in Children(g, bs) - todo ==> g.edges[e].bs.value in list
      decreases |todo|
    {
      var c :| c in todo;
      var next := g.edges[c].bs.value;
      assert Arrow(g, bs, next);
      StillInProgress(g, list, found, bs, next);
      ghost var before := list;
      list, found := TopologicalDfs(g, list, found, next);
      GrownBelow(g, bs, next, list0, before, list);
      todo := todo - {c};
    }
    forall m | Arrow(g, bs, m)
      ensures m in list
    {
      var e :| e in Children(g, bs) && g.edges[e].bs == Some(m);
    }
    Prepend(g, list, bs);
    ReachesSelf(g, bs);
    list := [bs] + list;
  }

  /** A node in progress is above bs, so without loops it is not the child visited next. */
  lemma StillInProgress(g: Graph, list: seq<NodeId>, found: set<NodeId>, bs: NodeId, next: NodeId)
    requires Acyclic(g) && Arrow(g, bs, next) && (forall n :: n in list ==> n in found)
    requires forall n :: n in found && n !in list ==> n == bs || Reaches(g, n, bs)
    ensures InProgress(g, list, found, next)
  {
    ArrowReaches(g, bs, next);
    ReachesSelf(g, bs);
    forall n | n in found && n !in list
      ensures n != next && Reaches(g, n, next)
    {
      ReachesTrans(g, n, bs, next);
    }
  }

  lemma GrownBelow(g: Graph, bs: NodeId, next: NodeId, list0: seq<NodeId>, list1: seq<NodeId>, list2: seq<NodeId>)
    requires Arrow(g, bs, next) && Grown(g, bs, list0, list1) && Grown(g, next, list1, list2)
    ensures Grown(g, bs, list0, list2)
  {
    ArrowReaches(g, bs, next);
    forall n | n in list2 && n !in list0
      ensures Reaches(g, bs, n)
    {
      if n !in list1 {
        ReachesTrans(g, bs, next, n);
      }
    }
  }
}
