/**
 Moving block nodes to another AioContext: a search over edges, in both directions and
 through the nodes of jobs, that schedules a whole connected component or nothing.
 */
module AioContexts {
  type NodeId = nat
  type EdgeId = nat
  type UserId = nat
  type Ctx = nat

  datatype Owner = ByNode(node: NodeId) | ByUser(user: UserId)

  /** A job moves with all its nodes; a block backend accepts the move or not; others cannot follow. */
  datatype User = Job | Backend(accepts: bool) | Fixed

  datatype Edge = Edge(owner: Owner, bs: NodeId)

  datatype Net = Net(nodes: set<NodeId>, edges: map<EdgeId, Edge>, users: map<UserId, User>) {
    /** Edges join nodes and users of the net; only a job has several. */
    ghost predicate WellFormed() {
      && (forall e :: e in edges ==>
            && edges[e].bs in nodes
            && match edges[e].owner
               case ByNode(n) => n in nodes
               case ByUser(u) => u in users)
      && (forall e, f :: SameUser(e, f) && !users[edges[e].owner.user].Job? ==> e == f)
    }

    function Parents(n: NodeId): set<EdgeId> { set e | e in edges && edges[e].bs == n }

    function Children(n: NodeId): set<EdgeId> { set e | e in edges && edges[e].owner == ByNode(n) }

    /** The edges of a job: job->nodes. */
    function EdgesOf(u: UserId): set<EdgeId> { set e | e in edges && edges[e].owner == ByUser(u) }

    ghost predicate Touches(e: EdgeId, n: NodeId) {
      e in edges && (edges[e].bs == n || edges[e].owner == ByNode(n))
    }

    predicate SameUser(e: EdgeId, f: EdgeId) {
      e in edges && f in edges && edges[e].owner == edges[f].owner && edges[e].owner.ByUser?
    }

    /** An edge or a job joins the two nodes. */
    ghost predicate Joined(a: NodeId, b: NodeId) {
      exists e, f :: Touches(e, a) && Touches(f, b) && (e == f || SameUser(e, f))
    }

    ghost predicate Chain(p: seq<NodeId>) {
      p != [] && forall i :: 0 <= i < |p| - 1 ==> Joined(p[i], p[i + 1])
    }

    ghost predicate ChainFromTo(p: seq<NodeId>, a: NodeId, b: NodeId) {
      Chain(p) && p[0] == a && p[|p| - 1] == b
    }

    ghost predicate Connected(a: NodeId, b: NodeId) {
      exists p :: ChainFromTo(p, a, b)
    }

    /** Who holds the edge can follow a move. */
    predicate Accepting(e: EdgeId)
      requires e in edges && (edges[e].owner.ByUser? ==> edges[e].owner.user in users)
    {
      match edges[e].owner
      case ByNode(_) => true
      case ByUser(u) => users[u].Job? || users[u] == Backend(true)
    }

    lemma ConnectedSelf(a: NodeId)
      ensures Connected(a, a)
    {
      assert ChainFromTo([a], a, a);
    }

    lemma ConnectedNext(a: NodeId, b: NodeId, c: NodeId)
      requires Connected(a, b) && Joined(b, c)
      ensures Connected(a, c)
    {
      var p :| ChainFromTo(p, a, b);
      assert ChainFromTo(p + [c], a, c);
    }

    /** A set closed under joining holds everything connected to its members. */
    lemma {:induction false} ChainStays(s: set<NodeId>, p: seq<NodeId>, i: nat)
      requires (forall a, b :: a in s && Joined(a, b) ==> b in s) && Chain(p) && p[0] in s && i < |p|
      ensures p[i] in s
    {
      if i > 0 {
        ChainStays(s, p, i - 1);
        assert Joined(p[i - 1], p[i]);
      }
    }
  }

  /** What the search has visited and scheduled so far. */
  datatype Plan = Plan(visited: set<EdgeId>, nodes: set<NodeId>, users: set<UserId>)

  /** Plan q goes on from plan p. */
  ghost predicate Extends(p: Plan, q: Plan) {
    p.visited <= q.visited && p.nodes <= q.nodes && p.users <= q.users
  }

  /** Edge e was visited: whoever it joins is scheduled or in progress. */
  ghost predicate VisitedOk(net: Net, p: Plan, ns: set<NodeId>, us: set<UserId>, e: EdgeId) {
    && e in net.edges && net.edges[e].bs in p.nodes + ns
    && match net.edges[e].owner
       case ByNode(n) => n in p.nodes + ns
       case ByUser(u) => u in net.users && net.Accepting(e) && u in p.users + us
  }

  /** The invariant of the search with nodes ns and jobs us in progress. */
  ghost predicate Inv(net: Net, p: Plan, ns: set<NodeId>, us: set<UserId>) {
    && (forall e :: e in p.visited ==> VisitedOk(net, p, ns, us, e))
    && (forall n, e :: n in p.nodes && net.Touches(e, n) ==> e in p.visited)
    && (forall u, e :: u in p.users && e in net.EdgesOf(u) ==> e in p.visited)
  }

  /** Only what is connected to the start is scheduled. */
  ghost predicate Sound(net: Net, p: Plan, root: NodeId) {
    && (forall n :: n in p.nodes ==> net.Connected(root, n))
    && (forall u :: u in p.users ==> exists e :: e in net.EdgesOf(u) && net.Connected(root, net.edges[e].bs))
  }

  /** Some node connected to the start has a parent that refuses. */
  ghost predicate Refused(net: Net, root: NodeId)
    requires net.WellFormed()
  {
    exists e :: e in net.edges && net.Connected(root, net.edges[e].bs) && !net.Accepting(e)
  }

  /** The result of a part of the search. */
  ghost predicate Advanced(net: Net, p: Plan, q: Plan, ok: bool, ns: set<NodeId>, us: set<UserId>, root: NodeId)
    requires net.WellFormed()
  {
    && Extends(p, q) && Sound(net, q, root)
    && if ok then Inv(net, q, ns, us) else Refused(net, root)
  }

  /** The context of no connected node is the new one yet. */
  ghost predicate Elsewhere(net: Net, ctx: map<NodeId, Ctx>, to: Ctx, root: NodeId) {
    forall n :: n in net.nodes && net.Connected(root, n) ==> n in ctx && ctx[n] != to
  }

  /** bdrv_change_aio_context. */
  method ChangeNode(net: Net, ctx: map<NodeId, Ctx>, to: Ctx, n: NodeId, p: Plan, ghost ns: set<NodeId>, ghost us: set<UserId>, ghost root: NodeId)
    returns (q: Plan, ok: bool)
    requires net.WellFormed() && n in net.nodes && net.Connected(root, n) && Elsewhere(net, ctx, to, root)
    requires Inv(net, p, ns + {n}, us) && Sound(net, p, root)
    ensures Advanced(net, p, q, ok, ns, us, root) && (ok ==> n in q.nodes)
    decreases net.edges.Keys - p.visited, 1
  {
    q := p;
    if ctx[n] == to {
      return q, true;
    }
    var todo := net.Parents(n);
    while todo != {}
      invariant todo <= net.Parents(n) <= todo + q.visited
      invariant Advanced(net, p, q, true, ns + {n}, us, root)
      decreases todo
    {
      var c :| c in todo;
      q, ok := ParentChange(net, ctx, to, c, q, ns + {n}, us, root);
      if !ok {
        return;
      }
      todo := todo - {c};
    }
    todo := net.Children(n);
    while todo != {}
      invariant todo <= net.Children(n) <= todo + q.visited && net.Parents(n) <= q.visited
      invariant Advanced(net, p, q, true, ns + {n}, us, root)
      decreases todo
    {
      var c :| c in todo;
      assert net.Touches(c, n) && net.Touches(c, net.edges[c].bs);
      net.ConnectedNext(root, n, net.edges[c].bs);
      q, ok := ChildChange(net, ctx, to, c, q, ns + {n}, us, root);
      if !ok {
        return;
      }
      todo := todo - {c};
    }
    Schedule(net, q, ns, us, n, root);
    q, ok := q.(nodes := q.nodes + {n}), true;
  }

  /** With all its edges visited a node can be scheduled. */
  lemma Schedule(net: Net, q: Plan, ns: set<NodeId>, us: set<UserId>, n: NodeId, root: NodeId)
    requires Inv(net, q, ns + {n}, us) && Sound(net, q, root) && net.Connected(root, n)
    requires net.Parents(n) <= q.visited && net.Children(n) <= q.visited
    ensures var r := q.(nodes := q.nodes + {n}); Inv(net, r, ns, us) && Sound(net, r, root)
  {
    var r := q.(nodes := q.nodes + {n});
    forall e | e in r.visited
      ensures VisitedOk(net, r, ns, us, e)
    {
      assert VisitedOk(net, q, ns + {n}, us, e);
    }
  }

  /** bdrv_parent_change_aio_context, with the callbacks of the parent's class. */
  method ParentChange(net: Net, ctx: map<NodeId, Ctx>, to: Ctx, c: EdgeId, p: Plan, ghost ns: set<NodeId>, ghost us: set<UserId>, ghost root: NodeId)
    returns (q: Plan, ok: bool)
    requires net.WellFormed() && c in net.edges && net.Connected(root, net.edges[c].bs) && Elsewhere(net, ctx, to, root)
    requires Inv(net, p, ns, us) && Sound(net, p, root) && net.edges[c].bs in p.nodes + ns
    ensures Advanced(net, p, q, ok, ns, us, root) && (ok ==> c in q.visited)
    decreases net.edges.Keys - p.visited, 0
  {
    if c in p.visited {
      return p, true;
    }
    q := p.(visited := p.visited + {c});
    match net.edges[c].owner
    case ByNode(n) =>
      assert net.Touches(c, n) && net.Touches(c, net.edges[c].bs);
      net.ConnectedNext(root, net.edges[c].bs, n);
      MarkEdge(net, p, ns, ns + {n}, us, us, c);
      q, ok := ChangeNode(net, ctx, to, n, q, ns, us, root);
    case ByUser(u) =>
      match net.users[u] {
        case Job =>
          MarkEdge(net, p, ns, ns, us, us + {u}, c);
          q, ok := JobChange(net, ctx, to, u, c, q, ns, us, root);
        case Backend(accepts) =>
          ok := accepts;
          if accepts {
            MarkEdge(net, p, ns, ns, us, us + {u}, c);
            ScheduleUser(net, q, ns, us, u, c, root);
            q := q.(users := q.users + {u});
          }
        case Fixed =>
          ok := false;
      }
  }

  /** Marking an edge whose ends are scheduled or put in progress. */
  lemma MarkEdge(net: Net, p: Plan, ns: set<NodeId>, ns': set<NodeId>, us: set<UserId>, us': set<UserId>, c: EdgeId)
    requires Inv(net, p, ns, us) && ns <= ns' && us <= us'
    requires VisitedOk(net, p.(visited := p.visited + {c}), ns', us', c)
    ensures Inv(net, p.(visited := p.visited + {c}), ns', us')
  {
    var q := p.(visited := p.visited + {c});
    forall e | e in q.visited
      ensures VisitedOk(net, q, ns', us', e)
    {
      assert e in p.visited ==> VisitedOk(net, p, ns, us, e);
    }
  }

  lemma ScheduleUser(net: Net, q: Plan, ns: set<NodeId>, us: set<UserId>, u: UserId, c: EdgeId, root: NodeId)
    requires net.WellFormed() && Inv(net, q, ns, us + {u}) && Sound(net, q, root)
    requires c in net.EdgesOf(u) && c in q.visited && net.Connected(root, net.edges[c].bs)
    requires (u in net.users && net.users[u].Job?) ==> net.EdgesOf(u) <= q.visited
    ensures var r := q.(users := q.users + {u}); Inv(net, r, ns, us) && Sound(net, r, root)
  {
    var r := q.(users := q.users + {u});
    forall e | e in net.EdgesOf(u)
      ensures e in q.visited
    {
      assert net.SameUser(c, e);
    }
    forall e | e in r.visited
      ensures VisitedOk(net, r, ns, us, e)
    {
      assert VisitedOk(net, q, ns, us + {u}, e);
    }
  }

  /** bdrv_child_change_aio_context. */
  method ChildChange(net: Net, ctx: map<NodeId, Ctx>, to: Ctx, c: EdgeId, p: Plan, ghost ns: set<NodeId>, ghost us: set<UserId>, ghost root: NodeId)
    returns (q: Plan, ok: bool)
    requires net.WellFormed() && c in net.edges && net.Connected(root, net.edges[c].bs) && Elsewhere(net, ctx, to, root)
    requires Inv(net, p, ns, us) && Sound(net, p, root)
    requires match net.edges[c].owner case ByNode(n) => n in p.nodes + ns case ByUser(u) => net.users[u].Job? && u in p.users + us
    ensures Advanced(net, p, q, ok, ns, us, root) && (ok ==> c in q.visited)
    decreases net.edges.Keys - p.visited, 0
  {
    if c in p.visited {
      return p, true;
    }
    MarkEdge(net, p, ns, ns + {net.edges[c].bs}, us, us, c);
    q, ok := ChangeNode(net, ctx, to, net.edges[c].bs, p.(visited := p.visited + {c}), ns, us, root);
  }

  /** child_job_change_aio_ctx: all nodes of the job. */
  method JobChange(net: Net, ctx: map<NodeId, Ctx>, to: Ctx, u: UserId, c: EdgeId, p: Plan, ghost ns: set<NodeId>, ghost us: set<UserId>, ghost root: NodeId)
    returns (q: Plan, ok: bool)
    requires net.WellFormed() && u in net.users && net.users[u].Job? && c in net.EdgesOf(u) && c in p.visited
    requires net.Connected(root, net.edges[c].bs) && Elsewhere(net, ctx, to, root)
    requires Inv(net, p, ns, us + {u}) && Sound(net, p, root)
    ensures Advanced(net, p, q, ok, ns, us, root)
    decreases net.edges.Keys - p.visited, 1
  {
    q := p;
    var todo := net.EdgesOf(u);
    while todo != {}
      invariant todo <= net.EdgesOf(u) <= todo + q.visited
      invariant Advanced(net, p, q, true, ns, us + {u}, root)
      decreases todo
    {
      var sibling :| sibling in todo;
      assert net.SameUser(c, sibling) && net.Touches(c, net.edges[c].bs) && net.Touches(sibling, net.edges[sibling].bs);
      net.ConnectedNext(root, net.edges[c].bs, net.edges[sibling].bs);
      q, ok := ChildChange(net, ctx, to, sibling, q, ns, us + {u}, root);
      if !ok {
        return;
      }
      todo := todo - {sibling};
    }
    ScheduleUser(net, q, ns, us, u, c, root);
    q, ok := q.(users := q.users + {u}), true;
  }

  /** Node and users that an edge joins are in one context. */
  ghost predicate Uniform(net: Net, ctx: map<NodeId, Ctx>, userCtx: map<UserId, Ctx>) {
    && net.WellFormed() && ctx.Keys == net.nodes && userCtx.Keys == net.users.Keys
    && forall e :: e in net.edges ==>
         match net.edges[e].owner
         case ByNode(n) => ctx[n] == ctx[net.edges[e].bs]
         case ByUser(u) => net.users[u] == Fixed || userCtx[u] == ctx[net.edges[e].bs]
  }

  /** User u follows the nodes connected to root. */
  ghost predicate Follows(net: Net, root: NodeId, u: UserId) {
    u in net.users && net.users[u] != Fixed && exists e :: e in net.EdgesOf(u) && net.Connected(root, net.edges[e].bs)
  }

  lemma JoinedShare(net: Net, ctx: map<NodeId, Ctx>, userCtx: map<UserId, Ctx>, a: NodeId, b: NodeId)
    requires Uniform(net, ctx, userCtx) && net.Joined(a, b)
    ensures a in ctx && b in ctx && ctx[a] == ctx[b]
  {
  }

  lemma ConnectedShare(net: Net, ctx: map<NodeId, Ctx>, userCtx: map<UserId, Ctx>, a: NodeId, b: NodeId)
    requires Uniform(net, ctx, userCtx) && a in net.nodes && net.Connected(a, b)
    ensures b in ctx && ctx[a] == ctx[b]
  {
    var p :| net.ChainFromTo(p, a, b);
    ChainShares(net, ctx, userCtx, p, |p| - 1);
  }

  lemma {:induction false} ChainShares(net: Net, ctx: map<NodeId, Ctx>, userCtx: map<UserId, Ctx>, p: seq<NodeId>, i: nat)
    requires Uniform(net, ctx, userCtx) && net.Chain(p) && p[0] in net.nodes && i < |p|
    ensures p[i] in ctx && ctx[p[i]] == ctx[p[0]]
  {
    if i > 0 {
      ChainShares(net, ctx, userCtx, p, i - 1);
      JoinedShare(net, ctx, userCtx, p[i - 1], p[i]);
    }
  }

  /** A finished search has scheduled exactly the component of its start. */
  lemma WholeComponent(net: Net, q: Plan, root: NodeId)
    requires net.WellFormed() && Inv(net, q, {}, {}) && Sound(net, q, root) && root in q.nodes
    ensures forall n :: n in q.nodes <==> net.Connected(root, n)
    ensures forall u :: u in q.users <==> Follows(net, root, u)
    ensures !Refused(net, root)
  {
    forall a, b | a in q.nodes && net.Joined(a, b)
      ensures b in q.nodes
    {
      JoinedScheduled(net, q, a, b);
    }
    forall n | net.Connected(root, n)
      ensures n in q.nodes
    {
      var p :| net.ChainFromTo(p, root, n);
      net.ChainStays(q.nodes, p, |p| - 1);
    }
    forall e | e in net.edges && net.Connected(root, net.edges[e].bs)
      ensures VisitedOk(net, q, {}, {}, e)
    {
      assert net.Touches(e, net.edges[e].bs);
    }
    forall u | u in q.users
      ensures Follows(net, root, u)
    {
      var e :| e in net.EdgesOf(u) && net.Connected(root, net.edges[e].bs);
      assert VisitedOk(net, q, {}, {}, e);
    }
  }

  lemma JoinedScheduled(net: Net, q: Plan, a: NodeId, b: NodeId)
    requires net.WellFormed() && Inv(net, q, {}, {}) && a in q.nodes && net.Joined(a, b)
    ensures b in q.nodes
  {
    var e, f :| net.Touches(e, a) && net.Touches(f, b) && (e == f || net.SameUser(e, f));
    assert VisitedOk(net, q, {}, {}, e);
    if e != f {
      assert f in net.EdgesOf(net.edges[e].owner.user);
      assert VisitedOk(net, q, {}, {}, f);
    }
  }

  /** The new contexts after a move of the component of root. */
  ghost predicate Moved(net: Net, root: NodeId, to: Ctx, ctx: map<NodeId, Ctx>, ctx': map<NodeId, Ctx>, userCtx: map<UserId, Ctx>, userCtx': map<UserId, Ctx>) {
    && ctx'.Keys == ctx.Keys && userCtx'.Keys == userCtx.Keys
    && (forall n :: n in ctx ==> ctx'[n] == if net.Connected(root, n) then to else ctx[n])
    && (forall u :: u in userCtx ==> userCtx'[u] == if Follows(net, root, u) then to else userCtx[u])
  }

  /** Moving a whole component keeps the contexts uniform. */
  lemma MovedUniform(net: Net, root: NodeId, to: Ctx, ctx: map<NodeId, Ctx>, ctx': map<NodeId, Ctx>, userCtx: map<UserId, Ctx>, userCtx': map<UserId, Ctx>)
    requires Uniform(net, ctx, userCtx) && Moved(net, root, to, ctx, ctx', userCtx, userCtx')
    ensures Uniform(net, ctx', userCtx')
  {
    forall e | e in net.edges
      ensures match net.edges[e].owner
              case ByNode(n) => ctx'[n] == ctx'[net.edges[e].bs]
              case ByUser(u) => net.users[u] == Fixed || userCtx'[u] == ctx'[net.edges[e].bs]
    {
      EdgeMoved(net, root, e);
    }
  }

  /** Both ends of an edge are in the component, or neither is. */
  lemma EdgeMoved(net: Net, root: NodeId, e: EdgeId)
    requires net.WellFormed() && e in net.edges
    ensures match net.edges[e].owner
            case ByNode(n) => net.Connected(root, n) <==> net.Connected(root, net.edges[e].bs)
            case ByUser(u) => net.users[u] == Fixed || (Follows(net, root, u) <==> net.Connected(root, net.edges[e].bs))
  {
    var b := net.edges[e].bs;
    match net.edges[e].owner
    case ByNode(n) =>
      assert net.Touches(e, n) && net.Touches(e, b);
      if net.Connected(root, n) {
        net.ConnectedNext(root, n, b);
      }
      if net.Connected(root, b) {
        net.ConnectedNext(root, b, n);
      }
    case ByUser(u) =>
      assert e in net.EdgesOf(u);
      if f :| f in net.EdgesOf(u) && net.Connected(root, net.edges[f].bs) {
        assert net.SameUser(f, e) && net.Touches(f, net.edges[f].bs) && net.Touches(e, b);
        net.ConnectedNext(root, net.edges[f].bs, b);
      }
  }

  lemma AlreadyThere(net: Net, root: NodeId, ctx: map<NodeId, Ctx>, userCtx: map<UserId, Ctx>)
    requires Uniform(net, ctx, userCtx) && root in net.nodes
    ensures Moved(net, root, ctx[root], ctx, ctx, userCtx, userCtx)
  {
    forall n | n in ctx && net.Connected(root, n)
      ensures ctx[n] == ctx[root]
    {
      ConnectedShare(net, ctx, userCtx, root, n);
    }
    forall u | u in userCtx && Follows(net, root, u)
      ensures userCtx[u] == ctx[root]
    {
      var e :| e in net.EdgesOf(u) && net.Connected(root, net.edges[e].bs);
      ConnectedShare(net, ctx, userCtx, root, net.edges[e].bs);
    }
  }

  class Contexts {
    const net: Net
    var ctx: map<NodeId, Ctx>
    var userCtx: map<UserId, Ctx>

    ghost predicate Valid()
      reads this
    {
      Uniform(net, ctx, userCtx)
    }

    /** A graph whose nodes and users are all in one context. */
    constructor (net: Net, main: Ctx)
      requires net.WellFormed()
      ensures Valid() && this.net == net
      ensures forall n :: n in net.nodes ==> ctx[n] == main
    {
      this.net := net;
      ctx, userCtx := map n | n in net.nodes :: main, map u | u in net.users :: main;
    }

    /** The commit of a finished search. */
    method SetContexts(q: Plan, to: Ctx)
      requires q.nodes <= ctx.Keys && q.users <= userCtx.Keys
      modifies this
      ensures ctx.Keys == old(ctx.Keys) && userCtx.Keys == old(userCtx.Keys)
      ensures forall n :: n in ctx ==> ctx[n] == if n in q.nodes then to else old(ctx)[n]
      ensures forall u :: u in userCtx ==> userCtx[u] == if u in q.users then to else old(userCtx)[u]
    {
      var todo := q.nodes;
      while todo != {}
        invariant todo <= q.nodes && ctx.Keys == old(ctx.Keys) && userCtx == old(userCtx)
        invariant forall n :: n in ctx ==> ctx[n] == if n in q.nodes - todo then to else old(ctx)[n]
        decreases todo
      {
        var n :| n in todo;
        ctx := ctx[n := to];
        todo := todo - {n};
      }
      var users := q.users;
      ghost var moved := ctx;
      while users != {}
        invariant users <= q.users && userCtx.Keys == old(userCtx.Keys) && ctx == moved
        invariant forall u :: u in userCtx ==> userCtx[u] == if u in q.users - users then to else old(userCtx)[u]
        decreases users
      {
        var u :| u in users;
        userCtx := userCtx[u := to];
        users := users - {u};
      }
    }

    /**
     bdrv_try_change_aio_context_locked without an ignored child: fails, changing nothing,
     exactly if somebody attached to the component of bs cannot follow; otherwise exactly
     that component moves.  Either way joined nodes still share a context.
     */
    method TryChangeAioContext(bs: NodeId, to: Ctx) returns (ok: bool)
      requires Valid() && bs in net.nodes
      modifies this
      ensures Valid()
      ensures ok <==> to == old(ctx)[bs] || !Refused(net, bs)
      ensures if ok then Moved(net, bs, to, old(ctx), ctx, old(userCtx), userCtx) else ctx == old(ctx) && userCtx == old(userCtx)
    {
      AlreadyThere(net, bs, ctx, userCtx);
      if ctx[bs] == to {
        return true;
      }
      net.ConnectedSelf(bs);
      forall n | n in net.nodes && net.Connected(bs, n)
        ensures ctx[n] != to
      {
        ConnectedShare(net, ctx, userCtx, bs, n);
      }
      var q;
      q, ok := ChangeNode(net, ctx, to, bs, Plan({}, {}, {}), {}, {}, bs);
      if ok {
        WholeComponent(net, q, bs);
        forall n | n in q.nodes
          ensures n in ctx
        {
          ConnectedShare(net, ctx, userCtx, bs, n);
        }
        SetContexts(q, to);
        MovedUniform(net, bs, to, old(ctx), ctx, old(userCtx), userCtx);
      }
    }
  }
}
