/** What convergence is for: once no route message is on its way, every table lists exactly the
    contexts that are connected below, and any context's message reaches any other. */
module Delivery {
  import opened Prelude
  import opened Tree
  import opened Router
  import opened RouteMonitor
  import opened RoutingNet
  import opened ConvergenceSteps
  import opened ConvergenceLocal
  import opened ConvergenceConnect
  import opened ExactDelivery
  import opened Authority
  import opened Ancestry
  import opened Fate

  // ---- Before convergence ------------------------------------------------------------------

  lemma FromChild(n: Node, msg: Message, c: Id)
    requires Agree(n) && c in n.routes && msg.src in n.routes[c] && msg.auth in n.routes[c]
    ensures !AsyncRoute(n, msg, Some(c)).Reject?
  {
  }

  /** In every reachable state, converged or not, a message read from a child passes source
      verification: the route to its sender was announced before it on the same stream. */
  lemma UpwardNeverRejected(net: Net, c: Id, msg: Message)
    requires Inv(net) && c in net.nodes && Open(net, c)
    requires net.up[c] != [] && net.up[c][0] == Data(msg)
    ensures !AsyncRoute(net.nodes[net.owner[c]], msg, Some(c)).Reject?
  {
    hide Inv, Below, Agree, AsyncRoute, Offered;
    EdgeFacts(net, c);
    var r := net.nodes[net.owner[c]].routes[c];
    assert IsNews(net.owner, c, Data(msg), r);
    hide Good, NodeOk;
    InnerAgree(net.owner, net.nodes, net.owner[c]);
    FromChild(net.nodes[net.owner[c]], msg, c);
  }

  /** The route messages themselves: what c sends to its parent is handed to the parent's handler,
      and passes the handlers' policy, which compares `src_id` with the stream's own id. */
  lemma RouteMessageInvoked(net: Net, c: Id, msg: Message)
    requires Inv(net) && c in net.nodes && Open(net, c)
    requires msg.src == msg.auth == c && msg.dst == net.owner[c]
    requires |msg.data| <= net.nodes[net.owner[c]].maxSize
    ensures AsyncRoute(net.nodes[net.owner[c]], msg, Some(c)) == Invoke(msg)
  {
    hide Inv, Below, Agree, AsyncRoute;
    EdgeFacts(net, c);
    InnerAgree(net.owner, net.nodes, net.owner[c]);
    ChildInvoked(net.nodes[net.owner[c]], msg, c);
  }

  lemma ChildInvoked(n: Node, msg: Message, c: Id)
    requires Agree(n) && c in n.routes && msg.src == msg.auth == c && msg.dst == n.id
    requires |msg.data| <= n.maxSize && n.stamp == map[]
    ensures AsyncRoute(n, msg, Some(c)) == Invoke(msg)
  {
    assert c in n.routes[c];
  }

  // ---- Exact tables ---------------------------------------------------------------------------

  ghost predicate NoRoutes(q: seq<Packet>) {
    forall m | m in q :: m.Data?
  }

  /** No route message is on its way up any open stream, and no child has lost a parent that still
      believes in the stream. */
  ghost predicate Quiet(net: Net) {
    forall c {:trigger Open(net, c)} | c in net.up && Open(net, c) ::
      LinkUp(net, c) && NoRoutes(net.up[c])
  }

  /** Every stream on the way from a down to x is open. */
  predicate Reach(net: Net, a: Id, x: Id)
    decreases x
  {
    x == a || (Open(net, x) && net.owner[x] < x && Reach(net, a, net.owner[x]))
  }

  lemma {:induction false} ReplayQuiet(q: seq<Packet>, r: set<Id>)
    requires NoRoutes(q)
    ensures Replay(q, r) == r
    decreases |q|
  {
    if q != [] {
      assert q[0] in q;
      ReplayQuiet(q[1..], r);
    }
  }

  lemma QuietEdge(net: Net, c: Id)
    requires Inv(net) && Quiet(net) && c in net.nodes && Open(net, c)
    ensures net.nodes[net.owner[c]].routes[c] == Offered(net.nodes[c])
    ensures net.owner[c] < c && c in net.nodes[net.owner[c]].routes[c]
    ensures net.nodes[c].parent == Some(net.owner[c]) && net.nodes[c].id == c
    ensures net.nodes[c].table.Keys >= {net.owner[c]} && net.nodes[c].ParentStream() == Some(net.owner[c])
  {
    hide Offered, Below, DelOk, ToldOk, Good, Allocators;
    EdgeFacts(net, c);
    ReplayQuiet(net.up[c], net.nodes[net.owner[c]].routes[c]);
    assert NodeOk(net.owner, net.nodes, c);
  }

  lemma {:induction false} ReachTrans(net: Net, a: Id, b: Id, x: Id)
    requires Reach(net, a, b) && Reach(net, b, x)
    ensures Reach(net, a, x)
    decreases x
  {
    if x != b {
      ReachTrans(net, a, b, net.owner[x]);
    }
  }

  lemma {:induction false} ReachBelow(net: Net, a: Id, x: Id)
    requires Reach(net, a, x)
    ensures Below(net.owner, a, x)
    decreases x
  {
    if x != a {
      ReachBelow(net, a, net.owner[x]);
    }
  }

  /** Inside the part of the tree that hangs together, descendants are reached. */
  lemma {:induction false} BelowReach(net: Net, n: Id, x: Id)
    requires Reach(net, 0, x) && Below(net.owner, n, x) && 0 !in net.owner
    ensures Reach(net, n, x) && Reach(net, 0, n)
    decreases x
  {
    if x != n {
      BelowReach(net, n, net.owner[x]);
    }
  }

  lemma {:induction false} ReachToward(net: Net, n: Id, x: Id)
    requires IsTree(net.owner) && Reach(net, n, x) && n != x && Below(net.owner, n, x)
    ensures var d := Toward(net.owner, n, x); Open(net, d) && Reach(net, d, x)
    decreases x
  {
    if net.owner[x] != n {
      ReachBelow(net, n, net.owner[x]);
      ReachToward(net, n, net.owner[x]);
    }
  }

  lemma {:induction false} ListedIsReached(net: Net, c: Id, x: Id)
    requires Inv(net) && Quiet(net) && c in net.nodes && Open(net, c)
    requires x in net.nodes[net.owner[c]].routes[c]
    ensures Reach(net, c, x)
    decreases x - c
  {
    hide Inv, Quiet, Good, Replay;
    QuietEdge(net, c);
    EdgeFacts(net, c);
    BelowOrder(net.owner, c, x);
    if x != c {
      var d :| d in net.nodes[c].routes && x in net.nodes[c].routes[d];
      ChildEdge(net, c, d);
      BelowOrder(net.owner, d, x);
      ListedIsReached(net, d, x);
      ReachTrans(net, c, d, x);
    }
  }

  lemma ChildEdge(net: Net, c: Id, d: Id)
    requires Inv(net) && c in net.nodes && d in net.nodes[c].routes
    ensures d in net.nodes && d in net.owner && net.owner[d] == c && Open(net, d) && c < d
    ensures forall x | x in net.nodes[c].routes[d] :: Below(net.owner, d, x)
  {
    hide EdgeOk, DelOk, ToldOk, Agree, Below;
    assert NodeOk(net.owner, net.nodes, c);
  }

  lemma {:induction false} ReachedIsListed(net: Net, c: Id, x: Id)
    requires Inv(net) && Quiet(net) && c in net.nodes && Open(net, c) && Reach(net, c, x)
    ensures x in net.nodes[net.owner[c]].routes[c]
    decreases x - c
  {
    hide Inv, Quiet, Good, Replay;
    QuietEdge(net, c);
    EdgeFacts(net, c);
    if x != c {
      ReachBelow(net, c, x);
      ReachToward(net, c, x);
      var d := Toward(net.owner, c, x);
      OpenChild(net, d);
      ReachedIsListed(net, d, x);
    }
  }

  lemma OpenChild(net: Net, d: Id)
    requires Inv(net) && Open(net, d)
    ensures d in net.nodes
  {
    hide EdgeOk, DelOk, ToldOk, NodeOk, Allocators;
  }

  /** Convergence: with no route messages on their way, what a context holds for a child stream is
      exactly the set of contexts connected through that stream. */
  lemma RoutesExact(net: Net, c: Id)
    requires Inv(net) && Quiet(net) && c in net.nodes && Open(net, c)
    ensures forall x :: x in net.nodes[net.owner[c]].routes[c] <==> Reach(net, c, x)
  {
    hide Inv, Quiet, Reach;
    forall x
      ensures x in net.nodes[net.owner[c]].routes[c] <==> Reach(net, c, x)
    {
      if Reach(net, c, x) {
        ReachedIsListed(net, c, x);
      } else if x in net.nodes[net.owner[c]].routes[c] {
        ListedIsReached(net, c, x);
      }
    }
  }

  // ---- From convergence to delivery ----------------------------------------------------------

  ghost function Live(net: Net): set<Id> {
    set x | x in net.nodes && Reach(net, 0, x)
  }

  lemma AgreeEntry(n: Node, s: Id, x: Id)
    requires Agree(n) && s in n.routes && x in n.routes[s]
    ensures x in n.table && n.table[x] == s
  {
  }

  lemma TableDown(net: Net, n: Id, x: Id)
    requires Inv(net) && Quiet(net) && n in net.nodes && IsTree(net.owner)
    requires Reach(net, n, x) && n != x && Below(net.owner, n, x)
    ensures x in net.nodes[n].table && net.nodes[n].table[x] == Toward(net.owner, n, x)
  {
    hide Inv, Quiet, Below, EdgeOk, NodeOk, Agree;
    ReachToward(net, n, x);
    var d := Toward(net.owner, n, x);
    OpenChild(net, d);
    hide Reach, Toward;
    ReachedIsListed(net, d, x);
    InvParts(net, n);
    InnerAgree(net.owner, net.nodes, n);
    AgreeEntry(net.nodes[n], d, x);
  }

  lemma TableAbove(net: Net, n: Id, x: Id)
    requires Inv(net) && n in net.nodes && !Below(net.owner, n, x) && x in net.nodes[n].table
    ensures n in net.owner && net.nodes[n].table[x] == net.owner[n]
  {
    hide EdgeOk, DelOk, ToldOk, Allocators, Below;
    assert NodeOk(net.owner, net.nodes, n);
    var d := net.nodes[n].table[x];
    if net.nodes[n].parent != Some(x) {
      assert d in net.nodes[n].routes && x in net.nodes[n].routes[d];
      assert Below(net.owner, d, x);
      ChildBelow(net.owner, n, d, x);
    }
  }

  lemma NodeBasics(net: Net, n: Id)
    requires Inv(net) && Quiet(net) && n in net.nodes && Reach(net, 0, n)
    ensures net.nodes[n].id == n && net.nodes[n].stamp == map[]
    ensures net.nodes[n].ParentStream() == (if n in net.owner then Some(net.owner[n]) else None)
    ensures n != 0 ==> n in net.owner && net.owner[n] in Live(net)
    ensures n == 0 ==> n !in net.owner
  {
    hide Inv, Quiet, Below, Agree, EdgeOk;
    InvParts(net, n);
    if n != 0 {
      assert Open(net, n);
      QuietEdge(net, n);
    }
  }

  /** The tables list nobody who is not connected. */
  lemma QuietIsTidy(net: Net, n: Id)
    requires Inv(net) && Quiet(net) && n in Live(net)
    ensures Tidy(net.owner, net.nodes[n], Live(net))
  {
    hide Quiet, EdgeOk, DelOk, ToldOk, Allocators, Below, Reach;
    assert Shape(net) && NodeOk(net.owner, net.nodes, n);
    forall x | x in net.nodes[n].table && Below(net.owner, n, x)
      ensures x in Live(net) && x != n
    {
      var d := net.nodes[n].table[x];
      if net.nodes[n].parent == Some(x) {
        BelowOrder(net.owner, n, x);
      } else {
        assert d in net.nodes[n].routes && x in net.nodes[n].routes[d];
        hide Inv, NodeOk;
        ListedBelow(net, n, d, x);
      }
    }
  }

  lemma ListedBelow(net: Net, n: Id, d: Id, x: Id)
    requires Inv(net) && Quiet(net) && n in Live(net) && d in net.nodes[n].routes && x in net.nodes[n].routes[d]
    ensures x in Live(net) && x != n
  {
    hide EdgeOk, DelOk, ToldOk, Allocators, Below, Agree;
    assert Shape(net) && NodeOk(net.owner, net.nodes, n);
    hide Inv, NodeOk;
    assert Open(net, d);
    BelowOrder(net.owner, d, x);
    RoutesExact(net, d);
    hide Quiet;
    assert Reach(net, n, n);
    ReachTrans(net, 0, n, d);
    ReachTrans(net, 0, d, x);
  }

  lemma NodeExact(net: Net, n: Id)
    requires Inv(net) && Quiet(net) && Ranked(net) && n in net.nodes && Reach(net, 0, n) && IsTree(net.owner)
    ensures ExactNode(net.owner, net.nodes[n], Live(net)) && net.nodes[n].id == n
    ensures n != 0 ==> n in net.owner && net.owner[n] in Live(net)
  {
    NodeBasics(net, n);
    QuietIsTidy(net, n);
    assert 0 !in net.owner by { RootHasNoOwner(net); }
    hide Inv, Quiet, Below, Reach;
    forall x | x in Live(net) && x != n && Below(net.owner, n, x)
      ensures x in net.nodes[n].table && net.nodes[n].table[x] == Toward(net.owner, n, x)
    {
      BelowReach(net, n, x);
      TableDown(net, n, x);
    }
    forall x | x in net.nodes[n].table && !Below(net.owner, n, x)
      ensures n in net.owner && net.nodes[n].table[x] == net.owner[n]
    {
      TableAbove(net, n, x);
    }
  }

  lemma RootHasNoOwner(net: Net)
    requires Inv(net)
    ensures 0 !in net.owner
  {
    hide EdgeOk, NodeOk, DelOk, ToldOk, Allocators;
  }

  /** With no route messages on their way, the tables of all connected contexts are exact. */
  lemma QuietIsExact(net: Net)
    requires Inv(net) && Quiet(net) && Ranked(net)
    ensures Exact(net.owner, net.nodes, Live(net))
  {
    hide Quiet, EdgeOk, NodeOk, DelOk, ToldOk, Allocators, ExactNode, Below, KnowsAbove;
    assert Shape(net) && Reach(net, 0, 0);
    hide Inv;
    forall n | n in Live(net)
      ensures Below(net.owner, 0, n) && ExactNode(net.owner, net.nodes[n], Live(net))
              && net.nodes[n].id == n && (n != 0 ==> n in net.owner && net.owner[n] in Live(net))
    {
      ReachBelow(net, 0, n);
      NodeExact(net, n);
    }
  }

  /** And so in every reachable state with no route messages on their way. */
  lemma ReachableIsExact(net: Net, run: seq<Step>)
    requires Reachable(net, run) && Quiet(net)
    ensures Exact(net.owner, net.nodes, Live(net))
  {
    hide Quiet, Inv, Ranked, Exact;
    ReachableInv(net, run);
    ReachableRanked(net, run);
    QuietIsExact(net);
  }

  /** Source verification, in any reachable state with no route messages on their way: a message from
      a connected child is rejected unless its source and its authority are connected contexts at or
      below that child. */
  lemma NobodyImpersonates(net: Net, run: seq<Step>, c: Id, msg: Message)
    requires Reachable(net, run) && Quiet(net) && c in net.owner && net.owner[c] in Live(net)
    requires |msg.data| <= net.nodes[net.owner[c]].maxSize
    ensures AsyncRoute(net.nodes[net.owner[c]], msg, Some(c)).Reject? <==>
              !(msg.src in Live(net) && Below(net.owner, c, msg.src)
                && msg.auth in Live(net) && Below(net.owner, c, msg.auth))
  {
    ReachableIsExact(net, run);
    hide Quiet, Reachable, ExactNode, AsyncRoute, Below;
    NoImpersonation(net.owner, net.nodes[net.owner[c]], Live(net), c, msg);
  }

  /** Convergence and delivery together: in any reachable state without route messages on their
      way, any connected context's message reaches any other, and only that one, if it is not too large and
      no one-way router lies between. */
  lemma ConvergedDelivery(net: Net, run: seq<Step>, a: Id, b: Id, msg: Message)
    requires Reachable(net, run) && Quiet(net)
    requires a in Live(net) && b in Live(net) && msg.src == msg.auth == a && msg.dst == b
    requires 0 in net.nodes && |msg.data| <= net.nodes[0].maxSize
    requires IsTree(net.owner) && Below(net.owner, 0, a) && Below(net.owner, 0, b) ==> LetsPass(net.owner, net.nodes, a, b)
    ensures IsTree(net.owner) && Below(net.owner, 0, a) && Below(net.owner, 0, b)
    ensures Travels(net.nodes, Path(net.owner, a, b), None, msg)
  {
    ReachableIsExact(net, run);
    hide *;
    ExactAt(net.owner, net.nodes, Live(net), a);
    ExactAt(net.owner, net.nodes, Live(net), b);
    DeliveredExactly(net.owner, net.nodes, Live(net), a, b, msg);
  }

  /** And whatever does not get there is given up at a known place, and whoever waits for the reply hears
      of it. */
  lemma ConvergedFate(net: Net, run: seq<Step>, a: Id, msg: Message, path: seq<Id>, out: Action)
    requires Reachable(net, run) && Quiet(net) && a in Live(net) && msg.src == msg.auth == a
    requires Ends(net.nodes, path, None, msg, out) && path[0] == a
    ensures Exact(net.owner, net.nodes, Live(net)) && (out.Invoke? || out.GiveUp?)
    ensures out.Invoke? <==> GetsThere(net.owner, net.nodes, Live(net), a, msg)
    ensures out.GiveUp? ==>
              Known(net.owner, net.nodes, Live(net), a, msg, StopsAt(net.owner, net.nodes, Live(net), a, msg), out.dead)
  {
    ReachableIsExact(net, run);
    hide *;
    FateIsOne(net.owner, net.nodes, Live(net), a, msg, path, out);
  }
}
