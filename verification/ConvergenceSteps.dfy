/** The steps of the tree, one at a time. */
module ConvergenceSteps {
  import opened Prelude
  import opened Tree
  import opened Router
  import opened RouteMonitor
  import opened RoutingNet
  import opened Convergence

  /** What a context answers for, read off its table instead of its sets. */
  lemma OfferedTable(n: Node)
    requires Agree(n)
    ensures Offered(n) == {n.id} + (set x | x in n.table && n.parent != Some(x))
  {
    var o := Offered(n);
    forall x | x in n.table && n.parent != Some(x)
      ensures x in o
    {
      var s := n.table[x];
      assert s in n.routes && x in n.routes[s];
    }
  }

  /** What the invariant says about one open edge. */
  lemma EdgeFacts(net: Net, c: Id)
    requires Inv(net) && c in net.nodes && Open(net, c)
    ensures Formed(net) && IsTree(net.owner) && EdgeOk(net, c)
    ensures var p := net.owner[c];
            && p in net.nodes && p < c && c in net.nodes[p].routes
            && NodeOk(net.owner, net.nodes, p)
            && (p in net.owner ==> EdgeOk(net, p))
            && (p in net.owner || p == 0)
  {
    hide EdgeOk, NodeOk, DelOk, ToldOk, Allocators;
    assert NodeOk(net.owner, net.nodes, net.owner[c]);
  }

  // ---- Reading a packet ------------------------------------------------------------------

  function Pop(net: Net, c: Id): Net
    requires c in net.up && net.up[c] != []
  {
    net.(up := net.up[c := net.up[c][1..]])
  }

  lemma SameCuts(net: Net, net1: Net)
    requires net1.nodes == net.nodes && net1.owner == net.owner
    ensures forall y, t :: Cuts(net, y, t) <==> Cuts(net1, y, t)
  {
  }

  lemma PopDel(net: Net, c: Id)
    requires Formed(net) && AllDelOk(net) && c in net.nodes && net.up[c] != []
    ensures Formed(Pop(net, c)) && AllDelOk(Pop(net, c))
  {
    var net1 := Pop(net, c);
    SameCuts(net, net1);
    assert forall d :: LinkUp(net, d) <==> LinkUp(net1, d);
    forall d | d in net.nodes
      ensures DelOk(net1, d)
    {
      assert DelOk(net, d);
      assert forall m | m in net1.up[d] :: m in net.up[d];
    }
  }

  lemma PopTold(net: Net, c: Id)
    requires Formed(net) && AllToldOk(net) && c in net.nodes && net.up[c] != []
    ensures Formed(Pop(net, c)) && AllToldOk(Pop(net, c))
  {
    var net1 := Pop(net, c);
    SameCuts(net, net1);
    assert forall d :: LinkUp(net, d) <==> LinkUp(net1, d);
    forall d | d in net.nodes
      ensures ToldOk(net1, d)
    {
      assert ToldOk(net, d);
    }
  }

  lemma PopAround(net: Net, c: Id)
    requires Inv(net) && c in net.nodes && Open(net, c) && net.up[c] != []
    ensures InvAround(Pop(net, c), net.owner[c]) && Shape(Pop(net, c))
    ensures forall d {:trigger EdgeOk(Pop(net, c), d)} |
              d in net.nodes && d != c :: EdgeOk(Pop(net, c), d)
  {
    var net1 := Pop(net, c);
    PopDel(net, c);
    PopTold(net, c);
    forall d | d in net.nodes && d != c
      ensures EdgeOk(net1, d)
    {
      assert EdgeOk(net, d);
    }
  }

  /** An id below a child of p is in p's table only under that child. */
  lemma RoutedUnderChild(owner: map<Id, Id>, nodes: map<Id, Node>, p: Id, c: Id, x: Id)
    requires IsTree(owner) && p in nodes && NodeOk(owner, nodes, p)
    requires c in owner && owner[c] == p && Below(owner, c, x)
    ensures p < x && nodes[p].parent != Some(x)
    ensures x in nodes[p].table ==>
              nodes[p].table[x] == c && c in nodes[p].routes && x in nodes[p].routes[c]
  {
    var n := nodes[p];
    BelowOrder(owner, c, x);
    if x in n.table && n.table[x] != c {
      SiblingsDisjoint(owner, c, n.table[x], x);
    }
  }

  /** Once p has changed only its set for c, the edges to its other children stand. */
  lemma OtherChildren(net: Net, p: Id, n: Node, sent: seq<Packet>, down: set<(Id, Id)>, c: Id)
    requires Formed(net) && p in net.nodes && IsTree(net.owner)
    requires forall d {:trigger EdgeOk(net, d)} | d in net.nodes && d != c :: EdgeOk(net, d)
    requires forall d {:trigger n.routes[d]} | d in n.routes && d != c ::
               d in net.nodes && d in net.nodes[p].routes && n.routes[d] == net.nodes[p].routes[d]
               && d in net.owner && net.owner[d] == p
    ensures forall d | d in n.routes && d != c ::
              d in net.nodes && EdgeOk(Apply(net, p, n, sent, down), d)
  {
    forall d | d in n.routes && d != c
      ensures d in net.nodes && EdgeOk(Apply(net, p, n, sent, down), d)
    {
      assert n.routes[d] == net.nodes[p].routes[d];
      assert EdgeOk(net, d);
    }
  }

  lemma PoppedEdge(net: Net, c: Id, n: Node, sent: seq<Packet>, down: set<(Id, Id)>)
    requires Formed(net) && c in net.nodes && Open(net, c) && net.up[c] != [] && EdgeOk(net, c)
    requires var p := net.owner[c];
             p != c && c in n.routes && n.routes[c] == After(net.up[c][0], net.nodes[p].routes[c])
    ensures EdgeOk(Apply(Pop(net, c), net.owner[c], n, sent, down), c)
  {
    hide Below, Offered;
  }

  lemma ChildrenKept(net: Net, c: Id, n: Node, sent: seq<Packet>, down: set<(Id, Id)>)
    requires Inv(net) && c in net.nodes && Open(net, c) && net.up[c] != []
    requires var p := net.owner[c];
             n.routes == net.nodes[p].routes[c := After(net.up[c][0], net.nodes[p].routes[c])]
    ensures forall d | d in n.routes && d != c ::
              d in net.nodes && EdgeOk(Apply(Pop(net, c), net.owner[c], n, sent, down), d)
  {
    hide Inv, InvAround, Below, Offered, Agree, EdgeOk, DelOk, ToldOk;
    EdgeFacts(net, c);
    PopAround(net, c);
    OtherChildren(Pop(net, c), net.owner[c], n, sent, down, c);
  }

  /** Reading one packet from c keeps the invariant, provided p's set for c is the only one that
      changes, as the packet says, and what p sends on is legitimate. */
  lemma ReceiveKeeps(net: Net, c: Id, n: Node, sent: seq<Packet>, down: set<(Id, Id)>)
    requires Inv(net) && c in net.nodes && Open(net, c) && net.up[c] != []
    requires var p := net.owner[c];
             && n.routes == net.nodes[p].routes[c := After(net.up[c][0], net.nodes[p].routes[c])]
             && Legit(net, p, n, sent, down)
             && (forall t | Route(DelRoute(t)) in sent ::
                   exists y :: Cuts(net, y, t) && Below(net.owner, p, y) && y != p)
             && (forall d | d in down && d.0 in n.routes ::
                   exists y :: Cuts(net, y, d.1) && !Below(net.owner, y, d.0))
    ensures Inv(Apply(Pop(net, c), net.owner[c], n, sent, down))
  {
    hide Inv, InvAround, Below, Offered, Agree, EdgeOk, NodeOk, DelOk, ToldOk, Good, Replay;
    var p := net.owner[c];
    EdgeFacts(net, c);
    PopAround(net, c);
    PoppedEdge(net, c, n, sent, down);
    ChildrenKept(net, c, n, sent, down);
    SameOpen(net, Pop(net, c), p, n, sent, down);
    ApplyKeeps(Pop(net, c), p, n, sent, down);
  }

  /** Cuts made before p's step are there after it. */
  lemma SameOpen(net: Net, net1: Net, p: Id, n: Node, sent: seq<Packet>, down: set<(Id, Id)>)
    requires net1.nodes == net.nodes && net1.owner == net.owner
    requires p in net.nodes && p in net1.up && n.routes.Keys <= net.nodes[p].routes.Keys
    ensures forall y, t :: Cuts(net, y, t) ==> Cuts(Apply(net1, p, n, sent, down), y, t)
  {
  }

  lemma HeardAgrees(n: Node, c: Id, dst: Id)
    requires Agree(n)
    ensures Agree(Heard(n, c, dst)) && Heard(n, c, dst).ParentStream() == n.ParentStream()
  {
  }

  /** A node keeps its standing if its indexes agree and its sets only hold what they may. */
  lemma StillOk(owner: map<Id, Id>, nodes: map<Id, Node>, p: Id, n: Node)
    requires p in nodes && NodeOk(owner, nodes, p) && Agree(n)
    requires n.id == p && n.parent == nodes[p].parent && n.stamp == nodes[p].stamp
    requires forall s {:trigger n.routes[s]} | s in n.routes ::
               s in nodes[p].routes
               && forall x | x in n.routes[s] :: x in nodes[p].routes[s] || Below(owner, s, x)
    ensures NodeOk(owner, nodes[p := n], p)
  {
    hide Agree, Below;
  }

  /** ADD_ROUTE for a new descendant of c, read from c, is accepted. */
  lemma HeadAdd(owner: map<Id, Id>, nodes: map<Id, Node>, p: Id, c: Id, x: Id)
    requires IsTree(owner) && p in nodes && NodeOk(owner, nodes, p)
    requires c in nodes[p].routes && x !in nodes[p].routes[c] && Below(owner, c, x)
    ensures var old_ := nodes[p];
            var e := OnAddRoute(Heard(old_, c, p), c, x);
            && NodeOk(owner, nodes[p := e.node], p)
            && e.node.routes == old_.routes[c := old_.routes[c] + {x}]
            && e.node.ParentStream() == old_.ParentStream()
            && e.up == PropagateUp(old_, AddRoute(x)) && e.down == {}
            && Offered(e.node) == Offered(old_) + {x}
            && x !in Offered(old_) && x != p && Below(owner, p, x)
  {
    hide OnAddRoute, Offered, Below;
    var old_ := nodes[p];
    var n := Heard(old_, c, p);
    RoutedUnderChild(owner, nodes, p, c, x);
    HeardAgrees(old_, c, p);
    AddAccepted(n, c, x);
    var n' := OnAddRoute(n, c, x).node;
    StillOk(owner, nodes, p, n');
    ChildBelow(owner, p, c, x);
    OfferedTable(old_);
    OfferedTable(n');
  }

  lemma GoodOne(par: map<Id, Id>, p: Id, m: Packet, r: set<Id>)
    requires IsNews(par, p, m, r)
    ensures Good(par, p, [m], r) && Replay([m], r) == After(m, r)
  {
    assert [m][1..] == [];
  }

  lemma LegitUp(net: Net, p: Id, n: Node, m: RouteMsg, down: set<(Id, Id)>)
    requires p in net.nodes && Formed(net)
    requires NodeOk(net.owner, net.nodes[p := n], p)
    requires n.routes.Keys <= net.nodes[p].routes.Keys
    requires n.ParentStream() == net.nodes[p].ParentStream()
    requires Offered(n) == After(Route(m), Offered(net.nodes[p]))
    requires var x := m.target;
             (m.AddRoute? <==> x !in Offered(net.nodes[p])) && x != p && Below(net.owner, p, x)
    ensures Legit(net, p, n, Packets(PropagateUp(n, m)), down)
  {
    hide Offered, NodeOk, Below, Good, Replay;
    GoodOne(net.owner, p, Route(m), Offered(net.nodes[p]));
    assert Packets([m]) == [Route(m)];
    assert Packets([]) == [];
  }

  lemma ReceiveAddKeeps(net: Net, c: Id, x: Id)
    requires Inv(net) && Enabled(net, ReceiveUp(c)) && net.up[c][0] == Route(AddRoute(x))
    ensures Inv(Next(net, ReceiveUp(c)))
  {
    hide Inv, Below, Offered, Agree, OnAddRoute, NodeOk, DelOk, ToldOk;
    var p := net.owner[c];
    EdgeFacts(net, c);
    var e := OnAddRoute(Heard(net.nodes[p], c, p), c, x);
    HeadAdd(net.owner, net.nodes, p, c, x);
    LegitUp(net, p, e.node, AddRoute(x), e.down);
    hide EdgeOk, Legit;
    ReceiveKeeps(net, c, e.node, Packets(e.up), e.down);
  }

  lemma HeadDelOffered(n: Node, n': Node, c: Id, x: Id)
    requires Agree(n) && Agree(n') && n'.id == n.id && n'.parent == n.parent
    requires c in n.routes && x in n.routes[c] && x != n.id && n.parent != Some(x)
    requires n'.table == n.table - {x}
    ensures Offered(n') == Offered(n) - {x} && x in Offered(n)
    ensures n'.ParentStream() == n.ParentStream()
  {
    OfferedTable(n);
    OfferedTable(n');
  }

  /** DEL_ROUTE for a known descendant of c, read from c, is accepted. */
  lemma HeadDel(owner: map<Id, Id>, nodes: map<Id, Node>, p: Id, c: Id, x: Id)
    requires IsTree(owner) && p in nodes && NodeOk(owner, nodes, p)
    requires c in nodes[p].routes && x in nodes[p].routes[c] && x != c
    ensures var old_ := nodes[p];
            var e := OnDelRoute(Heard(old_, c, p), c, x);
            && NodeOk(owner, nodes[p := e.node], p)
            && e.node.routes == old_.routes[c := old_.routes[c] - {x}]
            && e.node.ParentStream() == old_.ParentStream()
            && e.up == PropagateUp(old_, DelRoute(x))
            && e.down == PropagateDown(e.node, x)
            && Offered(e.node) == Offered(old_) - {x}
            && x in Offered(old_) && x != p && Below(owner, p, x)
  {
    hide OnDelRoute, Offered, Below, PropagateDown, Agree;
    var old_ := nodes[p];
    var n := Heard(old_, c, p);
    RoutedUnderChild(owner, nodes, p, c, x);
    HeardAgrees(old_, c, p);
    DelAccepted(n, c, x);
    var n' := OnDelRoute(n, c, x).node;
    StillOk(owner, nodes, p, n');
    ChildBelow(owner, p, c, x);
    hide NodeOk;
    HeadDelOffered(old_, n', c, x);
  }

  /** A deletion that came up from c tells nobody about something above them: the cut is
      strictly below c, and no child of p is. */
  lemma CutAside(owner: map<Id, Id>, p: Id, c: Id, d: Id, y: Id)
    requires IsTree(owner) && c in owner && d in owner && owner[c] == p == owner[d]
    requires Below(owner, c, y) && y != c
    ensures !Below(owner, y, d)
  {
    if Below(owner, y, d) {
      BelowOrder(owner, c, y);
      BelowTrans(owner, c, y, d);
      if c != d {
        SiblingsDisjoint(owner, c, d, d);
      } else {
        BelowOrder(owner, y, d);
      }
    }
  }

  lemma ReceiveDelRouteKeeps(net: Net, c: Id, x: Id)
    requires Inv(net) && Enabled(net, ReceiveUp(c)) && net.up[c][0] == Route(DelRoute(x))
    ensures Inv(Next(net, ReceiveUp(c)))
  {
    hide Inv, Below, Offered, Agree, OnDelRoute, DelOk, ToldOk, PropagateDown, Listeners;
    var p := net.owner[c];
    EdgeFacts(net, c);
    var e := OnDelRoute(Heard(net.nodes[p], c, p), c, x);
    HeadDel(net.owner, net.nodes, p, c, x);
    LegitUp(net, p, e.node, DelRoute(x), e.down);
    var y := HeadCut(net, c, x);
    forall d | d in e.down && d.0 in e.node.routes
      ensures exists y :: Cuts(net, y, d.1) && !Below(net.owner, y, d.0)
    {
      DownTargets(e.node, x, d);
      CutAside(net.owner, p, c, d.0, y);
    }
    ChildBelow(net.owner, p, c, y);
    hide EdgeOk, Legit, NodeOk;
    ReceiveKeeps(net, c, e.node, Packets(e.up), e.down);
  }

  lemma DownTargets(n: Node, x: Id, d: (Id, Id))
    requires d in PropagateDown(n, x)
    ensures d.1 == x && d.0 in n.table.Values && !IsParentStream(n, d.0)
  {
  }

  lemma HeadCut(net: Net, c: Id, x: Id) returns (y: Id)
    requires Inv(net) && c in net.nodes && net.up[c] != []
    requires net.up[c][0] == Route(DelRoute(x))
    ensures Cuts(net, y, x) && Below(net.owner, c, y) && y != c
  {
    hide EdgeOk, NodeOk, ToldOk, Allocators, Below;
    assert DelOk(net, c);
    assert net.up[c][0] in net.up[c];
    y :| Cuts(net, y, x) && Below(net.owner, c, y) && y != c;
  }
}
