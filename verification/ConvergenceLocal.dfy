/** The steps that leave the tree as it is, or cut it: data, messages of a context's own, a DEL_ROUTE from
    above, a lost child and a lost parent all keep the invariant. */
module ConvergenceLocal {
  import opened Prelude
  import opened Tree
  import opened Router
  import opened RouteMonitor
  import opened RoutingNet
  import opened Convergence
  import opened ConvergenceSteps

  lemma GoodNone(par: map<Id, Id>, p: Id, r: set<Id>)
    ensures Good(par, p, [], r) && Replay([], r) == r
  {
  }

  // ---- Messages ------------------------------------------------------------------------------

  /** A message that p may pass to its parent: it comes from something p answers for. */
  lemma LegitData(net: Net, p: Id, n: Node, msg: Message, from: Option<Id>)
    requires Formed(net) && p in net.nodes && net.nodes[p].stamp == map[]
    requires NodeOk(net.owner, net.nodes[p := n], p) && n.routes == net.nodes[p].routes
    requires n.ParentStream() == net.nodes[p].ParentStream()
    requires n.parent == net.nodes[p].parent && n.id == net.nodes[p].id
    requires msg.src in Offered(net.nodes[p]) && msg.auth in Offered(net.nodes[p])
    requires Agree(net.nodes[p])
    ensures Legit(net, p, n, SentUp(net.nodes[p], msg, from), {})
  {
    hide NodeOk, Below, Good, Replay;
    var old_ := net.nodes[p];
    GoodNone(net.owner, p, Offered(old_));
    var a := AsyncRoute(old_, msg, from);
    ContentKept(old_, msg, from);
    if a.Forward? && IsParentStream(old_, a.stream) {
      ForwardNeedsStream(old_, msg, from);
      GoodOne(net.owner, p, Data(a.msg), Offered(old_));
    }
  }

  lemma ForwardNeedsStream(n: Node, msg: Message, from: Option<Id>)
    requires Agree(n) && AsyncRoute(n, msg, from).Forward?
    requires IsParentStream(n, AsyncRoute(n, msg, from).stream)
    ensures n.ParentStream().Some?
  {
  }

  lemma ReceiveDataKeeps(net: Net, c: Id, m: Message)
    requires Inv(net) && Enabled(net, ReceiveUp(c)) && net.up[c][0] == Data(m)
    ensures Inv(Next(net, ReceiveUp(c)))
  {
    hide Inv, Below, Agree, DelOk, ToldOk, AsyncRoute;
    var p := net.owner[c];
    EdgeFacts(net, c);
    var old_ := net.nodes[p];
    var n := if Verified(old_, m, c) then Heard(old_, c, m.dst) else old_;
    HeardAgrees(old_, c, m.dst);
    StillOk(net.owner, net.nodes, p, n);
    assert n.routes == old_.routes[c := After(net.up[c][0], old_.routes[c])];
    assert m.src in old_.routes[c] && m.auth in old_.routes[c];
    LegitData(net, p, n, m, Some(c));
    hide EdgeOk, NodeOk, Legit, Offered;
    ReceiveKeeps(net, c, n, SentUp(old_, m, Some(c)), {});
  }

  /** A step of p that reads nothing and adds no child. */
  lemma LocalKeeps(net: Net, p: Id, n: Node, sent: seq<Packet>, down: set<(Id, Id)>)
    requires Inv(net) && p in net.nodes && Legit(net, p, n, sent, down)
    requires forall d {:trigger n.routes[d]} | d in n.routes ::
               d in net.nodes[p].routes && n.routes[d] == net.nodes[p].routes[d]
    requires var net' := Apply(net, p, n, sent, down);
             && (forall t | Route(DelRoute(t)) in sent ::
                   exists y :: Cuts(net', y, t) && Below(net.owner, p, y) && y != p)
             && (forall d | d in down && d.0 in n.routes ::
                   exists y :: Cuts(net', y, d.1) && !Below(net.owner, y, d.0))
    ensures Inv(Apply(net, p, n, sent, down))
  {
    InvParts(net, p);
    hide Inv, InvAround, Below, Agree, EdgeOk, DelOk, ToldOk, Good, Replay, Offered;
    OwnChildren(net, p);
    OtherChildren(net, p, n, sent, down, p);
    hide NodeOk, Legit;
    ApplyKeeps(net, p, n, sent, down);
  }

  lemma InvParts(net: Net, p: Id)
    requires Inv(net) && p in net.nodes
    ensures InvAround(net, p) && Shape(net) && EdgeOk(net, p) && NodeOk(net.owner, net.nodes, p)
    ensures forall d {:trigger EdgeOk(net, d)} | d in net.nodes && d != p :: EdgeOk(net, d)
  {
    hide EdgeOk, NodeOk, DelOk, ToldOk, Allocators;
  }

  lemma OwnChildren(net: Net, p: Id)
    requires p in net.nodes && NodeOk(net.owner, net.nodes, p)
    ensures forall d | d in net.nodes[p].routes ::
              d in net.nodes && d in net.owner && net.owner[d] == p
  {
    hide Agree, Below;
  }

  lemma OriginateKeeps(net: Net, p: Id, m: Message)
    requires Inv(net) && Enabled(net, Originate(p, m))
    ensures Inv(Next(net, Originate(p, m)))
  {
    hide Inv, Below, Agree, EdgeOk, DelOk, ToldOk, AsyncRoute;
    InvParts(net, p);
    assert net.nodes[p := net.nodes[p]] == net.nodes;
    LegitData(net, p, net.nodes[p], m, None);
    hide NodeOk, Legit, Offered;
    LocalKeeps(net, p, net.nodes[p], SentUp(net.nodes[p], m, None), {});
  }

  /** Nothing sent, nothing told, and nothing the invariant looks at changed. */
  lemma QuietKeeps(net: Net, p: Id, n: Node)
    requires Inv(net) && p in net.nodes && NodeOk(net.owner, net.nodes[p := n], p)
    requires n.routes == net.nodes[p].routes && n.id == net.nodes[p].id
    requires n.ParentStream().Some? ==> net.nodes[p].ParentStream().Some?
    ensures Inv(Apply(net, p, n, [], {}))
  {
    hide Inv, Below, Agree, EdgeOk, DelOk, ToldOk, NodeOk;
    InvParts(net, p);
    assert Offered(n) == Offered(net.nodes[p]);
    GoodNone(net.owner, p, Offered(n));
    assert Legit(net, p, n, [], {});
    hide Legit, Offered;
    LocalKeeps(net, p, n, [], {});
  }

  lemma LearnAgrees(n: Node, x: Id)
    requires Agree(n)
    ensures Agree(n.(contexts := n.contexts + {x}))
  {
  }

  lemma LearnKeeps(net: Net, p: Id, x: Id)
    requires Inv(net) && Enabled(net, Learn(p, x))
    ensures Inv(Next(net, Learn(p, x)))
  {
    hide Inv, Below, EdgeOk, DelOk, ToldOk, Agree;
    InvParts(net, p);
    var n := net.nodes[p].(contexts := net.nodes[p].contexts + {x});
    LearnAgrees(net.nodes[p], x);
    StillOk(net.owner, net.nodes, p, n);
    QuietKeeps(net, p, n);
  }

  lemma LoseParentKeeps(net: Net, c: Id)
    requires Inv(net) && Enabled(net, LoseParent(c))
    ensures Inv(Next(net, LoseParent(c)))
  {
    hide Inv, Below, EdgeOk, DelOk, ToldOk, OnStreamDisconnect, Agree;
    InvParts(net, c);
    var n := net.nodes[c];
    assert c in net.owner && n.parent == Some(net.owner[c]) by {
      assert LinkUp(net, c);
    }
    LoseParentEffect(n, []);
    var n' := n.(table := n.table - {net.owner[c]});
    StillOk(net.owner, net.nodes, c, n');
    QuietKeeps(net, c, n');
    assert Packets([]) == [];
  }

  // ---- A DEL_ROUTE read from the parent --------------------------------------------------

  /** It never removes anything: what it names was cut off elsewhere. */
  lemma DownDelHarmless(owner: map<Id, Id>, nodes: map<Id, Node>, c: Id, t: Id, y: Id)
    requires c in nodes && NodeOk(owner, nodes, c) && c in owner && IsTree(owner)
    requires nodes[c].ParentStream().Some?
    requires Below(owner, y, t) && !Below(owner, y, c)
    ensures var e := OnDelRoute(nodes[c], owner[c], t);
            && e.node == nodes[c] && e.up == []
            && (forall d | d in e.down :: d.1 == t && d.0 in nodes[c].table.Values
                                          && !IsParentStream(nodes[c], d.0))
  {
    var n := nodes[c];
    var p := owner[c];
    assert n.StreamFor(p) == Some(p);
    assert Below(owner, y, p) ==> Below(owner, y, c);
    if t in n.table {
      DelIgnored(n, p, t);
    } else {
      assert n.table - {t} == n.table;
      assert OnDelRoute(n, p, t).node == n;
    }
  }

  lemma ReceiveDelKeeps(net: Net, c: Id, t: Id)
    requires Inv(net) && Enabled(net, ReceiveDel(c, t))
    ensures Inv(Next(net, ReceiveDel(c, t)))
  {
    hide Inv, Below, EdgeOk, DelOk, OnDelRoute, Agree, Offered;
    InvParts(net, c);
    var y := ToldCut(net, c, t);
    assert c in net.owner by {
      assert LinkUp(net, c);
    }
    DownDelHarmless(net.owner, net.nodes, c, t, y);
    var n := net.nodes[c];
    var e := OnDelRoute(n, net.owner[c], t);
    var net' := Apply(net, c, n, [], e.down);
    assert Packets([]) == [];
    GoodNone(net.owner, c, Offered(n));
    assert net.nodes[c := n] == net.nodes;
    assert Legit(net, c, n, [], e.down);
    assert forall y, t :: Cuts(net, y, t) ==> Cuts(net', y, t) by {
      SameOpen(net, net, c, n, [], e.down);
    }
    forall d | d in e.down && d.0 in n.routes
      ensures exists y :: Cuts(net', y, d.1) && !Below(net.owner, y, d.0)
    {
      ChildNotCut(net, c, d.0, y);
    }
    hide NodeOk, Legit, ToldOk;
    LocalKeeps(net, c, n, [], e.down);
  }

  lemma ToldCut(net: Net, c: Id, t: Id) returns (y: Id)
    requires Inv(net) && c in net.nodes && t in net.told[c]
    ensures Cuts(net, y, t) && !Below(net.owner, y, c)
  {
    hide EdgeOk, NodeOk, DelOk, Allocators, Below;
    assert ToldOk(net, c);
    y :| Cuts(net, y, t) && !Below(net.owner, y, c);
  }

  lemma ChildNotCut(net: Net, c: Id, d: Id, y: Id)
    requires c in net.nodes && NodeOk(net.owner, net.nodes, c) && d in net.nodes[c].routes
    requires Severed(net, y) && !Below(net.owner, y, c)
    ensures !Below(net.owner, y, d)
  {
    assert Open(net, d);
  }

  // ---- A dead child stream ----------------------------------------------------------------

  lemma DisconnectNode(owner: map<Id, Id>, nodes: map<Id, Node>, p: Id, c: Id)
    requires IsTree(owner) && p in nodes && NodeOk(owner, nodes, p) && c in nodes[p].routes
    ensures var n := nodes[p];
            var n' := WithoutStream(n, c);
            && NodeOk(owner, nodes[p := n'], p)
            && n'.ParentStream() == n.ParentStream()
            && Offered(n') == Offered(n) - n.routes[c]
            && (forall x | x in n.routes[c] :: x in Offered(n) && x != p && Below(owner, p, x))
  {
    hide Below, Offered, Agree;
    var n := nodes[p];
    AgreeWithoutStream(n, c);
    StillOk(owner, nodes, p, WithoutStream(n, c));
    OfferedWithout(n, c);
    forall x | x in n.routes[c]
      ensures p < x && Below(owner, p, x)
    {
      ChildBelow(owner, p, c, x);
    }
  }

  lemma OfferedWithout(n: Node, c: Id)
    requires Agree(n) && Agree(WithoutStream(n, c)) && c in n.routes
    ensures n.id !in n.routes[c] ==> Offered(WithoutStream(n, c)) == Offered(n) - n.routes[c]
    ensures n.routes[c] <= Offered(n)
  {
    OfferedTable(n);
    OfferedTable(WithoutStream(n, c));
  }

  /** c itself is the cut above everything p says is gone. */
  lemma DisconnectWitness(net: Net, p: Id, c: Id, order: seq<Id>)
    requires Formed(net) && p in net.nodes && NodeOk(net.owner, net.nodes, p)
    requires IsTree(net.owner) && c in net.nodes[p].routes
    requires Lists(order, net.nodes[p].routes[c])
    ensures var e := OnStreamDisconnect(net.nodes[p], c, order);
            var net' := Apply(net, p, e.node, Packets(e.up), e.down);
            && (forall t | Route(DelRoute(t)) in Packets(e.up) ::
                  Cuts(net', c, t) && Below(net.owner, p, c) && c != p)
            && (forall d | d in e.down && d.0 in e.node.routes ::
                  Cuts(net', c, d.1) && !Below(net.owner, c, d.0))
  {
    hide Below, Agree, OnStreamDisconnect, WithoutStream, Cuts;
    InnerAgree(net.owner, net.nodes, p);
    DisconnectEffect(net.nodes[p], c, order);
    var e := OnStreamDisconnect(net.nodes[p], c, order);
    DisconnectCuts(net, p, c, e.node, Packets(e.up), e.down);
    SentDels(e.up, order);
    forall d | d in e.down && d.0 in e.node.routes
      ensures !Below(net.owner, c, d.0)
    {
      SiblingNotBelow(net.owner, net.nodes, p, c, d.0);
    }
    BelowSelf(net.owner, c);
    ChildBelow(net.owner, p, c, c);
  }

  lemma DisconnectKeeps(net: Net, c: Id, order: seq<Id>)
    requires Inv(net) && Enabled(net, Disconnect(c, order))
    ensures Inv(Next(net, Disconnect(c, order)))
  {
    hide Inv, Below, EdgeOk, DelOk, ToldOk, OnStreamDisconnect, Agree, WithoutStream, Cuts, NodeOk;
    EdgeFacts(net, c);
    var p := net.owner[c];
    InvParts(net, p);
    InnerAgree(net.owner, net.nodes, p);
    DisconnectEffect(net.nodes[p], c, order);
    var e := OnStreamDisconnect(net.nodes[p], c, order);
    assert forall d | d in e.node.routes :: e.node.routes[d] == net.nodes[p].routes[d] by {
      assert e.node.routes == net.nodes[p].routes - {c} by { FewerRoutes(net.nodes[p], c); }
    }
    DisconnectLegit(net, p, c, order);
    DisconnectWitness(net, p, c, order);
    hide Legit;
    LocalKeeps(net, p, e.node, Packets(e.up), e.down);
  }

  lemma FewerRoutes(n: Node, c: Id)
    ensures WithoutStream(n, c).routes == n.routes - {c}
  {
  }

  lemma SentDels(up: seq<RouteMsg>, order: seq<Id>)
    requires |up| <= |order| && forall i | 0 <= i < |up| :: up[i] == DelRoute(order[i])
    ensures forall t | Route(DelRoute(t)) in Packets(up) :: t in order
  {
  }

  lemma SiblingNotBelow(owner: map<Id, Id>, nodes: map<Id, Node>, p: Id, c: Id, d: Id)
    requires IsTree(owner) && p in nodes && NodeOk(owner, nodes, p)
    requires c in nodes[p].routes && d in WithoutStream(nodes[p], c).routes
    ensures !Below(owner, c, d)
  {
    if Below(owner, c, d) {
      BelowOrder(owner, c, owner[d]);
    }
  }

  /** Once c's stream is closed at p, c itself is the cut above everything that was reached
      through it. */
  lemma DisconnectCuts(net: Net, p: Id, c: Id, n: Node, sent: seq<Packet>, down: set<(Id, Id)>)
    requires p in net.nodes && p in net.up && NodeOk(net.owner, net.nodes, p)
    requires c in net.nodes[p].routes && n == WithoutStream(net.nodes[p], c)
    ensures forall t | t in net.nodes[p].routes[c] :: Cuts(Apply(net, p, n, sent, down), c, t)
  {
    hide Below;
    assert c !in n.routes;
  }

  lemma DisconnectLegit(net: Net, p: Id, c: Id, order: seq<Id>)
    requires Formed(net) && p in net.nodes && NodeOk(net.owner, net.nodes, p)
    requires IsTree(net.owner) && c in net.nodes[p].routes
    requires Lists(order, net.nodes[p].routes[c])
    ensures var e := OnStreamDisconnect(net.nodes[p], c, order);
            Legit(net, p, e.node, Packets(e.up), e.down)
  {
    hide Below, Agree, Offered, Good, Replay, OnStreamDisconnect, NodeOk;
    var n := net.nodes[p];
    assert Agree(n) by { InnerAgree(net.owner, net.nodes, p); }
    DisconnectEffect(n, c, order);
    DisconnectNode(net.owner, net.nodes, p, c);
    assert forall i | 0 <= i < |order| :: order[i] in order;
    GoodDels(net.owner, p, order, Offered(n));
    assert (set x | x in order) == n.routes[c];
  }

  lemma InnerAgree(owner: map<Id, Id>, nodes: map<Id, Node>, p: Id)
    requires p in nodes && NodeOk(owner, nodes, p)
    ensures Agree(nodes[p]) && nodes[p].id == p
  {
  }
}
